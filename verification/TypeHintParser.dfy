/** The parser object: methods that advance a cursor over the tokens and grow vectors of hints.
    None stands for the exception the original throws. */
module TypeHintParser {
  import opened Wrappers
  import opened TypeHints

  function Snoc(items: Hints, h: Hint): Hints {
    match items case Nil => Cons(h, Nil) case Cons(x, more) => Cons(x, Snoc(more, h))
  }

  function Append(a: Hints, b: Hints): Hints {
    match a case Nil => b case Cons(x, more) => Cons(x, Append(more, b))
  }

  lemma {:induction false} AppendSnoc(a: Hints, h: Hint, b: Hints)
    ensures Append(Snoc(a, h), b) == Append(a, Cons(h, b))
  {
    if a.Cons? {
      AppendSnoc(a.tail, h, b);
    }
  }

  lemma {:induction false} AppendNil(a: Hints)
    ensures Append(a, Nil) == a
  {
    if a.Cons? {
      AppendNil(a.tail);
    }
  }

  /** Items read before, put in front of what is still to come. */
  function Before(items: Hints, more: Parsed<Hints>): Parsed<Hints> {
    match more case Err => Err case Ok(l, p) => Ok(Append(items, l), p)
  }

  function Then(h: Hint, more: Parsed<Hints>): Parsed<Hints> {
    match more case Err => Err case Ok(l, p) => Ok(Cons(h, l), p)
  }

  function ThenField(key: string, h: Hint, more: Parsed<(Fields, bool)>): Parsed<(Fields, bool)> {
    match more case Err => Err case Ok((l, v), p) => Ok((Field(key, h, l), v), p)
  }

  lemma EmptyBefore(more: Parsed<Hints>)
    ensures Before(Nil, more) == more
  {
  }

  lemma {:induction false} OneBefore(items: Hints, h: Hint, more: Parsed<Hints>)
    ensures Before(Snoc(items, h), more) == Before(items, Then(h, more))
  {
    if more.Ok? {
      AppendSnoc(items, h, more.value);
    }
  }

  function SnocField(fields: Fields, key: string, h: Hint): Fields {
    match fields case NoField => Field(key, h, NoField) case Field(k, x, more) => Field(k, x, SnocField(more, key, h))
  }

  function AppendFields(a: Fields, b: Fields): Fields {
    match a case NoField => b case Field(k, x, more) => Field(k, x, AppendFields(more, b))
  }

  lemma {:induction false} AppendSnocField(a: Fields, key: string, h: Hint, b: Fields)
    ensures AppendFields(SnocField(a, key, h), b) == AppendFields(a, Field(key, h, b))
  {
    if a.Field? {
      AppendSnocField(a.more, key, h, b);
    }
  }

  lemma {:induction false} AppendNoField(a: Fields)
    ensures AppendFields(a, NoField) == a
  {
    if a.Field? {
      AppendNoField(a.more);
    }
  }

  function BeforeFields(fields: Fields, more: Parsed<(Fields, bool)>): Parsed<(Fields, bool)> {
    match more case Err => Err case Ok((l, v), p) => Ok((AppendFields(fields, l), v), p)
  }

  lemma NoFieldBefore(more: Parsed<(Fields, bool)>)
    ensures BeforeFields(NoField, more) == more
  {
  }

  lemma {:induction false} FieldBefore(fields: Fields, key: string, h: Hint, more: Parsed<(Fields, bool)>)
    ensures BeforeFields(SnocField(fields, key, h), more) == BeforeFields(fields, ThenField(key, h, more))
  {
    if more.Ok? {
      AppendSnocField(fields, key, h, more.value.0);
    }
  }

  function BeforeItems(items: seq<Item>, more: Parsed<seq<Item>>): Parsed<seq<Item>> {
    match more case Err => Err case Ok(l, p) => Ok(items + l, p)
  }

  lemma CombineOne(items: seq<Item>)
    requires |items| == 1
    ensures Combine(items) == Some(items[0].hint) && NoBareBool(items) && items + [] == items
  {
  }

  lemma CombineMany(items: seq<Item>)
    requires |items| >= 2 && NoBareBool(items)
    ensures Combine(items) == Some(Simplified(items))
  {
    hide Simplified, NoBareBool;
  }

  /** The three flags the loop keeps. */
  predicate Flags(items: seq<Item>, wasRawBool: bool, wasFalse: bool, wasNull: bool) {
    && wasRawBool == (exists i :: 0 <= i < |items| && items[i].raw)
    && wasFalse == HasFalse(items) && wasNull == HasNull(items)
  }

  lemma {:induction false} MoreFlags(items: seq<Item>, item: Item, wasRawBool: bool, wasFalse: bool, wasNull: bool)
    requires Flags(items, wasRawBool, wasFalse, wasNull)
    ensures Flags(items + [item], wasRawBool || item.raw, wasFalse || item.hint == FALSE, wasNull || item.hint == NULL)
  {
    var l := items + [item];
    assert l[|items|] == item;
    assert forall i :: 0 <= i < |items| ==> l[i] == items[i];
  }

  /** Once the guard has failed it fails for the whole union. */
  lemma {:induction false} NoBareBoolPrefix(a: seq<Item>, b: seq<Item>)
    requires NoBareBool(a + b)
    ensures NoBareBool(a)
    decreases |b|
  {
    if b == [] {
      assert a + b == a;
    } else if |a + b| >= 2 {
      assert (a + b)[..|a + b| - 1] == a + b[..|b| - 1];
      NoBareBoolPrefix(a, b[..|b| - 1]);
    }
  }

  /** Stopping at the guard is what Combine does with all the items. */
  lemma {:induction false} GuardIs(
    items: seq<Item>, wasRawBool: bool, wasFalse: bool, wasNull: bool, more: Parsed<seq<Item>>)
    requires |items| >= 2 && NoBareBool(items[..|items| - 1]) && Flags(items, wasRawBool, wasFalse, wasNull)
    ensures NoBareBool(items) == !(wasRawBool && !wasNull)
    ensures wasRawBool && !wasNull && more.Ok? ==> Combine(items + more.value) == None
  {
    if wasRawBool && !wasNull && more.Ok? && NoBareBool(items + more.value) {
      NoBareBoolPrefix(items, more.value);
    }
  }

  /** The simplification at the end of a union, with its loop over the items. */
  method Simplify(items: seq<Item>, wasRawBool: bool, wasFalse: bool, wasNull: bool) returns (h: Hint)
    requires Flags(items, wasRawBool, wasFalse, wasNull)
    ensures h == Simplified(items)
  {
    if |items| - Count(wasFalse) - Count(wasNull) == 1 {
      for i := 0 to |items|
        invariant Payload(items) == Payload(items[i..])
      {
        if items[i].hint != NULL && items[i].hint != FALSE {
          return MakeOptional(items[i].hint, wasNull, wasFalse);
        }
        assert items[i..][1..] == items[i + 1..];
      }
    }
    return Pipe(ToHints(items));
  }

  lemma {:induction false} ArgumentsStep(t: seq<Tok>, pos: nat)
    ensures Tk(t, pos) == ClPar ==> ParseArguments(t, pos) == Ok(Nil, pos + 1)
    ensures Tk(t, pos) != ClPar ==>
              match ParseExpression(t, pos)
              case Err => ParseArguments(t, pos) == Err
              case Ok(h, p) =>
                var q := SkipName(t, p);
                if Tk(t, q) == Comma then ParseArguments(t, pos) == Then(h, ParseArguments(t, q + 1))
                else if Tk(t, q) == ClPar then ParseArguments(t, pos) == Then(h, ParseArguments(t, q))
                else ParseArguments(t, pos) == Err
  {
    hide ParseExpression;
  }

  lemma {:induction false} FieldsStep(t: seq<Tok>, pos: nat)
    ensures match ParseField(t, pos)
            case Err => ParseFields(t, pos) == Err
            case Ok((key, h), p) =>
              if Closes(Tk(t, p)) then ParseFields(t, pos) == Ok((Field(key, h, NoField), false), p + 1)
              else if Tk(t, p) != Comma then ParseFields(t, pos) == Err
              else if Tk(t, p + 1) != Varg then ParseFields(t, pos) == ThenField(key, h, ParseFields(t, p + 1))
              else if Closes(Tk(t, p + 2)) then ParseFields(t, pos) == Ok((Field(key, h, NoField), true), p + 3)
              else ParseFields(t, pos) == Err
  {
    hide ParseField;
  }

  /** The types that are one keyword. */
  function Keyword(k: Tok): Option<Hint> {
    match k
    case TInt => Some(Primitive(Int))
    case TBool | TBoolean | TTrue => Some(Primitive(Bool))
    case TFloat | TDouble => Some(Primitive(Float))
    case TString => Some(Primitive(String))
    case TFalse => Some(FALSE)
    case TNull => Some(NULL)
    case TMixed => Some(Primitive(Mixed))
    case TVoid => Some(Primitive(Void))
    case TObject => Some(Object)
    case TStatic => Some(Instance("static"))
    case _ => None
  }

  function Wrap(r: Option<Hint>, w: Wrapper): Option<Hint> {
    match r case None => None case Some(h) => Some(Wrapped(w, h))
  }

  class PhpDocTypeHintParser {
    const tokens: seq<Tok>
    var cur: nat

    constructor (tokens: seq<Tok>)
      ensures this.tokens == tokens && cur == 0
    {
      this.tokens := tokens;
      cur := 0;
    }

    function Here(): Tok
      reads this
    {
      Tk(tokens, cur)
    }

    /** The outcome of a method, as the functions give it. */
    ghost predicate Gives<T>(r: Option<T>, p: Parsed<T>)
      reads this
    {
      match p case Err => r == None case Ok(v, next) => r == Some(v) && cur == next
    }

    function RawItem(h: Hint): Item
      reads this
      requires 0 < cur <= |tokens|
    {
      Item(h, h == Primitive(Bool) && tokens[cur - 1] == TBool)
    }

    lemma {:induction false} FirstItem(start: nat)
      requires ParseArray(tokens, start).Ok? && cur == ParseArray(tokens, start).next
      ensures ParseAlternatives(tokens, start)
           == BeforeItems([RawItem(ParseArray(tokens, start).value)], ParseMore(tokens, cur))
    {
      hide ParseArray, ParseMore;
    }

    lemma {:induction false} NextItem(at: nat, items: seq<Item>)
      requires Tk(tokens, at) == Or && ParseArray(tokens, at + 1).Ok? && cur == ParseArray(tokens, at + 1).next
      ensures BeforeItems(items, ParseMore(tokens, at))
           == BeforeItems(items + [RawItem(ParseArray(tokens, at + 1).value)], ParseMore(tokens, cur))
    {
      hide ParseArray;
      FirstItem(at + 1);
      var item := RawItem(ParseArray(tokens, at + 1).value);
      var more := ParseMore(tokens, cur);
      if more.Ok? {
        assert items + ([item] + more.value) == items + [item] + more.value;
      }
    }

    method ParseTypeArray() returns (r: Option<Hint>)
      modifies `cur
      ensures Gives(r, ParseArray(tokens, old(cur)))
      decreases |tokens| - cur, 7
    {
      hide ParseSimple;
      r := ParseSimpleType();
      if r == None {
        return;
      }
      var inner := r.value;
      ghost var first, at := inner, cur;
      while Here() == OpBrk && Tk(tokens, cur + 1) == ClBrk
        invariant at <= cur <= |tokens| && Brackets(tokens, cur, inner) == Brackets(tokens, at, first)
        decreases |tokens| - cur
      {
        inner := Array(inner);
        cur := cur + 2;
      }
      r := Some(inner);
    }

    method ParseSimpleType() returns (r: Option<Hint>)
      modifies `cur
      ensures Gives(r, ParseSimple(tokens, old(cur)))
      decreases |tokens| - cur, 6
    {
      hide ParseExpression, ParseNamed, ParseNested, ParseCallable, ParseShape, MakeOptional;
      var k := Here();
      if k.FuncName? {
        r := ParseNamedType(k.name);
        return;
      }
      if Keyword(k) == None && k !in {OpPar, TTuple, TShape, TCallable, TArray, Question} {
        return None;
      }
      cur := cur + 1;
      match k
      case OpPar =>
        r := ParseTypeExpression();
        if r == None || Here() != ClPar {
          return None;
        }
        cur := cur + 1;
      case TTuple => r := ParseTupleType();
      case TShape => r := ParseShapeType();
      case TCallable =>
        if Here() == OpPar {
          r := ParseTypedCallable();
        } else {
          r := Some(Untyped);
        }
      case TArray =>
        if Opens(Here()) {
          r := ParseArrayType();
        } else {
          r := Some(Array(Primitive(Any)));
        }
      case Question =>
        r := ParseTypeExpression();
        if r.Some? {
          r := Some(MakeOptional(r.value, true, false));
        }
      case _ => r := Keyword(k);
    }

    method ParseTupleType() returns (r: Option<Hint>)
      modifies `cur
      ensures Gives(r, ParseTuple(tokens, old(cur)))
      decreases |tokens| - cur, 10
    {
      hide ParseNested;
      var items := ParseNestedTypeHints();
      r := if items == None then None else Some(Tuple(items.value));
    }

    method ParseArrayType() returns (r: Option<Hint>)
      modifies `cur
      ensures Gives(r, ParseArrayOf(tokens, old(cur)))
      decreases |tokens| - cur, 10
    {
      hide ParseNested;
      var items := ParseNestedTypeHints();
      match items
      case Some(Cons(h, Nil)) => r := Some(Array(h));
      case Some(Cons(_, Cons(h, Nil))) => r := Some(Array(h));
      case _ => r := None;
    }

    method ParseNamedType(s: string) returns (r: Option<Hint>)
      requires Here() == FuncName(s)
      modifies `cur
      ensures Gives(r, ParseNamed(tokens, old(cur), s))
      decreases |tokens| - cur, 5
    {
      hide ParseNestedOne, ParseNested, ParseShape;
      cur := cur + 1;
      if s == "\\tuple" {
        r := ParseTupleType();
      } else if s == "\\shape" {
        r := ParseShapeType();
      } else if s == "future" || s == "\\future" {
        r := ParseNestedOneTypeHint();
        r := Wrap(r, Future);
      } else if s == "future_queue" {
        r := ParseNestedOneTypeHint();
        r := Wrap(r, FutureQueue);
      } else if s == "any" {
        r := Some(Primitive(Any));
      } else if s == "regexp" {
        r := Some(Primitive(Regexp));
      } else if s == "force" {
        r := ParseNestedOneTypeHint();
      } else if s == "not_null" {
        r := ParseNestedOneTypeHint();
        r := Wrap(r, NotNull);
      } else if s == "not_false" {
        r := ParseNestedOneTypeHint();
        r := Wrap(r, NotFalse);
      } else if Foreign(s) {
        r := None;
      } else {
        r := Some(Instance(s));
      }
    }

    method ParseNestedTypeHints() returns (r: Option<Hints>)
      modifies `cur
      ensures Gives(r, ParseNested(tokens, old(cur)))
      decreases |tokens| - cur, 9
    {
      hide ParseExpression;
      if !Opens(Here()) {
        return None;
      }
      cur := cur + 1;
      ghost var start := cur;
      var items := Nil;
      while true
        invariant start <= cur <= |tokens|
        invariant ParseItems(tokens, start) == Before(items, ParseItems(tokens, cur))
        decreases |tokens| - cur
      {
        ghost var at := cur;
        var h := ParseTypeExpression();
        if h == None {
          return None;
        }
        ghost var was := items;
        items := Snoc(items, h.value);
        if Closes(Here()) {
          AppendSnoc(was, h.value, Nil);
          AppendNil(items);
          cur := cur + 1;
          return Some(items);
        } else if Here() == Comma {
          cur := cur + 1;
          ghost var more := ParseItems(tokens, cur);
          if more.Ok? {
            AppendSnoc(was, h.value, more.value);
          }
        } else {
          return None;
        }
      }
    }

    method ParseNestedOneTypeHint() returns (r: Option<Hint>)
      modifies `cur
      ensures Gives(r, ParseNestedOne(tokens, old(cur)))
      decreases |tokens| - cur, 9
    {
      hide ParseExpression;
      if !Opens(Here()) {
        return None;
      }
      cur := cur + 1;
      r := ParseTypeExpression();
      if r == None || !Closes(Here()) {
        return None;
      }
      cur := cur + 1;
    }

    method ParseTypedCallable() returns (r: Option<Hint>)
      modifies `cur
      ensures Gives(r, ParseCallable(tokens, old(cur)))
      decreases |tokens| - cur, 9
    {
      hide ParseExpression, ParseArguments;
      if Here() != OpPar {
        return None;
      }
      cur := cur + 1;
      var args := ParseArgumentTypes();
      if args == None {
        return None;
      }
      if Here() != Colon {
        return Some(Callable(args.value, Primitive(Void)));
      }
      cur := cur + 1;
      r := ParseTypeExpression();
      if r.Some? {
        r := Some(Callable(args.value, r.value));
      }
    }

    /** The loop of parse_typed_callable. */
    method ParseArgumentTypes() returns (r: Option<Hints>)
      requires cur <= |tokens|
      modifies `cur
      ensures Gives(r, ParseArguments(tokens, old(cur)))
      decreases |tokens| - cur, 9
    {
      hide ParseExpression, ParseArguments, Append, Snoc, Then;
      ghost var start := cur;
      var args := Nil;
      EmptyBefore(ParseArguments(tokens, cur));
      while Here() != ClPar
        invariant start <= cur <= |tokens|
        invariant ParseArguments(tokens, start) == Before(args, ParseArguments(tokens, cur))
        decreases |tokens| - cur
      {
        ArgumentsStep(tokens, cur);
        var h := ParseTypeExpression();
        if h == None {
          return None;
        }
        if Here() == VarName {
          cur := cur + 1;
        }
        if Here() == Comma {
          cur := cur + 1;
        } else if Here() != ClPar {
          return None;
        }
        OneBefore(args, h.value, ParseArguments(tokens, cur));
        args := Snoc(args, h.value);
      }
      ArgumentsStep(tokens, cur);
      AppendNil(args);
      cur := cur + 1;
      return Some(args);
    }

    method ParseShapeType() returns (r: Option<Hint>)
      modifies `cur
      ensures Gives(r, ParseShape(tokens, old(cur)))
      decreases |tokens| - cur, 9
    {
      hide ParseExpression, ParseField, ParseFields, SnocField, AppendFields, ThenField;
      if !Opens(Here()) {
        return None;
      }
      cur := cur + 1;
      ghost var start := cur;
      var fields := NoField;
      NoFieldBefore(ParseFields(tokens, cur));
      while true
        invariant start <= cur <= |tokens|
        invariant ParseFields(tokens, start) == BeforeFields(fields, ParseFields(tokens, cur))
        decreases |tokens| - cur
      {
        FieldsStep(tokens, cur);
        var field := ParseShapeField();
        if field == None {
          return None;
        }
        var (key, hint) := field.value;
        ghost var was := fields;
        fields := SnocField(fields, key, hint);
        AppendSnocField(was, key, hint, NoField);
        AppendNoField(fields);
        if Closes(Here()) {
          cur := cur + 1;
          return Some(Shape(fields, false));
        } else if Here() != Comma {
          return None;
        }
        cur := cur + 1;
        if Here() == Varg {
          cur := cur + 1;
          if !Closes(Here()) {
            return None;
          }
          cur := cur + 1;
          return Some(Shape(fields, true));
        }
        FieldBefore(was, key, hint, ParseFields(tokens, cur));
      }
    }

    /** The beginning of the loop of parse_shape_type. */
    method ParseShapeField() returns (r: Option<(string, Hint)>)
      modifies `cur
      ensures Gives(r, ParseField(tokens, old(cur)))
      decreases |tokens| - cur, 9
    {
      hide ParseExpression, MakeOptional;
      var key := Text(Here());
      cur := cur + 1;
      var isNullable := Here() == Question;
      if isNullable {
        cur := cur + 1;
      }
      if Here() != Colon {
        return None;
      }
      cur := cur + 1;
      var h := ParseTypeExpression();
      if h == None {
        return None;
      }
      return Some((key, if isNullable then MakeOptional(h.value, true, false) else h.value));
    }

    /** A type, and after it "..." for an array of such. */
    method ParseFromTokens() returns (r: Option<Hint>)
      modifies `cur
      ensures match ParseExpression(tokens, old(cur))
              case Err => r == None
              case Ok(h, p) =>
                if Tk(tokens, p) == Varg then r == Some(Array(h)) && cur == p + 1 else r == Some(h) && cur == p
    {
      hide ParseExpression;
      r := ParseTypeExpression();
      if r.Some? && Here() == Varg {
        cur := cur + 1;
        r := Some(Array(r.value));
      }
    }

    method ParseTypeExpression() returns (r: Option<Hint>)
      modifies `cur
      ensures Gives(r, ParseExpression(tokens, old(cur)))
      decreases |tokens| - cur, 8
    {
      hide ParseArray, Combine, NoBareBool, Simplified;
      ghost var start := cur;
      var first := ParseTypeArray();
      if first == None {
        return None;
      }
      var items := [RawItem(first.value)];
      FirstItem(start);
      CombineOne(items);
      if Here() != Or {
        return first;
      }
      var wasRawBool, wasFalse, wasNull := items[0].raw, first.value == FALSE, first.value == NULL;
      while Here() == Or
        invariant start < cur <= |tokens| && items != []
        invariant ParseAlternatives(tokens, start) == BeforeItems(items, ParseMore(tokens, cur))
        invariant NoBareBool(items) && (|items| < 2 ==> Here() == Or)
        invariant Flags(items, wasRawBool, wasFalse, wasNull)
        decreases |tokens| - cur
      {
        ghost var at := cur;
        cur := cur + 1;
        var more := ParseTypeArray();
        if more == None {
          return None;
        }
        var item := RawItem(more.value);
        NextItem(at, items);
        MoreFlags(items, item, wasRawBool, wasFalse, wasNull);
        items := items + [item];
        wasRawBool := wasRawBool || item.raw;
        wasFalse := wasFalse || item.hint == FALSE;
        wasNull := wasNull || item.hint == NULL;
        GuardIs(items, wasRawBool, wasFalse, wasNull, ParseMore(tokens, cur));
        if wasRawBool && !wasNull {
          return None;
        }
      }
      assert items + [] == items;
      var h := Simplify(items, wasRawBool, wasFalse, wasNull);
      CombineMany(items);
      return Some(h);
    }
  }
}

/** What the parser reads when it is given a printed hint, for every hint: unions run together,
    a nullable type or a typed callable swallows the alternatives that follow it. */
module TypeHintReread {
  import opened Wrappers
  import opened TypeHints

  /** The names that stand for something else than a class. */
  predicate Reserved(s: string) {
    Foreign(s) ||
    s in ["\\tuple", "\\shape", "future", "\\future", "future_queue", "any", "regexp", "force", "not_null", "not_false"]
  }

  /** The hints the create functions return: no empty lists, no optional of an optional, and
      classes whose names are class names. */
  predicate Proper(h: Hint)
    decreases h, 0
  {
    match h
    case Primitive(_) | Object | Untyped => true
    case Instance(name) => !Reserved(name)
    case Wrapped(_, i) => Proper(i)
    case Array(i) => Proper(i)
    case Tuple(items) => items.Cons? && AllProper(items)
    case Shape(fields, _) => fields.Field? && FieldsProper(fields)
    case Callable(args, ret) => AllProper(args) && Proper(ret)
    case Optional(i, n, f) => Proper(i) && !i.Optional? && (n || f)
    case Pipe(items) => items.Cons? && AllProper(items)
  }

  predicate AllProper(items: Hints)
    decreases items, 0
  {
    items.Cons? ==> Proper(items.head) && AllProper(items.tail)
  }

  predicate FieldsProper(fields: Fields)
    decreases fields, 0
  {
    fields.Field? ==> Proper(fields.hint) && FieldsProper(fields.more)
  }

  /** A hint whose printed form is one closed alternative. */
  predicate Atom(h: Hint) {
    !h.Optional? && !h.Callable? && !h.Pipe?
  }

  function One(h: Hint): Item {
    Item(h, h == Primitive(Bool))
  }

  function Ends(orNull: bool, orFalse: bool): seq<Item> {
    (if orNull then [One(NULL)] else []) + (if orFalse then [One(FALSE)] else [])
  }

  /** The alternatives read from a printed hint that is followed by the alternatives ts. */
  function Alts(h: Hint, ts: seq<Item>): (r: Option<seq<Item>>)
    ensures r.Some? ==> r.value != []
    decreases h, 1
  {
    match h
    case Callable(args, ret) =>
      (match (RereadAll(args), Joined(Alts(ret, ts)))
       case (Some(a), Some(r)) => Some([One(Callable(a, r))])
       case _ => None)
    case Optional(i, n, f) =>
      if n && !f then
        match Joined(Alts(i, ts)) case None => None case Some(x) => Some([One(MakeOptional(x, true, false))])
      else Alts(i, Ends(n, f) + ts)
    case Pipe(items) => AltsAll(items, ts)
    case _ => match RereadAtom(h) case None => None case Some(x) => Some([One(x)] + ts)
  }

  function AltsAll(items: Hints, ts: seq<Item>): (r: Option<seq<Item>>)
    ensures r.Some? ==> r.value != []
    decreases items, 0
  {
    match items
    case Nil => None
    case Cons(h, Nil) => Alts(h, ts)
    case Cons(h, more) => match AltsAll(more, ts) case None => None case Some(l) => Alts(h, l)
  }

  function Joined(items: Option<seq<Item>>): Option<Hint>
    requires items.Some? ==> items.value != []
  {
    match items case None => None case Some(l) => Combine(l)
  }

  /** The hint read from a printed hint. */
  function Reread(h: Hint): Option<Hint>
    decreases h, 2
  {
    Joined(Alts(h, []))
  }

  function RereadAtom(h: Hint): Option<Hint>
    requires Atom(h)
    decreases h, 0
  {
    match h
    case Primitive(Null) => Some(Instance("Null"))
    case Primitive(False) => Some(Instance("False"))
    case Wrapped(w, i) => (match Reread(i) case None => None case Some(x) => Some(Wrapped(w, x)))
    case Array(i) => (match Reread(i) case None => None case Some(x) => Some(Array(x)))
    case Tuple(items) => (match RereadAll(items) case None => None case Some(l) => Some(Tuple(l)))
    case Shape(fields, v) => (match RereadFields(fields) case None => None case Some(l) => Some(Shape(l, v)))
    case _ => Some(h)
  }

  function RereadAll(items: Hints): Option<Hints>
    decreases items, 0
  {
    match items
    case Nil => Some(Nil)
    case Cons(h, more) =>
      match (Reread(h), RereadAll(more))
      case (Some(x), Some(l)) => Some(Cons(x, l))
      case _ => None
  }

  function RereadFields(fields: Fields): Option<Fields>
    decreases fields, 0
  {
    match fields
    case NoField => Some(NoField)
    case Field(key, h, more) =>
      match (Reread(h), RereadFields(more))
      case (Some(x), Some(l)) => Some(Field(key, x, l))
      case _ => None
  }

  lemma {:induction false} RereadOfAtom(h: Hint)
    requires Atom(h)
    ensures Reread(h) == RereadAtom(h)
  {
  }

  // ----- the parser reads that -----

  /** s stands in t at pos. */
  predicate At(t: seq<Tok>, pos: nat, s: seq<Tok>) {
    pos + |s| <= |t| && t[pos..pos + |s|] == s
  }

  lemma {:induction false} AtSplit(t: seq<Tok>, pos: nat, a: seq<Tok>, b: seq<Tok>)
    requires At(t, pos, a + b)
    ensures At(t, pos, a) && At(t, pos + |a|, b)
  {
    assert (a + b)[..|a|] == a && (a + b)[|a|..] == b;
  }

  lemma {:induction false} AtOne(t: seq<Tok>, pos: nat, k: Tok, b: seq<Tok>)
    requires At(t, pos, [k] + b)
    ensures Tk(t, pos) == k && At(t, pos + 1, b)
  {
    AtSplit(t, pos, [k], b);
  }

  function Hinted(x: Option<Hint>, next: nat): Parsed<Hint> {
    match x case None => Err case Some(h) => Ok(h, next)
  }

  /** The alternatives of h put before those that follow. */
  function Extended(h: Hint, more: Parsed<seq<Item>>): Parsed<seq<Item>> {
    match more
    case Err => Err
    case Ok(ts, e) => match Alts(h, ts) case None => Err case Some(l) => Ok(l, e)
  }

  /** A printed hint is not followed by an opening parenthesis or by brackets of its own. */
  predicate Follows(k: Tok) {
    k != OpPar && k != OpBrk
  }

  lemma {:induction false} ExpressionIs(h: Hint, t: seq<Tok>, pos: nat)
    requires Proper(h) && At(t, pos, Print(h)) && Follows(Tk(t, pos + |Print(h)|)) && Tk(t, pos + |Print(h)|) != Or
    ensures ParseExpression(t, pos) == Hinted(Reread(h), pos + |Print(h)|)
    decreases h, 4
  {
    hide Print, Proper, Combine, ParseAlternatives, Alts;
    AlternativesAre(h, t, pos);
  }

  lemma {:induction false} AlternativesAre(h: Hint, t: seq<Tok>, pos: nat)
    requires Proper(h) && At(t, pos, Print(h)) && Follows(Tk(t, pos + |Print(h)|))
    ensures ParseAlternatives(t, pos) == Extended(h, ParseMore(t, pos + |Print(h)|))
    decreases h, 3
  {
    hide Proper, Print, At, Extended, ParseAlternatives, ParseMore, AtomRead;
    if h.Callable? {
      ProperCallable(h);
      CallableIs(h.args, h.ret, t, pos);
    } else if h.Optional? {
      OptionalIs(h, t, pos);
    } else if h.Pipe? {
      ProperPipe(h);
      PipeIs(h.items, t, pos);
    } else {
      AtomIs(h, t, pos);
      AtomStands(h, t, pos);
    }
  }

  lemma ProperCallable(h: Hint)
    requires h.Callable? && Proper(h)
    ensures AllProper(h.args) && Proper(h.ret)
  {
  }

  lemma ProperPipe(h: Hint)
    requires h.Pipe? && Proper(h)
    ensures h.items.Cons? && AllProper(h.items) && Print(h) == PrintPipe(h.items)
  {
  }

  lemma {:induction false} OptionalIs(h: Hint, t: seq<Tok>, pos: nat)
    requires h.Optional? && Proper(h) && At(t, pos, Print(h)) && Follows(Tk(t, pos + |Print(h)|))
    ensures ParseAlternatives(t, pos) == Extended(h, ParseMore(t, pos + |Print(h)|))
    decreases h, 2
  {
    hide At, Extended, ParseAlternatives, ParseMore, Suffix;
    if h.orNull && !h.orFalse {
      NullableIs(h.inner, t, pos);
    } else {
      SuffixedIs(h.inner, h.orNull, h.orFalse, t, pos);
    }
  }

  /** After an atom that is not followed by brackets, the other alternatives come as they are. */
  lemma {:induction false} AtomStands(h: Hint, t: seq<Tok>, pos: nat)
    requires Atom(h) && At(t, pos, Print(h)) && Follows(Tk(t, pos + |Print(h)|)) && AtomRead(h, t, pos)
    ensures ParseAlternatives(t, pos) == Extended(h, ParseMore(t, pos + |Print(h)|))
  {
    hide Print, RereadAtom, ParseArray;
  }

  /** The parser reads the atom, then whatever brackets follow. */
  ghost predicate AtomRead(h: Hint, t: seq<Tok>, pos: nat)
    requires Atom(h)
  {
    var q := pos + |Print(h)|;
    match RereadAtom(h)
    case None => ParseArray(t, pos) == Err
    case Some(x) =>
      && ParseArray(t, pos) == Brackets(t, q, x)
      && (x == Primitive(Bool) ==> 0 < q <= |t| && t[q - 1] == TBool)
  }

  /** The same for a type without brackets of its own. */
  ghost predicate SimpleRead(h: Hint, t: seq<Tok>, pos: nat)
    requires Atom(h)
  {
    ParseSimple(t, pos) == Hinted(RereadAtom(h), pos + |Print(h)|)
  }

  lemma {:induction false} AtomIs(h: Hint, t: seq<Tok>, pos: nat)
    requires Proper(h) && Atom(h) && At(t, pos, Print(h)) && Tk(t, pos + |Print(h)|) != OpPar
    ensures AtomRead(h, t, pos)
    decreases h, 2
  {
    if h.Array? {
      ArrayIs(h.inner, t, pos);
    } else {
      SimpleIs(h, t, pos);
      SimpleStands(h, t, pos);
    }
  }

  lemma {:induction false} SimpleIs(h: Hint, t: seq<Tok>, pos: nat)
    requires Proper(h) && Atom(h) && !h.Array? && At(t, pos, Print(h)) && Tk(t, pos + |Print(h)|) != OpPar
    ensures SimpleRead(h, t, pos)
    decreases h, 1
  {
    match h
    case Wrapped(w, i) => WrappedIs(w, i, t, pos);
    case Tuple(items) => TupleIs(items, t, pos);
    case Shape(fields, v) => ShapeIs(fields, v, t, pos);
    case _ => WordIs(h, t, pos);
  }

  lemma {:induction false} SimpleStands(h: Hint, t: seq<Tok>, pos: nat)
    requires Atom(h) && !h.Array? && At(t, pos, Print(h)) && SimpleRead(h, t, pos)
    ensures AtomRead(h, t, pos)
  {
    hide ParseSimple, RereadAtom, Print, At;
    if h == Primitive(Bool) {
      BoolToken(t, pos);
    } else {
      NotBool(h);
    }
  }

  lemma {:induction false} BoolToken(t: seq<Tok>, pos: nat)
    requires At(t, pos, Print(Primitive(Bool)))
    ensures |Print(Primitive(Bool))| == 1 && pos < |t| && t[pos] == TBool
  {
    assert t[pos..pos + 1][0] == TBool;
  }

  lemma {:induction false} NotBool(h: Hint)
    requires Atom(h) && h != Primitive(Bool)
    ensures RereadAtom(h) != Some(Primitive(Bool))
  {
  }

  /** Types of one word. */
  lemma {:induction false} WordIs(h: Hint, t: seq<Tok>, pos: nat)
    requires Proper(h) && (h.Primitive? || h.Object? || h.Untyped? || h.Instance?)
    requires At(t, pos, Print(h)) && Tk(t, pos + 1) != OpPar
    ensures SimpleRead(h, t, pos)
  {
    var k := Print(h)[0];
    assert t[pos] == k;
    if k.FuncName? {
      NameIs(h, t, pos);
    } else {
      hide ParseExpression, ParseNamed, ParseTuple, ParseShape, ParseCallable, ParseArrayOf;
    }
  }

  lemma {:induction false} NameIs(h: Hint, t: seq<Tok>, pos: nat)
    requires Proper(h) && (h.Primitive? || h.Instance?)
    requires pos < |t| && t[pos] == Print(h)[0] && t[pos].FuncName?
    ensures SimpleRead(h, t, pos)
  {
    hide ParseExpression, ParseWrapped, ParseTuple, ParseShape, ParseNestedOne, ParseCallable, ParseArrayOf;
    assert ParseSimple(t, pos) == ParseNamed(t, pos, t[pos].name);
  }

  lemma {:induction false} NamedIs(t: seq<Tok>, pos: nat, w: Wrapper)
    requires Tk(t, pos) == FuncName(WrapperName(w))
    ensures ParseSimple(t, pos) == ParseWrapped(t, pos + 1, w)
  {
    hide ParseExpression, ParseWrapped, ParseTuple, ParseShape, ParseNestedOne;
    assert ParseSimple(t, pos) == ParseNamed(t, pos, WrapperName(w));
  }

  lemma {:induction false} NestedOneIs(t: seq<Tok>, pos: nat, w: Wrapper, x: Option<Hint>, q: nat)
    requires Tk(t, pos) == Lt && ParseExpression(t, pos + 1) == Hinted(x, q) && Tk(t, q) == Gt
    ensures ParseWrapped(t, pos, w) == match x case None => Err case Some(h) => Ok(Wrapped(w, h), q + 1)
  {
    hide ParseExpression;
  }

  lemma {:induction false} WrappedIs(w: Wrapper, i: Hint, t: seq<Tok>, pos: nat)
    requires Proper(i) && At(t, pos, Print(Wrapped(w, i)))
    ensures SimpleRead(Wrapped(w, i), t, pos)
    decreases i, 5
  {
    hide Proper, ParseExpression, ParseSimple, ParseWrapped, Reread, Reserved;
    var name := [FuncName(WrapperName(w)), Lt];
    AtSplit(t, pos, name + Print(i), [Gt]);
    AtSplit(t, pos, name, Print(i));
    AtTwo(t, pos, FuncName(WrapperName(w)), Lt);
    ExpressionIs(i, t, pos + 2);
    NamedIs(t, pos, w);
    NestedOneIs(t, pos + 1, w, Reread(i), pos + 2 + |Print(i)|);
  }

  lemma {:induction false} ParenthesesAre(t: seq<Tok>, pos: nat, x: Option<Hint>, q: nat)
    requires Tk(t, pos) == OpPar && ParseExpression(t, pos + 1) == Hinted(x, q) && Tk(t, q) == ClPar
    ensures ParseSimple(t, pos) == Hinted(x, q + 1)
  {
    hide ParseExpression, ParseNamed, ParseTuple, ParseShape, ParseCallable, ParseArrayOf;
  }

  lemma {:induction false} ArrayIs(i: Hint, t: seq<Tok>, pos: nat)
    requires Proper(i) && At(t, pos, Print(Array(i)))
    ensures AtomRead(Array(i), t, pos)
    decreases i, 6
  {
    var e := pos + |PrintElement(i)|;
    assert Print(Array(i)) == PrintElement(i) + [OpBrk, ClBrk];
    hide Proper, ParseArray, Print, PrintElement, Reread, At, AtomRead, Brackets;
    AtSplit(t, pos, PrintElement(i), [OpBrk, ClBrk]);
    AtTwo(t, e, OpBrk, ClBrk);
    if Embraced(i) {
      ElementIs(i, t, pos);
    } else {
      BareElementIs(i, t, pos);
    }
    BracketsGrow(i, t, pos, e);
  }

  lemma {:induction false} BareElementIs(i: Hint, t: seq<Tok>, pos: nat)
    requires Proper(i) && !Embraced(i) && At(t, pos, PrintElement(i)) && Tk(t, pos + |PrintElement(i)|) == OpBrk
    ensures ParseArray(t, pos)
         == match Reread(i) case None => Err case Some(x) => Brackets(t, pos + |PrintElement(i)|, x)
    decreases i, 5
  {
    hide Proper, ParseArray, Print, Reread, RereadAtom, At;
    RereadOfAtom(i);
    AtomIs(i, t, pos);
  }

  lemma {:induction false} BracketsGrow(i: Hint, t: seq<Tok>, pos: nat, e: nat)
    requires e == pos + |PrintElement(i)| && Bracketed(t, e)
    requires ParseArray(t, pos) == match Reread(i) case None => Err case Some(x) => Brackets(t, e, x)
    ensures AtomRead(Array(i), t, pos)
  {
    hide ParseArray, Reread, PrintElement;
    assert Print(Array(i)) == PrintElement(i) + [OpBrk, ClBrk];
  }

  lemma {:induction false} ElementIs(i: Hint, t: seq<Tok>, pos: nat)
    requires Proper(i) && Embraced(i) && At(t, pos, PrintElement(i))
    ensures ParseArray(t, pos)
         == match Reread(i) case None => Err case Some(x) => Brackets(t, pos + |PrintElement(i)|, x)
    decreases i, 5
  {
    hide Proper, ParseExpression, ParseSimple, Reread, Print;
    AtSplit(t, pos, [OpPar] + Print(i), [ClPar]);
    AtSplit(t, pos, [OpPar], Print(i));
    ExpressionIs(i, t, pos + 1);
    ParenthesesAre(t, pos, Reread(i), pos + 1 + |Print(i)|);
  }

  lemma {:induction false} TupleStep(t: seq<Tok>, pos: nat)
    requires Tk(t, pos) == TTuple && Tk(t, pos + 1) == OpPar
    ensures ParseSimple(t, pos) == match ParseItems(t, pos + 2) case Err => Err case Ok(items, p) => Ok(Tuple(items), p)
  {
    hide ParseItems, ParseExpression, ParseNamed, ParseShape, ParseCallable, ParseArrayOf;
    assert ParseSimple(t, pos) == ParseTuple(t, pos + 1);
    assert ParseNested(t, pos + 1) == ParseItems(t, pos + 2);
  }

  lemma {:induction false} TupleSplit(items: Hints, t: seq<Tok>, pos: nat)
    requires At(t, pos, Print(Tuple(items)))
    ensures Tk(t, pos) == TTuple && Tk(t, pos + 1) == OpPar && At(t, pos + 2, PrintList(items))
    ensures Tk(t, pos + 2 + |PrintList(items)|) == ClPar && |Print(Tuple(items))| == 3 + |PrintList(items)|
  {
    hide PrintList;
    AtSplit(t, pos, [TTuple, OpPar] + PrintList(items), [ClPar]);
    AtSplit(t, pos, [TTuple, OpPar], PrintList(items));
    AtTwo(t, pos, TTuple, OpPar);
  }

  lemma {:induction false} TupleIs(items: Hints, t: seq<Tok>, pos: nat)
    requires items.Cons? && AllProper(items) && At(t, pos, Print(Tuple(items)))
    ensures SimpleRead(Tuple(items), t, pos)
    decreases items, 5
  {
    hide AllProper, ParseSimple, RereadAll, ParseItems, Print, PrintList, At, Tk;
    TupleSplit(items, t, pos);
    ItemsAre(items, t, pos + 2);
    TupleStep(t, pos);
  }

  function Listed<T>(x: Option<T>, next: nat): Parsed<T> {
    match x case None => Err case Some(l) => Ok(l, next)
  }

  function Linked(x: Option<Hint>, l: Option<Hints>): Option<Hints> {
    if x.Some? && l.Some? then Some(Cons(x.value, l.value)) else None
  }

  lemma {:induction false} ItemsLast(t: seq<Tok>, pos: nat, x: Option<Hint>, q: nat)
    requires ParseExpression(t, pos) == Hinted(x, q) && Tk(t, q) == ClPar
    ensures ParseItems(t, pos) == Listed(Linked(x, Some(Nil)), q + 1)
  {
    hide ParseExpression;
  }

  lemma {:induction false} ItemsNext(t: seq<Tok>, pos: nat, x: Option<Hint>, q: nat, l: Option<Hints>, e: nat)
    requires ParseExpression(t, pos) == Hinted(x, q) && Tk(t, q) == Comma && ParseItems(t, q + 1) == Listed(l, e)
    ensures ParseItems(t, pos) == Listed(Linked(x, l), e)
  {
    hide ParseExpression;
  }

  lemma RereadCons(h: Hint, more: Hints)
    ensures RereadAll(Cons(h, more)) == Linked(Reread(h), RereadAll(more))
  {
    hide Reread;
  }

  /** The first of several printed hints, and the rest behind the comma. */
  lemma {:induction false} ListSplit(h: Hint, more: Hints, t: seq<Tok>, pos: nat)
    requires more.Cons? && At(t, pos, PrintList(Cons(h, more)))
    ensures At(t, pos, Print(h)) && Tk(t, pos + |Print(h)|) == Comma && At(t, pos + |Print(h)| + 1, PrintList(more))
    ensures |PrintList(Cons(h, more))| == |Print(h)| + 1 + |PrintList(more)|
  {
    hide Print;
    assert PrintList(Cons(h, more)) == Print(h) + [Comma] + PrintList(more);
    hide PrintList;
    AtSplit(t, pos, Print(h) + [Comma], PrintList(more));
    AtSplit(t, pos, Print(h), [Comma]);
  }

  lemma PrintOne(h: Hint)
    ensures PrintList(Cons(h, Nil)) == Print(h)
  {
    hide Print;
  }

  lemma {:induction false} ItemsAre(items: Hints, t: seq<Tok>, pos: nat)
    requires items.Cons? && AllProper(items)
    requires At(t, pos, PrintList(items)) && Tk(t, pos + |PrintList(items)|) == ClPar
    ensures ParseItems(t, pos) == Listed(RereadAll(items), pos + |PrintList(items)| + 1)
    decreases items, 0
  {
    hide PrintList, ParseItems, ParseExpression, Reread, RereadAll, Print, Proper, At, Listed, Linked, Hinted, Tk;
    var h, more := items.head, items.tail;
    RereadCons(h, more);
    if more == Nil {
      PrintOne(h);
      ExpressionIs(h, t, pos);
      ItemsLast(t, pos, Reread(h), pos + |Print(h)|);
      RereadNil();
    } else {
      ListSplit(h, more, t, pos);
      ExpressionIs(h, t, pos);
      ItemsAre(more, t, pos + |Print(h)| + 1);
      ItemsNext(t, pos, Reread(h), pos + |Print(h)|, RereadAll(more), pos + |PrintList(items)| + 1);
    }
  }

  lemma RereadNil()
    ensures RereadAll(Nil) == Some(Nil)
  {
  }

  lemma {:induction false} ArgumentsEnd(t: seq<Tok>, pos: nat)
    requires Tk(t, pos) == ClPar
    ensures ParseArguments(t, pos) == Ok(Nil, pos + 1)
  {
    hide ParseExpression;
  }

  lemma {:induction false} ArgumentsNext(t: seq<Tok>, pos: nat, x: Option<Hint>, q: nat, l: Option<Hints>, e: nat)
    requires Tk(t, pos) != ClPar && ParseExpression(t, pos) == Hinted(x, q)
    requires || (Tk(t, q) == Comma && ParseArguments(t, q + 1) == Listed(l, e))
             || (Tk(t, q) == ClPar && ParseArguments(t, q) == Listed(l, e))
    ensures ParseArguments(t, pos) == Listed(Linked(x, l), e)
  {
    hide ParseExpression;
  }

  lemma PrintNone()
    ensures PrintList(Nil) == []
  {
  }

  lemma {:induction false} ArgumentsAre(items: Hints, t: seq<Tok>, pos: nat)
    requires AllProper(items)
    requires At(t, pos, PrintList(items)) && Tk(t, pos + |PrintList(items)|) == ClPar
    ensures ParseArguments(t, pos) == Listed(RereadAll(items), pos + |PrintList(items)| + 1)
    decreases items, 0
  {
    hide PrintList, ParseArguments, ParseExpression, Reread, RereadAll, Print, Proper, At, Linked, Hinted, Tk;
    if items == Nil {
      PrintNone();
      RereadNil();
      ArgumentsEnd(t, pos);
    } else {
      var h, more := items.head, items.tail;
      RereadCons(h, more);
      if more == Nil {
        PrintOne(h);
        FirstToken(h, t, pos);
        ExpressionIs(h, t, pos);
        ArgumentsEnd(t, pos + |Print(h)|);
        ArgumentsNext(t, pos, Reread(h), pos + |Print(h)|, Some(Nil), pos + |Print(h)| + 1);
        RereadNil();
      } else {
        ListSplit(h, more, t, pos);
        FirstToken(h, t, pos);
        ExpressionIs(h, t, pos);
        ArgumentsAre(more, t, pos + |Print(h)| + 1);
        ArgumentsNext(t, pos, Reread(h), pos + |Print(h)|, RereadAll(more), pos + |PrintList(items)| + 1);
      }
    }
  }

  /** No printed hint begins with a closing parenthesis. */
  lemma {:induction false} FirstToken(h: Hint, t: seq<Tok>, pos: nat)
    requires Proper(h) && At(t, pos, Print(h))
    ensures Tk(t, pos) != ClPar
  {
    FirstPrinted(h);
    hide Print;
    assert t[pos] == Print(h)[0];
  }

  lemma {:induction false} FirstPrinted(h: Hint)
    requires Proper(h)
    ensures Print(h) != [] && Print(h)[0] != ClPar
    decreases h
  {
    match h
    case Optional(i, n, f) => FirstPrinted(i);
    case Pipe(items) => FirstPrinted(items.head);
    case Array(i) => FirstPrinted(i);
    case _ =>
  }

  lemma {:induction false} ShapeStep(t: seq<Tok>, pos: nat)
    requires Tk(t, pos) == TShape && Tk(t, pos + 1) == OpPar
    ensures ParseSimple(t, pos)
         == match ParseFields(t, pos + 2) case Err => Err case Ok((fields, v), p) => Ok(Shape(fields, v), p)
  {
    hide ParseFields, ParseExpression, ParseNamed, ParseTuple, ParseCallable, ParseArrayOf;
    assert ParseSimple(t, pos) == ParseShape(t, pos + 1);
  }

  lemma {:induction false} ShapeSplit(fields: Fields, v: bool, t: seq<Tok>, pos: nat)
    requires At(t, pos, Print(Shape(fields, v)))
    ensures Tk(t, pos) == TShape && Tk(t, pos + 1) == OpPar && At(t, pos + 2, PrintFields(fields))
    ensures At(t, pos + 2 + |PrintFields(fields)|, Closing(v))
    ensures |Print(Shape(fields, v))| == 2 + |PrintFields(fields)| + |Closing(v)|
  {
    hide PrintFields, Closing;
    AtSplit(t, pos, [TShape, OpPar] + PrintFields(fields), Closing(v));
    AtSplit(t, pos, [TShape, OpPar], PrintFields(fields));
    AtTwo(t, pos, TShape, OpPar);
  }

  lemma {:induction false} ShapeIs(fields: Fields, v: bool, t: seq<Tok>, pos: nat)
    requires fields.Field? && FieldsProper(fields) && At(t, pos, Print(Shape(fields, v)))
    ensures SimpleRead(Shape(fields, v), t, pos)
    decreases fields, 5
  {
    hide FieldsProper, RereadFields, ParseFields, ParseSimple, Print, PrintFields, At, Closing, Tk;
    ShapeSplit(fields, v, t, pos);
    FieldsAre(fields, v, t, pos + 2);
    ShapeStep(t, pos);
  }

  function Marked(x: Option<Fields>, v: bool): Option<(Fields, bool)> {
    match x case None => None case Some(l) => Some((l, v))
  }

  function Joint(key: string, x: Option<Hint>, l: Option<Fields>): Option<Fields> {
    if x.Some? && l.Some? then Some(Field(key, x.value, l.value)) else None
  }

  lemma RereadField(key: string, h: Hint, more: Fields)
    ensures RereadFields(Field(key, h, more)) == Joint(key, Reread(h), RereadFields(more))
  {
    hide Reread;
  }

  lemma {:induction false} FieldStep(key: string, t: seq<Tok>, pos: nat, x: Option<Hint>, q: nat)
    requires Tk(t, pos) == FuncName(key) && Tk(t, pos + 1) == Colon && ParseExpression(t, pos + 2) == Hinted(x, q)
    ensures ParseField(t, pos) == match x case None => Err case Some(h) => Ok((key, h), q)
  {
    hide ParseExpression;
  }

  lemma {:induction false} FieldsLast(key: string, t: seq<Tok>, pos: nat, x: Option<Hint>, q: nat, v: bool)
    requires ParseField(t, pos) == match x case None => Err case Some(h) => Ok((key, h), q)
    requires At(t, q, Closing(v))
    ensures ParseFields(t, pos) == Listed(Marked(Joint(key, x, Some(NoField)), v), q + |Closing(v)|)
  {
    hide ParseField;
    ClosingTokens(v, t, q);
    hide Closing, At;
    assert x == None ==> ParseFields(t, pos) == Err;
  }

  lemma {:induction false} ClosingTokens(v: bool, t: seq<Tok>, q: nat)
    requires At(t, q, Closing(v))
    ensures v ==> Tk(t, q) == Comma && Tk(t, q + 1) == Varg && Tk(t, q + 2) == ClPar && |Closing(v)| == 3
    ensures !v ==> Tk(t, q) == ClPar && |Closing(v)| == 1
  {
    var s := t[q..q + |Closing(v)|];
    assert s[0] == t[q] && (v ==> s[1] == t[q + 1] && s[2] == t[q + 2]);
  }

  lemma {:induction false} FieldsNext(
    key: string, t: seq<Tok>, pos: nat, x: Option<Hint>, q: nat, v: bool, l: Option<Fields>, e: nat)
    requires ParseField(t, pos) == match x case None => Err case Some(h) => Ok((key, h), q)
    requires Tk(t, q) == Comma && Tk(t, q + 1) != Varg && ParseFields(t, q + 1) == Listed(Marked(l, v), e)
    ensures ParseFields(t, pos) == Listed(Marked(Joint(key, x, l), v), e)
  {
    hide ParseField;
  }

  lemma {:induction false} FieldsSplit(key: string, h: Hint, more: Fields, t: seq<Tok>, pos: nat)
    requires At(t, pos, PrintFields(Field(key, h, more)))
    ensures Tk(t, pos) == FuncName(key) && Tk(t, pos + 1) == Colon && At(t, pos + 2, Print(h))
    ensures more == NoField ==> |PrintFields(Field(key, h, more))| == 2 + |Print(h)|
    ensures more.Field? ==>
              var q := pos + 2 + |Print(h)|;
              && Tk(t, q) == Comma && At(t, q + 1, PrintFields(more)) && Tk(t, q + 1) == FuncName(more.key)
              && |PrintFields(Field(key, h, more))| == 3 + |Print(h)| + |PrintFields(more)|
  {
    hide Print;
    var front := [FuncName(key), Colon];
    if more.Field? {
      assert PrintFields(Field(key, h, more)) == front + Print(h) + [Comma] + PrintFields(more);
      AtSplit(t, pos, front + Print(h) + [Comma], PrintFields(more));
      AtSplit(t, pos, front + Print(h), [Comma]);
      assert PrintFields(more)[0] == FuncName(more.key);
      assert t[pos + 3 + |Print(h)|] == PrintFields(more)[0];
    }
    AtSplit(t, pos, front, Print(h));
    AtTwo(t, pos, FuncName(key), Colon);
  }

  lemma {:induction false} ClosingBegins(v: bool, t: seq<Tok>, q: nat)
    requires At(t, q, Closing(v))
    ensures Follows(Tk(t, q)) && Tk(t, q) != Or
  {
    assert t[q..q + |Closing(v)|][0] == Closing(v)[0];
  }

  lemma RereadNoField()
    ensures RereadFields(NoField) == Some(NoField)
  {
  }

  lemma {:induction false} FieldsAre(fields: Fields, v: bool, t: seq<Tok>, pos: nat)
    requires fields.Field? && FieldsProper(fields)
    requires At(t, pos, PrintFields(fields))
    requires At(t, pos + |PrintFields(fields)|, Closing(v))
    ensures ParseFields(t, pos) == Listed(Marked(RereadFields(fields), v), pos + |PrintFields(fields)| + |Closing(v)|)
    decreases fields, 0
  {
    hide PrintFields, ParseFields, ParseField, ParseExpression, Reread, RereadFields, Print;
    hide Proper, At, Listed, Marked, Joint, Hinted, Tk, Closing;
    var key, h, more := fields.key, fields.hint, fields.more;
    var q := pos + 2 + |Print(h)|;
    FieldsSplit(key, h, more, t, pos);
    RereadField(key, h, more);
    if more == NoField {
      RereadNoField();
      ClosingBegins(v, t, q);
      ExpressionIs(h, t, pos + 2);
      FieldStep(key, t, pos, Reread(h), q);
      FieldsLast(key, t, pos, Reread(h), q, v);
    } else {
      ExpressionIs(h, t, pos + 2);
      FieldStep(key, t, pos, Reread(h), q);
      FieldsAre(more, v, t, q + 1);
      FieldsNext(key, t, pos, Reread(h), q, v, RereadFields(more), pos + |PrintFields(fields)| + |Closing(v)|);
    }
  }

  /** A type that swallows the alternatives behind it is the last one. */
  lemma {:induction false} Swallows(t: seq<Tok>, pos: nat, x: Option<Hint>, e: nat)
    requires ParseSimple(t, pos) == Hinted(x, e)
    requires x.Some? ==> x.value != Primitive(Bool) && !Bracketed(t, e) && Tk(t, e) != Or
    ensures ParseAlternatives(t, pos) == match x case None => Err case Some(h) => Ok([One(h)], e)
  {
    hide ParseSimple;
    if x.Some? {
      assert ParseArray(t, pos) == Ok(x.value, e);
      assert ParseMore(t, e) == Ok([], e);
      assert [One(x.value)] + [] == [One(x.value)];
    } else {
      assert ParseArray(t, pos) == Err;
    }
  }

  lemma {:induction false} CallableStep(t: seq<Tok>, pos: nat, args: Option<Hints>, q: nat)
    requires Tk(t, pos) == TCallable && Tk(t, pos + 1) == OpPar
    requires ParseArguments(t, pos + 2) == Listed(args, q) && Tk(t, q) == Colon
    ensures ParseSimple(t, pos) ==
            if args == None then Err
            else match ParseExpression(t, q + 1) case Err => Err case Ok(ret, e) => Ok(Callable(args.value, ret), e)
  {
    hide ParseArguments, ParseExpression, ParseNamed, ParseTuple, ParseShape, ParseArrayOf;
    assert ParseSimple(t, pos) == ParseCallable(t, pos + 1);
  }

  lemma {:induction false} PartsSplit(t: seq<Tok>, pos: nat, mid: seq<Tok>, tail: seq<Tok>)
    requires At(t, pos, [TCallable, OpPar] + mid + [ClPar, Colon] + tail)
    ensures Tk(t, pos) == TCallable && Tk(t, pos + 1) == OpPar && At(t, pos + 2, mid)
    ensures var q := pos + |mid| + 3; Tk(t, q - 1) == ClPar && Tk(t, q) == Colon && At(t, q + 1, tail)
  {
    AtSplit(t, pos, [TCallable, OpPar] + mid + [ClPar, Colon], tail);
    AtSplit(t, pos, [TCallable, OpPar] + mid, [ClPar, Colon]);
    AtSplit(t, pos, [TCallable, OpPar], mid);
    AtTwo(t, pos, TCallable, OpPar);
    AtTwo(t, pos + 2 + |mid|, ClPar, Colon);
  }

  lemma {:induction false} CallableSplit(args: Hints, ret: Hint, t: seq<Tok>, pos: nat)
    requires At(t, pos, Print(Callable(args, ret)))
    ensures Tk(t, pos) == TCallable && Tk(t, pos + 1) == OpPar && At(t, pos + 2, PrintList(args))
    ensures var q := pos + |PrintList(args)| + 3;
            && Tk(t, q - 1) == ClPar && Tk(t, q) == Colon && At(t, q + 1, Print(ret))
            && pos + |Print(Callable(args, ret))| == q + 1 + |Print(ret)|
  {
    hide At, PrintList, Tk;
    PartsSplit(t, pos, PrintList(args), Print(ret));
  }

  lemma {:induction false} CallableIs(args: Hints, ret: Hint, t: seq<Tok>, pos: nat)
    requires AllProper(args) && Proper(ret) && At(t, pos, Print(Callable(args, ret)))
    requires Follows(Tk(t, pos + |Print(Callable(args, ret))|))
    ensures ParseAlternatives(t, pos) == Extended(Callable(args, ret), ParseMore(t, pos + |Print(Callable(args, ret))|))
    decreases Callable(args, ret), 0
  {
    hide AllProper, Proper, ParseArguments, RereadAll, Combine, ParseAlternatives, ParseSimple, Print;
    hide PrintList, At, ParseMore;
    var q := pos + |PrintList(args)| + 3;
    CallableSplit(args, ret, t, pos);
    ArgumentsAre(args, t, pos + 2);
    CallableStep(t, pos, RereadAll(args), q);
    AlternativesAre(ret, t, q + 1);
    ExpressionEnds(t, q + 1);
    var r := ParseExpression(t, q + 1);
    if RereadAll(args) == None || r == Err {
      Swallows(t, pos, None, 0);
    } else {
      Swallows(t, pos, Some(Callable(RereadAll(args).value, r.value)), r.next);
    }
  }

  lemma {:induction false} ExpressionEnds(t: seq<Tok>, pos: nat)
    ensures var r := ParseExpression(t, pos); r.Ok? ==> Tk(t, r.next) != Or && !Bracketed(t, r.next)
  {
  }

  lemma {:induction false} QuestionStep(t: seq<Tok>, pos: nat)
    requires Tk(t, pos) == Question
    ensures ParseSimple(t, pos)
         == match ParseExpression(t, pos + 1) case Err => Err case Ok(h, e) => Ok(MakeOptional(h, true, false), e)
  {
    hide ParseExpression, ParseNamed, ParseTuple, ParseShape, ParseArrayOf, ParseCallable, MakeOptional;
  }

  lemma {:induction false} NullableIs(i: Hint, t: seq<Tok>, pos: nat)
    requires Proper(i) && At(t, pos, [Question] + Print(i)) && Follows(Tk(t, pos + 1 + |Print(i)|))
    ensures ParseAlternatives(t, pos) == Extended(Optional(i, true, false), ParseMore(t, pos + 1 + |Print(i)|))
    decreases i, 5
  {
    hide Proper, Combine, ParseAlternatives, ParseSimple, MakeOptional, Print;
    AtOne(t, pos, Question, Print(i));
    AlternativesAre(i, t, pos + 1);
    QuestionStep(t, pos);
    ExpressionEnds(t, pos + 1);
    var r := ParseExpression(t, pos + 1);
    if r == Err {
      Swallows(t, pos, None, 0);
    } else {
      Swallows(t, pos, Some(MakeOptional(r.value, true, false)), r.next);
    }
  }

  lemma {:induction false} SuffixedIs(i: Hint, n: bool, f: bool, t: seq<Tok>, pos: nat)
    requires Proper(i) && (!n || f) && At(t, pos, Print(i) + Suffix(n, f))
    requires Follows(Tk(t, pos + |Print(i) + Suffix(n, f)|))
    ensures ParseAlternatives(t, pos) == Extended(Optional(i, n, f), ParseMore(t, pos + |Print(i) + Suffix(n, f)|))
    decreases i, 5
  {
    hide Proper, Alts, ParseAlternatives, ParseMore, Suffix, Ends, Print;
    AtSplit(t, pos, Print(i), Suffix(n, f));
    var q := pos + |Print(i)|;
    SuffixIs(n, f, t, q);
    AlternativesAre(i, t, pos);
    var more := ParseMore(t, q + |Suffix(n, f)|);
    if more.Ok? {
      AltsSuffixed(i, n, f, more.value);
    }
  }

  lemma AltsSuffixed(i: Hint, n: bool, f: bool, ts: seq<Item>)
    requires !n || f
    ensures Alts(Optional(i, n, f), ts) == Alts(i, Ends(n, f) + ts)
  {
  }

  /** "|null" and "|false" are alternatives. */
  lemma {:induction false} OneEnd(t: seq<Tok>, pos: nat, h: Hint)
    requires Tk(t, pos) == Or && ((Tk(t, pos + 1) == TNull && h == NULL) || (Tk(t, pos + 1) == TFalse && h == FALSE))
    requires Tk(t, pos + 2) != OpBrk
    ensures ParseMore(t, pos) == Behind(h, ParseMore(t, pos + 2))
  {
    hide ParseExpression, ParseNamed, ParseTuple, ParseShape, ParseArrayOf, ParseCallable;
    assert ParseSimple(t, pos + 1) == Ok(h, pos + 2);
    hide ParseSimple;
    assert ParseArray(t, pos + 1) == Ok(h, pos + 2);
    hide ParseArray;
    assert ParseMore(t, pos) == ParseAlternatives(t, pos + 1);
  }

  function Behind(h: Hint, more: Parsed<seq<Item>>): Parsed<seq<Item>> {
    match more case Err => Err case Ok(ts, e) => Ok([One(h)] + ts, e)
  }

  lemma {:induction false} SuffixIs(n: bool, f: bool, t: seq<Tok>, pos: nat)
    requires At(t, pos, Suffix(n, f)) && Follows(Tk(t, pos + |Suffix(n, f)|))
    ensures Follows(Tk(t, pos))
    ensures match ParseMore(t, pos + |Suffix(n, f)|)
            case Err => ParseMore(t, pos) == Err
            case Ok(ts, e) => ParseMore(t, pos) == Ok(Ends(n, f) + ts, e)
  {
    hide ParseMore;
    var a, b := if n then [Or, TNull] else [], if f then [Or, TFalse] else [];
    AtSplit(t, pos, a, b);
    var more := ParseMore(t, pos + |a + b|);
    if f {
      AtTwo(t, pos + |a|, Or, TFalse);
      OneEnd(t, pos + |a|, FALSE);
    }
    if n {
      AtTwo(t, pos, Or, TNull);
      OneEnd(t, pos, NULL);
    }
    if more.Ok? {
      EndsBehind(n, f, more.value);
    }
  }

  lemma EndsBehind(n: bool, f: bool, ts: seq<Item>)
    ensures var l := if f then [One(FALSE)] + ts else ts; Ends(n, f) + ts == if n then [One(NULL)] + l else l
  {
    hide One;
  }

  lemma {:induction false} AtTwo(t: seq<Tok>, pos: nat, a: Tok, b: Tok)
    requires At(t, pos, [a, b])
    ensures Tk(t, pos) == a && Tk(t, pos + 1) == b
  {
    assert t[pos..pos + 2][0] == a && t[pos..pos + 2][1] == b;
  }

  lemma AltsPipe(h: Hint, more: Hints, ts: seq<Item>)
    ensures more == Nil ==> Alts(Pipe(Cons(h, more)), ts) == Alts(h, ts)
    ensures more != Nil ==>
              Alts(Pipe(Cons(h, more)), ts) == match Alts(Pipe(more), ts) case None => None case Some(l) => Alts(h, l)
  {
    assert Alts(Pipe(Cons(h, more)), ts) == AltsAll(Cons(h, more), ts);
    assert Alts(Pipe(more), ts) == AltsAll(more, ts);
    hide Alts;
  }

  lemma {:induction false} PipeSplit(h: Hint, more: Hints, t: seq<Tok>, pos: nat)
    requires At(t, pos, PrintPipe(Cons(h, more)))
    ensures At(t, pos, Print(h)) && (more == Nil ==> PrintPipe(Cons(h, more)) == Print(h))
    ensures more != Nil ==>
              && Tk(t, pos + |Print(h)|) == Or && At(t, pos + |Print(h)| + 1, PrintPipe(more))
              && |PrintPipe(Cons(h, more))| == |Print(h)| + 1 + |PrintPipe(more)|
  {
    hide Print;
    if more != Nil {
      assert PrintPipe(Cons(h, more)) == Print(h) + [Or] + PrintPipe(more);
      hide PrintPipe;
      AtSplit(t, pos, Print(h) + [Or], PrintPipe(more));
      AtSplit(t, pos, Print(h), [Or]);
    }
  }

  lemma {:induction false} PipeIs(items: Hints, t: seq<Tok>, pos: nat)
    requires items.Cons? && AllProper(items) && At(t, pos, PrintPipe(items)) && Follows(Tk(t, pos + |PrintPipe(items)|))
    ensures ParseAlternatives(t, pos) == Extended(Pipe(items), ParseMore(t, pos + |PrintPipe(items)|))
    decreases items, 0
  {
    hide Proper, Print, PrintPipe, ParseAlternatives, Alts, At;
    var h, more := items.head, items.tail;
    var q := pos + |PrintPipe(items)|;
    PipeSplit(h, more, t, pos);
    AlternativesAre(h, t, pos);
    if more != Nil {
      PipeIs(more, t, pos + |Print(h)| + 1);
    }
    var rest := ParseMore(t, q);
    if rest.Ok? {
      AltsPipe(h, more, rest.value);
    }
  }
}

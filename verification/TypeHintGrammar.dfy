/** Type hints as they may be written, not only as they are printed: with the names and spellings the
    source text may use, what each form means, and that the parser reads exactly these forms. */
module TypeHintGrammar {
  import opened Wrappers
  import opened TypeHints
  import opened TypeHintReread

  datatype Written =
    | Word(k: Tok)
    | Named(name: string)
    | InParens(e: Written)
    | Nullable(e: Written)
    | TupleOf(head: Tok, open: Tok, items: List, close: Tok)
    | ArrayOf(open: Tok, items: List, close: Tok)
    | Around(name: string, open: Tok, e: Written, close: Tok)
    | ShapeOf(head: Tok, open: Tok, fields: Keys, dots: bool, close: Tok)
    | Function(args: Args)
    | FunctionTo(args: Args, ret: Written)
    | Bracket(e: Written)
    | Either(e: Written, rest: Written)

  datatype List = Last(e: Written) | More(e: Written, rest: List)

  /** Arguments of a callable; the name of a parameter and a comma may follow the type. */
  datatype Args = NoArgs | Arg(e: Written, named: bool, comma: bool, rest: Args)

  /** Fields of a shape; a question mark may follow the key. */
  datatype Keys = LastKey(key: Tok, mark: bool, e: Written) | MoreKeys(key: Tok, mark: bool, e: Written, rest: Keys)

  // ----- the text -----

  function Tokens(w: Written): seq<Tok>
    decreases w, 0
  {
    match w
    case Word(k) => [k]
    case Named(name) => [FuncName(name)]
    case InParens(e) => [OpPar] + (Tokens(e) + [ClPar])
    case Nullable(e) => [Question] + Tokens(e)
    case TupleOf(head, open, items, close) => [head] + ([open] + (ListTokens(items) + [close]))
    case ArrayOf(open, items, close) => [TArray] + ([open] + (ListTokens(items) + [close]))
    case Around(name, open, e, close) => [FuncName(name)] + ([open] + (Tokens(e) + [close]))
    case ShapeOf(head, open, fields, dots, close) =>
      [head] + ([open] + (KeysTokens(fields) + ((if dots then [Comma, Varg] else []) + [close])))
    case Function(args) => [TCallable] + ([OpPar] + (ArgsTokens(args) + [ClPar]))
    case FunctionTo(args, ret) => [TCallable] + ([OpPar] + ((ArgsTokens(args) + [ClPar]) + ([Colon] + Tokens(ret))))
    case Bracket(e) => Tokens(e) + [OpBrk, ClBrk]
    case Either(e, rest) => Tokens(e) + ([Or] + Tokens(rest))
  }

  function ListTokens(l: List): seq<Tok>
    decreases l, 0
  {
    match l
    case Last(e) => Tokens(e)
    case More(e, rest) => Tokens(e) + ([Comma] + ListTokens(rest))
  }

  function ArgsTokens(a: Args): seq<Tok>
    decreases a, 0
  {
    match a
    case NoArgs => []
    case Arg(e, named, comma, rest) => Tokens(e) + (Separator(named, comma) + ArgsTokens(rest))
  }

  /** What stands between an argument and the next one. */
  function Separator(named: bool, comma: bool): seq<Tok> {
    if named then (if comma then [VarName, Comma] else [VarName]) else if comma then [Comma] else []
  }

  function KeysTokens(f: Keys): seq<Tok>
    decreases f, 0
  {
    match f
    case LastKey(key, mark, e) => [key] + (Mark(mark) + ([Colon] + Tokens(e)))
    case MoreKeys(key, mark, e, rest) => ([key] + (Mark(mark) + ([Colon] + Tokens(e)))) + ([Comma] + KeysTokens(rest))
  }

  function Mark(mark: bool): seq<Tok> {
    if mark then [Question] else []
  }

  // ----- which forms there are -----

  /** A nullable type and the type a callable returns reach as far to the right as they can. */
  predicate OpenEnded(w: Written) {
    w.Nullable? || w.FunctionTo?
  }

  /** What the words mean that are types by themselves. */
  function WordHint(k: Tok): Option<Hint> {
    match k
    case TInt => Some(Primitive(Int))
    case TBool => Some(Primitive(Bool))
    case TBoolean => Some(Primitive(Bool))
    case TTrue => Some(Primitive(Bool))
    case TFloat => Some(Primitive(Float))
    case TDouble => Some(Primitive(Float))
    case TString => Some(Primitive(String))
    case TFalse => Some(Primitive(False))
    case TNull => Some(Primitive(Null))
    case TMixed => Some(Primitive(Mixed))
    case TVoid => Some(Primitive(Void))
    case TObject => Some(Object)
    case TStatic => Some(Instance("static"))
    case TCallable => Some(Untyped)
    case TArray => Some(Array(Primitive(Any)))
    case _ => None
  }

  function NameHint(name: string): Hint {
    if name == "any" then Primitive(Any) else if name == "regexp" then Primitive(Regexp) else Instance(name)
  }

  /** The type formed around another one. */
  function AroundHint(name: string, h: Hint): Option<Hint> {
    if name == "future" || name == "\\future" then Some(Wrapped(Future, h))
    else if name == "future_queue" then Some(Wrapped(FutureQueue, h))
    else if name == "not_null" then Some(Wrapped(NotNull, h))
    else if name == "not_false" then Some(Wrapped(NotFalse, h))
    else if name == "force" then Some(h)
    else None
  }

  /** A name that is a type by itself. */
  predicate TypeName(name: string) {
    name !in ["\\tuple", "\\shape", "future", "\\future", "future_queue", "not_null", "not_false", "force",
              "ffi_cdata", "ffi_scope", "instance", "_tmp_string"]
  }

  predicate Pair(open: Tok, close: Tok) {
    (open == Lt || open == OpPar) && (close == Gt || close == ClPar)
  }

  predicate Placed(w: Written)
    decreases w, 0
  {
    match w
    case Word(k) => WordHint(k).Some?
    case Named(name) => TypeName(name)
    case InParens(e) => Placed(e)
    case Nullable(e) => Placed(e)
    case TupleOf(head, open, items, close) =>
      (head == TTuple || head == FuncName("\\tuple")) && Pair(open, close) && ListPlaced(items)
    case ArrayOf(open, items, close) => Pair(open, close) && ListPlaced(items)
    case Around(name, open, e, close) => AroundHint(name, Object).Some? && Pair(open, close) && Placed(e)
    case ShapeOf(head, open, fields, _, close) =>
      (head == TShape || head == FuncName("\\shape")) && Pair(open, close) && KeysPlaced(fields)
    case Function(args) => ArgsPlaced(args)
    case FunctionTo(args, ret) => ArgsPlaced(args) && Placed(ret)
    case Bracket(e) => !e.Either? && !OpenEnded(e) && Placed(e)
    case Either(e, rest) => !e.Either? && !OpenEnded(e) && Placed(e) && Placed(rest)
  }

  predicate ListPlaced(l: List)
    decreases l, 0
  {
    match l
    case Last(e) => Placed(e)
    case More(e, rest) => Placed(e) && ListPlaced(rest)
  }

  predicate ArgsPlaced(a: Args)
    decreases a, 0
  {
    match a
    case NoArgs => true
    case Arg(e, _, comma, rest) => Placed(e) && ArgsPlaced(rest) && (rest.Arg? ==> comma)
  }

  predicate KeysPlaced(f: Keys)
    decreases f, 0
  {
    match f
    case LastKey(_, _, e) => Placed(e)
    case MoreKeys(_, _, e, rest) => Placed(e) && KeysPlaced(rest) && KeyOf(rest) != Varg
  }

  function KeyOf(f: Keys): Tok {
    f.key
  }

  // ----- what they mean -----

  function Core(h: Hint): Hint {
    match h case Optional(i, _, _) => Core(i) case _ => h
  }

  predicate OrNull(h: Hint) {
    h.Optional? && (h.orNull || OrNull(h.inner))
  }

  predicate OrFalse(h: Hint) {
    h.Optional? && (h.orFalse || OrFalse(h.inner))
  }

  /** h, and null, and false: one optional type, whatever h is. */
  function With(h: Hint, n: bool, f: bool): Hint {
    Optional(Core(h), n || OrNull(h), f || OrFalse(h))
  }

  /** The alternatives of a union. */
  function Alternatives(w: Written): (r: seq<Written>)
    ensures r != []
  {
    if w.Either? then [w.e] + Alternatives(w.rest) else [w]
  }

  /** An alternative spelled bool needs a null not later than itself, or than the second alternative. */
  ghost predicate Refused(ws: seq<Written>, hs: seq<Hint>)
    requires |ws| == |hs|
  {
    exists b :: 0 <= b < |ws| && ws[b] == Word(TBool) &&
                forall j :: 0 <= j < |hs| && (j <= b || j <= 1) ==> hs[j] != NULL
  }

  /** All the others are null or false, and neither stands there twice. */
  ghost predicate OnlyType(hs: seq<Hint>, k: nat) {
    && k < |hs| && hs[k] != NULL && hs[k] != FALSE
    && (forall j :: 0 <= j < |hs| && j != k ==> hs[j] == NULL || hs[j] == FALSE)
    && (forall i, j :: 0 <= i < j < |hs| && i != k && j != k ==> hs[i] != hs[j])
  }

  function Listed(hs: seq<Hint>): Hints {
    if hs == [] then Nil else Cons(hs[0], Listed(hs[1..]))
  }

  ghost function UnionHint(ws: seq<Written>, hs: seq<Hint>): Option<Hint>
    requires |ws| == |hs|
  {
    if Refused(ws, hs) then None
    else if exists k: nat :: OnlyType(hs, k) then
      var k: nat :| OnlyType(hs, k); Some(With(hs[k], NULL in hs, FALSE in hs))
    else Some(Pipe(Listed(hs)))
  }

  ghost function Meaning(w: Written): Option<Hint>
    decreases w, 1
  {
    match w
    case Word(k) => WordHint(k)
    case Named(name) => Some(NameHint(name))
    case InParens(e) => Meaning(e)
    case Nullable(e) => (match Meaning(e) case None => None case Some(h) => Some(With(h, true, false)))
    case TupleOf(_, _, items, _) => (match ListMeaning(items) case None => None case Some(l) => Some(Tuple(l)))
    case ArrayOf(_, items, _) =>
      (match items
       case Last(e) => (match Meaning(e) case None => None case Some(h) => Some(Array(h)))
       case More(e, Last(f)) =>
         (match (Meaning(e), Meaning(f)) case (Some(_), Some(h)) => Some(Array(h)) case _ => None)
       case _ => None)
    case Around(name, _, e, _) => (match Meaning(e) case None => None case Some(h) => AroundHint(name, h))
    case ShapeOf(_, _, fields, dots, _) =>
      (match KeysMeaning(fields) case None => None case Some(l) => Some(Shape(l, dots)))
    case Function(args) =>
      (match ArgsMeaning(args) case None => None case Some(l) => Some(Callable(l, Primitive(Void))))
    case FunctionTo(args, ret) =>
      (match (ArgsMeaning(args), Meaning(ret)) case (Some(l), Some(h)) => Some(Callable(l, h)) case _ => None)
    case Bracket(e) => (match Meaning(e) case None => None case Some(h) => Some(Array(h)))
    case Either(_, _) =>
      (match AllMeanings(w) case None => None case Some(hs) => UnionHint(Alternatives(w), hs))
  }

  /** The meanings of the alternatives. */
  ghost function AllMeanings(w: Written): (r: Option<seq<Hint>>)
    ensures r.Some? ==> |r.value| == |Alternatives(w)|
    decreases w, if w.Either? then 0 else 2
  {
    if w.Either? then
      match (Meaning(w.e), AllMeanings(w.rest)) case (Some(h), Some(hs)) => Some([h] + hs) case _ => None
    else match Meaning(w) case None => None case Some(h) => Some([h])
  }

  ghost function ListMeaning(l: List): Option<Hints>
    decreases l, 0
  {
    match l
    case Last(e) => (match Meaning(e) case None => None case Some(h) => Some(Cons(h, Nil)))
    case More(e, rest) =>
      match (Meaning(e), ListMeaning(rest)) case (Some(h), Some(hs)) => Some(Cons(h, hs)) case _ => None
  }

  ghost function ArgsMeaning(a: Args): Option<Hints>
    decreases a, 0
  {
    match a
    case NoArgs => Some(Nil)
    case Arg(e, _, _, rest) =>
      match (Meaning(e), ArgsMeaning(rest)) case (Some(h), Some(hs)) => Some(Cons(h, hs)) case _ => None
  }

  /** A key with a question mark may be null. */
  ghost function KeyMeaning(mark: bool, e: Written): Option<Hint>
    decreases e, 2
  {
    match Meaning(e) case None => None case Some(h) => Some(if mark then With(h, true, false) else h)
  }

  ghost function KeysMeaning(f: Keys): Option<Fields>
    decreases f, 0
  {
    match f
    case LastKey(key, mark, e) =>
      (match KeyMeaning(mark, e) case None => None case Some(h) => Some(Field(Spelling(key), h, NoField)))
    case MoreKeys(key, mark, e, rest) =>
      match (KeyMeaning(mark, e), KeysMeaning(rest))
      case (Some(h), Some(l)) => Some(Field(Spelling(key), h, l))
      case _ => None
  }

  /** How the words are spelled that may be keys. */
  const SPELLINGS: seq<(string, Tok)> := [
    ("int", TInt), ("bool", TBool), ("boolean", TBoolean), ("float", TFloat), ("double", TDouble), ("string", TString),
    ("false", TFalse), ("true", TTrue), ("null", TNull), ("mixed", TMixed), ("void", TVoid), ("tuple", TTuple),
    ("shape", TShape), ("callable", TCallable), ("array", TArray), ("object", TObject), ("static", TStatic)]

  ghost function Spelling(k: Tok): string {
    if k.FuncName? then k.name
    else if exists i :: 0 <= i < |SPELLINGS| && SPELLINGS[i].1 == k then
      var i :| 0 <= i < |SPELLINGS| && SPELLINGS[i].1 == k; SPELLINGS[i].0
    else ""
  }

  // ----- the parser's own functions say the same -----

  lemma {:induction false} SpellingIs(k: Tok)
    ensures Spelling(k) == TypeHints.Text(k)
  {
    forall i | 0 <= i < |SPELLINGS| ensures SPELLINGS[i].0 == TypeHints.Text(SPELLINGS[i].1) {
      SpellingAt(i);
    }
    if !k.FuncName? && TypeHints.Text(k) != "" {
      var i := SpellingFound(k);
    }
    hide SPELLINGS, TypeHints.Text;
    SpellingOfName(k);
  }

  lemma SpellingOfName(k: Tok)
    ensures k.FuncName? ==> TypeHints.Text(k) == k.name
  {
  }

  lemma SpellingAt(i: nat)
    requires i < |SPELLINGS|
    ensures SPELLINGS[i].0 == TypeHints.Text(SPELLINGS[i].1)
  {
  }

  lemma SpellingFound(k: Tok) returns (i: nat)
    requires !k.FuncName? && TypeHints.Text(k) != ""
    ensures i < |SPELLINGS| && SPELLINGS[i].1 == k
  {
    if k == TInt {
      i := 0;
    } else if k == TBool {
      i := 1;
    } else if k == TBoolean {
      i := 2;
    } else if k == TFloat {
      i := 3;
    } else if k == TDouble {
      i := 4;
    } else if k == TString {
      i := 5;
    } else if k == TFalse {
      i := 6;
    } else if k == TTrue {
      i := 7;
    } else if k == TNull {
      i := 8;
    } else if k == TMixed {
      i := 9;
    } else if k == TVoid {
      i := 10;
    } else if k == TTuple {
      i := 11;
    } else if k == TShape {
      i := 12;
    } else if k == TCallable {
      i := 13;
    } else if k == TArray {
      i := 14;
    } else if k == TObject {
      i := 15;
    } else {
      i := 16;
    }
  }

  lemma {:induction false} WithIs(h: Hint, n: bool, f: bool)
    ensures With(h, n, f) == MakeOptional(h, n, f)
    decreases h
  {
    if h.Optional? {
      WithIs(h.inner, h.orNull || n, h.orFalse || f);
    }
  }

  /** The items the parser makes of the alternatives. */
  ghost predicate ItemsOf(items: seq<Item>, ws: seq<Written>, hs: seq<Hint>) {
    && |items| == |ws| == |hs|
    && forall i :: 0 <= i < |ws| ==> items[i].hint == hs[i] && items[i].raw == (ws[i] == Word(TBool))
  }

  lemma {:induction false} NoBareBoolIs(items: seq<Item>)
    ensures NoBareBool(items) <==> forall n :: 2 <= n <= |items| ==> !BareBool(items[..n])
  {
    hide BareBool;
    if |items| >= 2 {
      var before := items[..|items| - 1];
      NoBareBoolIs(before);
      assert items[..|items|] == items;
      assert forall n :: 2 <= n <= |before| ==> before[..n] == items[..n];
    }
  }

  lemma {:induction false} RefusedIs(items: seq<Item>, ws: seq<Written>, hs: seq<Hint>)
    requires ItemsOf(items, ws, hs) && |items| >= 2
    ensures NoBareBool(items) <==> !Refused(ws, hs)
  {
    NoBareBoolIs(items);
    hide NoBareBool;
    if Refused(ws, hs) {
      var b :| 0 <= b < |ws| && ws[b] == Word(TBool)
            && forall j :: 0 <= j < |hs| && (j <= b || j <= 1) ==> hs[j] != NULL;
      var n := if b <= 1 then 2 else b + 1;
      assert items[..n][b].raw && BareBool(items[..n]);
    }
    if n :| 2 <= n <= |items| && BareBool(items[..n]) {
      var b :| 0 <= b < n && items[..n][b].raw;
      forall j | 0 <= j < |hs| && (j <= b || j <= 1) ensures hs[j] != NULL {
        assert items[..n][j].hint == hs[j];
      }
    }
  }

  lemma {:induction false} ListedIs(items: seq<Item>, hs: seq<Hint>)
    requires |items| == |hs| && forall i :: 0 <= i < |hs| ==> items[i].hint == hs[i]
    ensures ToHints(items) == Listed(hs)
  {
    if items != [] {
      ListedIs(items[1..], hs[1..]);
    }
  }

  lemma {:induction false} PayloadAt(items: seq<Item>) returns (k: nat)
    requires Payload(items).Some?
    ensures k < |items| && items[k].hint == Payload(items).value && items[k].hint != NULL && items[k].hint != FALSE
  {
    if items[0].hint != NULL && items[0].hint != FALSE {
      k := 0;
    } else {
      k := PayloadAt(items[1..]);
      k := k + 1;
    }
  }

  lemma {:induction false} PayloadFound(items: seq<Item>, k: nat)
    requires k < |items| && items[k].hint != NULL && items[k].hint != FALSE
    ensures Payload(items).Some?
  {
    if items[0].hint == NULL || items[0].hint == FALSE {
      PayloadFound(items[1..], k - 1);
    }
  }

  lemma {:induction false} OnlyTypeIs(items: seq<Item>, hs: seq<Hint>)
    requires |items| == |hs| >= 2 && forall i :: 0 <= i < |hs| ==> items[i].hint == hs[i]
    ensures (exists k: nat :: OnlyType(hs, k)) <==>
            |items| - Count(HasFalse(items)) - Count(HasNull(items)) == 1 && Payload(items).Some?
    ensures forall k: nat :: OnlyType(hs, k) ==> Payload(items) == Some(hs[k])
  {
    hide Payload;
    assert HasFalse(items) <==> FALSE in hs;
    assert HasNull(items) <==> NULL in hs;
    forall k: nat | OnlyType(hs, k)
      ensures Payload(items) == Some(hs[k]) && |items| - Count(HasFalse(items)) - Count(HasNull(items)) == 1
    {
      PayloadFound(items, k);
      var j := PayloadAt(items);
      OnlyCounts(hs, k);
    }
    if |items| - Count(HasFalse(items)) - Count(HasNull(items)) == 1 && Payload(items).Some? {
      var k := PayloadAt(items);
      CountsOnly(hs, k);
    }
  }

  lemma OthersDiffer(hs: seq<Hint>, k: nat, a: nat, b: nat)
    requires OnlyType(hs, k) && a < b < |hs| && a != k && b != k
    ensures (hs[a] == NULL && hs[b] == FALSE) || (hs[a] == FALSE && hs[b] == NULL)
  {
  }

  lemma {:induction false} AtMostThree(hs: seq<Hint>, k: nat)
    requires OnlyType(hs, k)
    ensures |hs| <= 3
  {
    hide OnlyType;
    if |hs| > 3 {
      var a := if k == 0 then 1 else 0;
      var b := if k <= 1 then 2 else 1;
      var c := if k <= 2 then 3 else 2;
      OthersDiffer(hs, k, a, b);
      OthersDiffer(hs, k, b, c);
      OthersDiffer(hs, k, a, c);
    }
  }

  lemma {:induction false} OnlyCounts(hs: seq<Hint>, k: nat)
    requires |hs| >= 2 && OnlyType(hs, k)
    ensures |hs| == 1 + Count(FALSE in hs) + Count(NULL in hs)
  {
    var a := if k == 0 then 1 else 0;
    assert hs[a] == NULL || hs[a] == FALSE;
    if |hs| > 2 {
      var b := if k <= 1 then 2 else 1;
      assert hs[b] != hs[a];
      AtMostThree(hs, k);
    }
  }

  lemma {:induction false} CountsOnly(hs: seq<Hint>, k: nat)
    requires k < |hs| && |hs| >= 2 && hs[k] != NULL && hs[k] != FALSE
    requires |hs| == 1 + Count(FALSE in hs) + Count(NULL in hs)
    ensures OnlyType(hs, k)
  {
    if NULL in hs {
      var n :| 0 <= n < |hs| && hs[n] == NULL;
    }
    if FALSE in hs {
      var f :| 0 <= f < |hs| && hs[f] == FALSE;
    }
  }

  lemma {:induction false} CombineIs(items: seq<Item>, ws: seq<Written>, hs: seq<Hint>)
    requires ItemsOf(items, ws, hs) && |items| >= 2
    ensures Combine(items) == UnionHint(ws, hs)
  {
    RefusedIs(items, ws, hs);
    OnlyTypeIs(items, hs);
    ListedIs(items, hs);
    assert HasFalse(items) <==> FALSE in hs;
    assert HasNull(items) <==> NULL in hs;
    hide Refused, NoBareBool, OnlyType, Payload, Listed, ToHints, HasNull, HasFalse, With, MakeOptional;
    if Payload(items).Some? {
      WithIs(Payload(items).value, NULL in hs, FALSE in hs);
    }
  }
}

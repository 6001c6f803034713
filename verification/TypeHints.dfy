/** Type hints of phpdoc: the printer, the recursive-descent parser on tokens, and what the parser
    makes of a printed hint. Class names are taken as already resolved. */
module TypeHints {
  import opened Wrappers

  datatype Prim = Any | Null | False | Bool | Int | Float | String | Mixed | Regexp | Void

  datatype Wrapper = Future | FutureQueue | NotNull | NotFalse

  datatype Hint =
    | Primitive(ptype: Prim)
    | Object
    | Instance(name: string)
    | Untyped
    | Wrapped(wrapper: Wrapper, inner: Hint)
    | Array(inner: Hint)
    | Tuple(items: Hints)
    | Shape(fields: Fields, isVararg: bool)
    | Callable(args: Hints, ret: Hint)
    | Optional(inner: Hint, orNull: bool, orFalse: bool)
    | Pipe(items: Hints)

  datatype Hints = Nil | Cons(head: Hint, tail: Hints)

  datatype Fields = NoField | Field(key: string, hint: Hint, more: Fields)

  /** TypeHintOptional::create: an optional of an optional is one optional. */
  function MakeOptional(inner: Hint, orNull: bool, orFalse: bool): (r: Hint)
    ensures r.Optional? && (orNull ==> r.orNull) && (orFalse ==> r.orFalse)
    ensures !inner.Optional? ==> r == Optional(inner, orNull, orFalse)
    ensures !r.inner.Optional?
    decreases inner
  {
    match inner
    case Optional(i, n, f) => MakeOptional(i, n || orNull, f || orFalse)
    case _ => Optional(inner, orNull, orFalse)
  }

  // ----- tokens -----

  datatype Tok =
    | End | OpPar | ClPar | Lt | Gt | OpBrk | ClBrk | Comma | Colon | Question | Or | Varg | VarName
    | TInt | TBool | TBoolean | TFloat | TDouble | TString | TFalse | TTrue | TNull | TMixed | TVoid
    | TTuple | TShape | TCallable | TArray | TObject | TStatic
    | FuncName(name: string)

  function Tk(t: seq<Tok>, i: nat): Tok {
    if i < |t| then t[i] else End
  }

  /** The text of a token, as far as keys of shapes can be spelled with it. */
  function Text(k: Tok): string {
    match k
    case FuncName(s) => s
    case TInt => "int" case TBool => "bool" case TBoolean => "boolean" case TFloat => "float"
    case TDouble => "double" case TString => "string" case TFalse => "false" case TTrue => "true"
    case TNull => "null" case TMixed => "mixed" case TVoid => "void" case TTuple => "tuple"
    case TShape => "shape" case TCallable => "callable" case TArray => "array" case TObject => "object"
    case TStatic => "static"
    case _ => ""
  }

  // ----- the printer -----

  function Spelled(p: Prim): Tok {
    match p
    case Any => FuncName("any") case Null => FuncName("Null") case False => FuncName("False")
    case Bool => TBool case Int => TInt case Float => TFloat case String => TString case Mixed => TMixed
    case Regexp => FuncName("regexp") case Void => TVoid
  }

  function WrapperName(w: Wrapper): string {
    match w
    case Future => "future" case FutureQueue => "future_queue"
    case NotNull => "not_null" case NotFalse => "not_false"
  }

  predicate Embraced(h: Hint) {
    h.Optional? || h.Callable? || h.Untyped? || h.Pipe?
  }

  /** as_human_readable, as tokens. */
  function Print(h: Hint): seq<Tok>
    decreases h, 1
  {
    match h
    case Primitive(p) => [Spelled(p)]
    case Object => [TObject]
    case Instance(name) => [FuncName(name)]
    case Untyped => [TCallable]
    case Wrapped(w, i) => [FuncName(WrapperName(w)), Lt] + Print(i) + [Gt]
    case Array(i) => PrintElement(i) + [OpBrk, ClBrk]
    case Tuple(items) => [TTuple, OpPar] + PrintList(items) + [ClPar]
    case Shape(fields, v) => [TShape, OpPar] + PrintFields(fields) + Closing(v)
    case Callable(args, ret) => [TCallable, OpPar] + PrintList(args) + [ClPar, Colon] + Print(ret)
    case Optional(i, n, f) => if n && !f then [Question] + Print(i) else Print(i) + Suffix(n, f)
    case Pipe(items) => PrintPipe(items)
  }

  function Closing(isVararg: bool): seq<Tok> {
    if isVararg then [Comma, Varg, ClPar] else [ClPar]
  }

  /** The element type of an array, with the parentheses it needs. */
  function PrintElement(i: Hint): seq<Tok>
    decreases i, 2
  {
    if Embraced(i) then [OpPar] + Print(i) + [ClPar] else Print(i)
  }

  function Suffix(orNull: bool, orFalse: bool): seq<Tok> {
    (if orNull then [Or, TNull] else []) + (if orFalse then [Or, TFalse] else [])
  }

  function PrintList(items: Hints): seq<Tok>
    decreases items, 0
  {
    match items
    case Nil => []
    case Cons(h, Nil) => Print(h)
    case Cons(h, more) => Print(h) + [Comma] + PrintList(more)
  }

  function PrintPipe(items: Hints): seq<Tok>
    decreases items, 0
  {
    match items
    case Nil => []
    case Cons(h, Nil) => Print(h)
    case Cons(h, more) => Print(h) + [Or] + PrintPipe(more)
  }

  function PrintFields(fields: Fields): seq<Tok>
    decreases fields, 0
  {
    match fields
    case NoField => []
    case Field(key, h, NoField) => [FuncName(key), Colon] + Print(h)
    case Field(key, h, more) => [FuncName(key), Colon] + Print(h) + [Comma] + PrintFields(more)
  }

  // ----- the parser -----

  /** An alternative of a union; raw tells the spelling "bool" from other spellings of that type. */
  datatype Item = Item(hint: Hint, raw: bool)

  datatype Parsed<T> = Err | Ok(value: T, next: nat)

  const NULL := Primitive(Null)
  const FALSE := Primitive(False)

  predicate HasNull(items: seq<Item>) {
    exists i :: 0 <= i < |items| && items[i].hint == NULL
  }

  predicate HasFalse(items: seq<Item>) {
    exists i :: 0 <= i < |items| && items[i].hint == FALSE
  }

  /** The guard against a bare bool in a union, after the items read so far. */
  predicate BareBool(items: seq<Item>) {
    (exists i :: 0 <= i < |items| && items[i].raw) && !HasNull(items)
  }

  /** The guard is looked at after the second and every later alternative. */
  predicate NoBareBool(items: seq<Item>) {
    |items| < 2 || (!BareBool(items) && NoBareBool(items[..|items| - 1]))
  }

  function ToHints(items: seq<Item>): Hints {
    if items == [] then Nil else Cons(items[0].hint, ToHints(items[1..]))
  }

  /** The first alternative that is neither null nor false. */
  function Payload(items: seq<Item>): Option<Hint> {
    if items == [] then None
    else if items[0].hint != NULL && items[0].hint != FALSE then Some(items[0].hint)
    else Payload(items[1..])
  }

  function Count(b: bool): nat { if b then 1 else 0 }

  /** The type of a union with at least two alternatives. */
  function Simplified(items: seq<Item>): Hint {
    if |items| - Count(HasFalse(items)) - Count(HasNull(items)) == 1 && Payload(items).Some?
    then MakeOptional(Payload(items).value, HasNull(items), HasFalse(items))
    else Pipe(ToHints(items))
  }

  function Combine(items: seq<Item>): Option<Hint>
    requires items != []
  {
    if |items| == 1 then Some(items[0].hint)
    else if !NoBareBool(items) then None
    else Some(Simplified(items))
  }

  predicate Closes(k: Tok) {
    k == Gt || k == ClPar
  }

  predicate Opens(k: Tok) {
    k == Lt || k == OpPar
  }

  /** parse_type_expression: the alternatives of a union, put together. */
  function ParseExpression(t: seq<Tok>, pos: nat): (r: Parsed<Hint>)
    ensures r.Ok? ==> pos < r.next <= |t|
    decreases |t| - pos, 4
  {
    match ParseAlternatives(t, pos)
    case Err => Err
    case Ok(items, p) => match Combine(items) case None => Err case Some(h) => Ok(h, p)
  }

  function ParseAlternatives(t: seq<Tok>, pos: nat): (r: Parsed<seq<Item>>)
    ensures r.Ok? ==> pos < r.next <= |t| && r.value != [] && Tk(t, r.next) != Or && !Bracketed(t, r.next)
    decreases |t| - pos, 3
  {
    match ParseArray(t, pos)
    case Err => Err
    case Ok(h, p) =>
      match ParseMore(t, p)
      case Err => Err
      case Ok(more, q) => Ok([Item(h, h == Primitive(Bool) && t[p - 1] == TBool)] + more, q)
  }

  /** The further alternatives at a place where one has just ended. */
  function ParseMore(t: seq<Tok>, pos: nat): (r: Parsed<seq<Item>>)
    ensures r.Ok? && pos <= |t| ==> pos <= r.next <= |t|
    ensures r.Ok? && !Bracketed(t, pos) ==> Tk(t, r.next) != Or && !Bracketed(t, r.next)
    decreases |t| - pos, 3
  {
    if Tk(t, pos) == Or then ParseAlternatives(t, pos + 1) else Ok([], pos)
  }

  /** parse_type_array, without the references to fields and methods. */
  function ParseArray(t: seq<Tok>, pos: nat): (r: Parsed<Hint>)
    ensures r.Ok? ==> pos < r.next <= |t| && !Bracketed(t, r.next)
    decreases |t| - pos, 2
  {
    match ParseSimple(t, pos)
    case Err => Err
    case Ok(h, p) => Brackets(t, p, h)
  }

  predicate Bracketed(t: seq<Tok>, pos: nat) {
    Tk(t, pos) == OpBrk && Tk(t, pos + 1) == ClBrk
  }

  function Brackets(t: seq<Tok>, pos: nat, h: Hint): (r: Parsed<Hint>)
    ensures r.Ok? && (pos <= |t| ==> pos <= r.next <= |t|) && !Bracketed(t, r.next)
    decreases |t| - pos
  {
    if Bracketed(t, pos) then Brackets(t, pos + 2, Array(h)) else Ok(h, pos)
  }

  function ParseSimple(t: seq<Tok>, pos: nat): (r: Parsed<Hint>)
    ensures r.Ok? ==> pos < r.next <= |t|
    decreases |t| - pos, 1
  {
    match Tk(t, pos)
    case OpPar =>
      (match ParseExpression(t, pos + 1)
       case Err => Err
       case Ok(h, p) => if Tk(t, p) == ClPar then Ok(h, p + 1) else Err)
    case TInt => Ok(Primitive(Int), pos + 1)
    case TBool | TBoolean | TTrue => Ok(Primitive(Bool), pos + 1)
    case TFloat | TDouble => Ok(Primitive(Float), pos + 1)
    case TString => Ok(Primitive(String), pos + 1)
    case TFalse => Ok(FALSE, pos + 1)
    case TNull => Ok(NULL, pos + 1)
    case TMixed => Ok(Primitive(Mixed), pos + 1)
    case TVoid => Ok(Primitive(Void), pos + 1)
    case TTuple => ParseTuple(t, pos + 1)
    case TShape => ParseShape(t, pos + 1)
    case TCallable => if Tk(t, pos + 1) == OpPar then ParseCallable(t, pos + 1) else Ok(Untyped, pos + 1)
    case TArray => if Opens(Tk(t, pos + 1)) then ParseArrayOf(t, pos + 1) else Ok(Array(Primitive(Any)), pos + 1)
    case Question =>
      (match ParseExpression(t, pos + 1)
       case Err => Err
       case Ok(h, p) => Ok(MakeOptional(h, true, false), p))
    case TObject => Ok(Object, pos + 1)
    case TStatic => Ok(Instance("static"), pos + 1)
    case FuncName(s) => ParseNamed(t, pos, s)
    case _ => Err
  }

  /** Names that begin types of builtin functions and of the foreign function interface, which are not
      modelled, or that only builtin functions may use. */
  predicate Foreign(s: string) {
    s in ["ffi_cdata", "ffi_scope", "instance", "_tmp_string"]
  }

  /** A type that begins with a name. */
  function ParseNamed(t: seq<Tok>, pos: nat, s: string): (r: Parsed<Hint>)
    requires pos < |t|
    ensures r.Ok? ==> pos < r.next <= |t|
    decreases |t| - pos, 0
  {
    if s == "\\tuple" then ParseTuple(t, pos + 1)
    else if s == "\\shape" then ParseShape(t, pos + 1)
    else if s == "future" || s == "\\future" then ParseWrapped(t, pos + 1, Future)
    else if s == "future_queue" then ParseWrapped(t, pos + 1, FutureQueue)
    else if s == "any" then Ok(Primitive(Any), pos + 1)
    else if s == "regexp" then Ok(Primitive(Regexp), pos + 1)
    else if s == "force" then ParseNestedOne(t, pos + 1)
    else if s == "not_null" then ParseWrapped(t, pos + 1, NotNull)
    else if s == "not_false" then ParseWrapped(t, pos + 1, NotFalse)
    else if Foreign(s) then Err
    else Ok(Instance(s), pos + 1)
  }

  function ParseTuple(t: seq<Tok>, pos: nat): (r: Parsed<Hint>)
    ensures r.Ok? ==> pos < r.next <= |t|
    decreases |t| - pos, 6
  {
    match ParseNested(t, pos) case Err => Err case Ok(items, p) => Ok(Tuple(items), p)
  }

  /** The key type of an array is dropped. */
  function ParseArrayOf(t: seq<Tok>, pos: nat): (r: Parsed<Hint>)
    ensures r.Ok? ==> pos < r.next <= |t|
    decreases |t| - pos, 6
  {
    match ParseNested(t, pos)
    case Ok(Cons(h, Nil), p) => Ok(Array(h), p)
    case Ok(Cons(_, Cons(h, Nil)), p) => Ok(Array(h), p)
    case _ => Err
  }

  function ParseWrapped(t: seq<Tok>, pos: nat, w: Wrapper): (r: Parsed<Hint>)
    ensures r.Ok? ==> pos < r.next <= |t|
    decreases |t| - pos, 6
  {
    match ParseNestedOne(t, pos) case Err => Err case Ok(h, p) => Ok(Wrapped(w, h), p)
  }

  function ParseNestedOne(t: seq<Tok>, pos: nat): (r: Parsed<Hint>)
    ensures r.Ok? ==> pos < r.next <= |t|
    decreases |t| - pos, 5
  {
    if !Opens(Tk(t, pos)) then Err
    else
      match ParseExpression(t, pos + 1)
      case Err => Err
      case Ok(h, p) => if Closes(Tk(t, p)) then Ok(h, p + 1) else Err
  }

  function ParseNested(t: seq<Tok>, pos: nat): (r: Parsed<Hints>)
    ensures r.Ok? ==> pos < r.next <= |t|
    decreases |t| - pos, 5
  {
    if Opens(Tk(t, pos)) then ParseItems(t, pos + 1) else Err
  }

  function ParseItems(t: seq<Tok>, pos: nat): (r: Parsed<Hints>)
    ensures r.Ok? ==> pos < r.next <= |t|
    decreases |t| - pos, 5
  {
    match ParseExpression(t, pos)
    case Err => Err
    case Ok(h, p) =>
      if Closes(Tk(t, p)) then Ok(Cons(h, Nil), p + 1)
      else if Tk(t, p) == Comma then
        match ParseItems(t, p + 1) case Err => Err case Ok(more, q) => Ok(Cons(h, more), q)
      else Err
  }

  function ParseCallable(t: seq<Tok>, pos: nat): (r: Parsed<Hint>)
    ensures r.Ok? ==> pos < r.next <= |t|
    decreases |t| - pos, 5
  {
    if Tk(t, pos) != OpPar then Err
    else
      match ParseArguments(t, pos + 1)
      case Err => Err
      case Ok(args, p) =>
        if Tk(t, p) != Colon then Ok(Callable(args, Primitive(Void)), p)
        else match ParseExpression(t, p + 1) case Err => Err case Ok(ret, q) => Ok(Callable(args, ret), q)
  }

  /** The name of a parameter is like a comment. */
  function SkipName(t: seq<Tok>, pos: nat): nat {
    if Tk(t, pos) == VarName then pos + 1 else pos
  }

  function ParseArguments(t: seq<Tok>, pos: nat): (r: Parsed<Hints>)
    ensures r.Ok? ==> pos < r.next <= |t|
    decreases |t| - pos, 5
  {
    if Tk(t, pos) == ClPar then Ok(Nil, pos + 1)
    else
      match ParseExpression(t, pos)
      case Err => Err
      case Ok(h, p) =>
        var q := SkipName(t, p);
        if Tk(t, q) != Comma && Tk(t, q) != ClPar then Err
        else
          match ParseArguments(t, if Tk(t, q) == Comma then q + 1 else q)
          case Err => Err
          case Ok(more, e) => Ok(Cons(h, more), e)
  }

  function ParseShape(t: seq<Tok>, pos: nat): (r: Parsed<Hint>)
    ensures r.Ok? ==> pos < r.next <= |t|
    decreases |t| - pos, 5
  {
    if !Opens(Tk(t, pos)) then Err
    else
      match ParseFields(t, pos + 1)
      case Err => Err
      case Ok((fields, v), p) => Ok(Shape(fields, v), p)
  }

  /** One field: key, an optional question mark, a colon, the type. */
  function ParseField(t: seq<Tok>, pos: nat): (r: Parsed<(string, Hint)>)
    ensures r.Ok? ==> pos < r.next <= |t|
    decreases |t| - pos, 0
  {
    var q := if Tk(t, pos + 1) == Question then pos + 2 else pos + 1;
    if Tk(t, q) != Colon then Err
    else
      match ParseExpression(t, q + 1)
      case Err => Err
      case Ok(h, p) => Ok((Text(Tk(t, pos)), if q == pos + 2 then MakeOptional(h, true, false) else h), p)
  }

  function ParseFields(t: seq<Tok>, pos: nat): (r: Parsed<(Fields, bool)>)
    ensures r.Ok? ==> pos < r.next <= |t|
    decreases |t| - pos, 5
  {
    match ParseField(t, pos)
    case Err => Err
    case Ok((key, h), p) =>
      if Closes(Tk(t, p)) then Ok((Field(key, h, NoField), false), p + 1)
      else if Tk(t, p) != Comma then Err
      else if Tk(t, p + 1) == Varg then
        if Closes(Tk(t, p + 2)) then Ok((Field(key, h, NoField), true), p + 3) else Err
      else
        match ParseFields(t, p + 1)
        case Err => Err
        case Ok((more, v), e) => Ok((Field(key, h, more), v), e)
  }
}

/** The expression parser of the compiler: precedence climbing over the operator table. */
module ExprParser {
  import opened Wrappers

  /** Operator tokens. */
  datatype Sym =
    | LogOrLet | LogXorLet | LogAndLet
    | DoubleArrow | Assign | SetAdd | SetSub | SetMul | SetDiv | SetMod | SetPow | SetAnd | SetOr | SetXor
    | SetDot | SetShr | SetShl | SetNullCoalesce
    | Question | NullCoalesce | LogOr | LogAnd | Or | Xor | And
    | Eq2 | Eq3 | Spaceship | Neq2 | NeqLg | Neq3
    | Lt | Le | Gt | Ge
    | Shr | Shl | Plus | Minus | Dot | Times | Divide | Mod
    | Not | LogNot | Instanceof
    | ConvInt | ConvFloat | ConvString | ConvArray | ConvObject | ConvBool | At
    | Pow | Inc | Dec

  datatype Tok = TSym(sym: Sym) | TAtom(id: nat) | TNum(text: string) | TOpen | TClose | TColon

  /** The vertices the parser builds. */
  datatype Vertex =
    | VAtom(id: nat)
    | VNum(text: string)
    | VBinary(op: Sym, left: Vertex, right: Vertex)
    | VUnary(op: Sym, expr: Vertex)
    | VTernary(cond: Vertex, yes: Vertex, no: Vertex)
    | VShortTernary(cond: Vertex, no: Vertex)

  // ----- the operator table -----

  const BEGIN := 1
  const TERNARY := 5
  const END := 22

  /** The level of a token as a binary operator, 0 if it is none. */
  function BinaryLevel(s: Sym): (p: nat)
    ensures p < END - 1
  {
    match s
    case LogOrLet => 1
    case LogXorLet => 2
    case LogAndLet => 3
    case DoubleArrow | Assign | SetAdd | SetSub | SetMul | SetDiv | SetMod | SetPow | SetAnd | SetOr | SetXor => 4
    case SetDot | SetShr | SetShl | SetNullCoalesce => 4
    case Question => 5
    case NullCoalesce => 6
    case LogOr => 7
    case LogAnd => 8
    case Or => 9
    case Xor => 10
    case And => 11
    case Eq2 | Eq3 | Spaceship => 12
    case Lt | Le => 13
    case Shr | Shl => 14
    case Plus | Minus | Dot => 15
    case Times | Divide | Mod => 16
    case Instanceof => 18
    case Pow => 20
    case _ => 0
  }

  /** The level of a token as a prefix operator, 0 if it is none. */
  function UnaryLevel(s: Sym): (p: nat)
    ensures p < END && (p == 0 || 17 <= p)
  {
    match s
    case Not | LogNot | Minus | Plus | And => 17
    case ConvInt | ConvFloat | ConvString | ConvArray | ConvObject | ConvBool | At => 19
    case Inc | Dec => 21
    case _ => 0
  }

  /** The fixity of a level: assignments, ??, and ** associate to the right. */
  predicate LeftToRight(level: nat) {
    level != 4 && level != 5 && level != 6 && level != 20
  }

  /** The level at which the right operand is read. */
  function RightLevel(level: nat): nat {
    if LeftToRight(level) then level + 1 else level
  }

  /** transform_compare_operation_token. */
  function Transform(s: Sym): Sym {
    match s
    case Gt => Lt
    case Ge => Le
    case NeqLg | Neq2 => Eq2
    case Neq3 => Eq3
    case _ => s
  }

  /** The level at which the parser's loop picks a token up. */
  function Level(s: Sym): (p: nat)
    ensures p < END - 1 && (p == TERNARY <==> s == Question)
  {
    BinaryLevel(Transform(s))
  }

  // ----- building vertices -----

  function ToBool(v: Vertex): Vertex { VUnary(ConvBool, v) }
  function ToInt(v: Vertex): Vertex { VUnary(ConvInt, v) }

  function BuildUnary(s: Sym, v: Vertex): Vertex {
    var e := if s == LogNot then ToBool(v) else if s == Not then ToInt(v) else v;
    if s in {Minus, Plus} && e.VNum? then
      if s == Plus then e
      else VNum(if |e.text| > 0 && e.text[0] == '-' then e.text[1..] else "-" + e.text)
    else VUnary(s, e)
  }

  predicate Logical(op: Sym) {
    op in {LogOr, LogAnd, LogOrLet, LogAndLet, LogXorLet}
  }

  function ConvLeft(op: Sym, v: Vertex): Vertex {
    if Logical(op) then ToBool(v) else if op in {Or, And, Xor} then ToInt(v) else v
  }

  function ConvRight(op: Sym, v: Vertex): Vertex {
    if Logical(op) then ToBool(v)
    else if op in {Or, And, Xor, SetOr, SetAnd, SetXor, SetShl, SetShr} then ToInt(v) else v
  }

  function BuildBinary(s: Sym, l: Vertex, r: Vertex): Vertex {
    var op := Transform(s);
    var left, right := ConvLeft(op, l), ConvRight(op, r);
    var v := if s in {Gt, Ge} then VBinary(op, right, left) else VBinary(op, left, right);
    if s in {Neq2, NeqLg, Neq3} then VUnary(LogNot, v) else v
  }

  function BuildTernary(c: Vertex, yes: Option<Vertex>, no: Vertex): Vertex {
    match yes
    case Some(y) => VTernary(ToBool(c), y, no)
    case None => VShortTernary(c, no)
  }

  // ----- what the parser computes -----

  /** A vertex, or none, and the tokens not consumed. */
  datatype Parsed = Parsed(v: Option<Vertex>, rest: seq<Tok>)

  function Parse(p: nat, tillTernary: bool, s: seq<Tok>): (r: Parsed)
    requires p >= BEGIN
    ensures |r.rest| <= |s|
    decreases |s|, 1, if p < END then END - p else 0
  {
    if p >= END then Top(s)
    else if s != [] && s[0].TSym? && 0 < UnaryLevel(s[0].sym) <= p then
      var operand := Parse(p, tillTernary, s[1..]);
      if operand.v.None? then operand
      else Parsed(Some(BuildUnary(s[0].sym, operand.v.value)), operand.rest)
    else
      var left := Parse(p + 1, tillTernary, s);
      if left.v.None? || (p == TERNARY && tillTernary) then left
      else Loop(p, tillTernary, left.v.value, left.rest)
  }

  /** The loop over the operators of one level. */
  function Loop(p: nat, tillTernary: bool, left: Vertex, s: seq<Tok>): (r: Parsed)
    requires p >= BEGIN
    ensures |r.rest| <= |s|
    decreases |s|, 0, 0
  {
    if s == [] || !s[0].TSym? || Level(s[0].sym) != p then Parsed(Some(left), s)
    else if p == TERNARY then
      var right := Parse(BEGIN, false, s[1..]);
      if right.rest == [] || right.rest[0] != TColon then Parsed(None, right.rest)
      else
        var third := Parse(BEGIN, true, right.rest[1..]);
        if third.v.None? then Parsed(None, third.rest)
        else Loop(p, tillTernary, BuildTernary(left, right.v, third.v.value), third.rest)
    else
      var right := Parse(RightLevel(p), tillTernary && p >= TERNARY, s[1..]);
      if right.v.None? then Parsed(None, right.rest)
      else
        var v := BuildBinary(s[0].sym, left, right.v.value);
        if LeftToRight(p) then Loop(p, tillTernary, v, right.rest) else Parsed(Some(v), right.rest)
  }

  /** Operands: atoms, numbers and parenthesised expressions. */
  function Top(s: seq<Tok>): (r: Parsed)
    ensures |r.rest| <= |s|
    decreases |s|, 0, 0
  {
    if s == [] then Parsed(None, s)
    else
      match s[0]
      case TAtom(id) => Parsed(Some(VAtom(id)), s[1..])
      case TNum(text) => Parsed(Some(VNum(text)), s[1..])
      case TOpen =>
        var inner := Parse(BEGIN, false, s[1..]);
        if inner.v.None? || inner.rest == [] || inner.rest[0] != TClose then Parsed(None, inner.rest)
        else Parsed(inner.v, inner.rest[1..])
      case _ => Parsed(None, s)
  }

  // One turn of the loop: it stops, takes a conditional, or takes an operator.

  lemma LoopStops(p: nat, tillTernary: bool, left: Vertex, s: seq<Tok>)
    requires p >= BEGIN && (s == [] || !s[0].TSym? || Level(s[0].sym) != p)
    ensures Loop(p, tillTernary, left, s) == Parsed(Some(left), s)
  {
    hide BuildBinary, BuildUnary, BuildTernary, Level, UnaryLevel, Parse;
  }

  lemma LoopTernary(tillTernary: bool, left: Vertex, s: seq<Tok>)
    requires s != [] && s[0].TSym? && Level(s[0].sym) == TERNARY
    ensures var right := Parse(BEGIN, false, s[1..]);
            Loop(TERNARY, tillTernary, left, s) ==
              if right.rest == [] || right.rest[0] != TColon then Parsed(None, right.rest)
              else
                var third := Parse(BEGIN, true, right.rest[1..]);
                if third.v.None? then Parsed(None, third.rest)
                else Loop(TERNARY, tillTernary, BuildTernary(left, right.v, third.v.value), third.rest)
  {
    hide BuildBinary, BuildUnary, BuildTernary, Level, UnaryLevel, Parse;
  }

  lemma LoopBinary(p: nat, tillTernary: bool, left: Vertex, s: seq<Tok>)
    requires p >= BEGIN && p != TERNARY && s != [] && s[0].TSym? && Level(s[0].sym) == p
    ensures var right := Parse(RightLevel(p), tillTernary && p >= TERNARY, s[1..]);
            Loop(p, tillTernary, left, s) ==
              if right.v.None? then Parsed(None, right.rest)
              else
                var v := BuildBinary(s[0].sym, left, right.v.value);
                if LeftToRight(p) then Loop(p, tillTernary, v, right.rest) else Parsed(Some(v), right.rest)
  {
    hide BuildBinary, BuildUnary, BuildTernary, Level, UnaryLevel, Parse;
  }

  // ----- the parser with its cursor -----

  class GenTree {
    const tokens: seq<Tok>
    var cur: nat

    constructor (tokens: seq<Tok>)
      ensures this.tokens == tokens && cur == 0
    {
      this.tokens := tokens;
      cur := 0;
    }

    /** What is left to read. */
    ghost function Rest(): seq<Tok>
      reads this
      requires cur <= |tokens|
    {
      tokens[cur..]
    }

    method GetBinaryOp(p: nat, tillTernary: bool) returns (v: Option<Vertex>)
      requires BEGIN <= p && cur <= |tokens|
      modifies this
      ensures cur <= |tokens| && Parsed(v, Rest()) == Parse(p, tillTernary, old(Rest()))
      decreases |tokens| - cur, 1, if p < END then END - p else 0
    {
      hide BuildBinary, BuildUnary, BuildTernary, Level, UnaryLevel;
      if p >= END {
        v := GetExprTop();
        return;
      }
      if cur != |tokens| && tokens[cur].TSym? && 0 < UnaryLevel(tokens[cur].sym) <= p {
        var s := tokens[cur].sym;
        cur := cur + 1;
        v := GetBinaryOp(p, tillTernary);
        if v.Some? {
          v := Some(BuildUnary(s, v.value));
        }
        return;
      }
      v := GetBinaryOp(p + 1, tillTernary);
      if v.None? || (p == TERNARY && tillTernary) {
        return;
      }
      v := Climb(p, tillTernary, v.value);
    }

    /** The while loop of get_binary_op. */
    method Climb(p: nat, tillTernary: bool, first: Vertex) returns (v: Option<Vertex>)
      requires BEGIN <= p < END && cur <= |tokens|
      modifies this
      ensures cur <= |tokens| && Parsed(v, Rest()) == Loop(p, tillTernary, first, old(Rest()))
      decreases |tokens| - cur, 0, 1
    {
      hide Level, Loop, Rest;
      var left := first;
      while cur != |tokens|
        invariant old(cur) <= cur <= |tokens|
        invariant Loop(p, tillTernary, left, Rest()) == Loop(p, tillTernary, first, old(Rest()))
        decreases |tokens| - cur
      {
        FirstToken();
        if !tokens[cur].TSym? || Level(tokens[cur].sym) != p {
          break;
        }
        if p == TERNARY {
          v := TakeConditional(tillTernary, left);
        } else {
          v := TakeOperator(p, tillTernary, left);
        }
        if v.None? || (p != TERNARY && !LeftToRight(p)) {
          return;
        }
        left := v.value;
      }
      FirstToken();
      LoopStops(p, tillTernary, left, Rest());
      v := Some(left);
    }

    lemma FirstToken()
      requires cur <= |tokens|
      ensures Rest() == [] <==> cur == |tokens|
      ensures cur < |tokens| ==> Rest()[0] == tokens[cur]
    {
    }

    /** A turn with a question mark. */
    method TakeConditional(tillTernary: bool, left: Vertex) returns (v: Option<Vertex>)
      requires cur < |tokens| && tokens[cur].TSym? && Level(tokens[cur].sym) == TERNARY
      modifies this
      ensures old(cur) < cur <= |tokens|
      ensures Loop(TERNARY, tillTernary, left, old(Rest())) ==
              if v.None? then Parsed(None, Rest()) else Loop(TERNARY, tillTernary, v.value, Rest())
      decreases |tokens| - cur, 0, 0
    {
      hide BuildTernary, Level, Parse, Loop;
      LoopTernary(tillTernary, left, Rest());
      cur := cur + 1;
      var right := GetBinaryOp(BEGIN, false);
      if cur == |tokens| || tokens[cur] != TColon {
        return None;
      }
      cur := cur + 1;
      var third := GetBinaryOp(BEGIN, true);
      if third.None? {
        return None;
      }
      v := Some(BuildTernary(left, right, third.value));
    }

    /** A turn with another operator. */
    method TakeOperator(p: nat, tillTernary: bool, left: Vertex) returns (v: Option<Vertex>)
      requires cur < |tokens| && tokens[cur].TSym? && Level(tokens[cur].sym) == p && p != TERNARY && BEGIN <= p
      modifies this
      ensures old(cur) < cur <= |tokens|
      ensures Loop(p, tillTernary, left, old(Rest())) ==
              if v.None? then Parsed(None, Rest())
              else if LeftToRight(p) then Loop(p, tillTernary, v.value, Rest()) else Parsed(v, Rest())
      decreases |tokens| - cur, 0, 0
    {
      hide BuildBinary, Level, Parse, Loop;
      LoopBinary(p, tillTernary, left, Rest());
      var s := tokens[cur].sym;
      cur := cur + 1;
      v := GetBinaryOp(RightLevel(p), tillTernary && p >= TERNARY);
      if v.Some? {
        v := Some(BuildBinary(s, left, v.value));
      }
    }

    method GetExprTop() returns (v: Option<Vertex>)
      requires cur <= |tokens|
      modifies this
      ensures cur <= |tokens| && Parsed(v, Rest()) == Top(old(Rest()))
      decreases |tokens| - cur, 0, 0
    {
      if cur == |tokens| {
        return None;
      }
      match tokens[cur] {
        case TAtom(id) =>
          cur := cur + 1;
          v := Some(VAtom(id));
        case TNum(text) =>
          cur := cur + 1;
          v := Some(VNum(text));
        case TOpen =>
          cur := cur + 1;
          v := GetBinaryOp(BEGIN, false);
          if v.None? || cur == |tokens| || tokens[cur] != TClose {
            return None;
          }
          cur := cur + 1;
        case _ =>
          v := None;
      }
    }
  }
}

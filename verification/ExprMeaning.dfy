/** Values of expressions and of the vertices the parser builds for them, over any type of values. */
module ExprMeaning {
  import opened ExprParser
  import opened ExprRoundTrip

  /** What number texts and operators mean, and which values count as true. */
  datatype Meaning<!V> = Meaning(num: string -> V, unary: (Sym, V) -> V, binary: (Sym, V, V) -> V, truthy: V -> bool)

  /** What the source expression means, with every operator as it is written. */
  function Value<V>(m: Meaning<V>, env: nat -> V, e: Expr): V {
    match e
    case Atom(id) => env(id)
    case Number(text) => m.num(text)
    case Un(s, x) => m.unary(s, Value(m, env, x))
    case Bin(s, x, y) => m.binary(s, Value(m, env, x), Value(m, env, y))
    case Cond(c, y, n) => if m.truthy(Value(m, env, c)) then Value(m, env, y) else Value(m, env, n)
    case Elvis(c, n) => if m.truthy(Value(m, env, c)) then Value(m, env, c) else Value(m, env, n)
    case Par(x) => Value(m, env, x)
  }

  /** What a vertex means. The short conditional keeps its condition's value, and tests it converted. */
  function VertexValue<V>(m: Meaning<V>, env: nat -> V, v: Vertex): V {
    match v
    case VAtom(id) => env(id)
    case VNum(text) => m.num(text)
    case VUnary(s, x) => m.unary(s, VertexValue(m, env, x))
    case VBinary(s, x, y) => m.binary(s, VertexValue(m, env, x), VertexValue(m, env, y))
    case VTernary(c, y, n) =>
      if m.truthy(VertexValue(m, env, c)) then VertexValue(m, env, y) else VertexValue(m, env, n)
    case VShortTernary(c, n) =>
      if m.truthy(m.unary(ConvBool, VertexValue(m, env, c))) then VertexValue(m, env, c) else VertexValue(m, env, n)
  }

  // ----- the laws -----

  predicate Bitwise(s: Sym) {
    s in {Or, And, Xor}
  }

  predicate BitwiseAssignment(s: Sym) {
    s in {SetOr, SetAnd, SetXor, SetShl, SetShr}
  }

  /** Logical operators and the negation see only the truth of their operands. */
  ghost predicate TruthLaws<V(!new)>(m: Meaning<V>) {
    && (forall v :: m.truthy(m.unary(ConvBool, v)) == m.truthy(v))
    && (forall v :: m.unary(LogNot, m.unary(ConvBool, v)) == m.unary(LogNot, v))
    && (forall s, l, r :: Logical(s) ==> m.binary(s, m.unary(ConvBool, l), m.unary(ConvBool, r)) == m.binary(s, l, r))
  }

  /** Bitwise operators see only the integers their operands convert to; bitwise assignments do so
      of their right operand. */
  ghost predicate IntegerLaws<V(!new)>(m: Meaning<V>) {
    && (forall v :: m.unary(Not, m.unary(ConvInt, v)) == m.unary(Not, v))
    && (forall s, l, r :: Bitwise(s) ==> m.binary(s, m.unary(ConvInt, l), m.unary(ConvInt, r)) == m.binary(s, l, r))
    && (forall s, l, r :: BitwiseAssignment(s) ==> m.binary(s, l, m.unary(ConvInt, r)) == m.binary(s, l, r))
  }

  /** > and >= are < and <= with the operands exchanged; the inequalities are negated equalities. */
  ghost predicate ComparisonLaws<V(!new)>(m: Meaning<V>) {
    && (forall l, r :: m.binary(Gt, l, r) == m.binary(Lt, r, l))
    && (forall l, r :: m.binary(Ge, l, r) == m.binary(Le, r, l))
    && (forall l, r :: m.binary(Neq2, l, r) == m.unary(LogNot, m.binary(Eq2, l, r)))
    && (forall l, r :: m.binary(NeqLg, l, r) == m.unary(LogNot, m.binary(Eq2, l, r)))
    && (forall l, r :: m.binary(Neq3, l, r) == m.unary(LogNot, m.binary(Eq3, l, r)))
  }

  /** A text of a number without its sign. */
  predicate Unsigned(t: string) {
    t != [] && t[0] != '-'
  }

  /** A leading minus sign negates a number, a second one undoes that, and a plus sign does nothing. */
  ghost predicate NumberLaws<V>(m: Meaning<V>) {
    forall t: string :: Unsigned(t) ==>
      && m.unary(Minus, m.num(t)) == m.num("-" + t) && m.unary(Minus, m.num("-" + t)) == m.num(t)
      && m.unary(Plus, m.num(t)) == m.num(t) && m.unary(Plus, m.num("-" + t)) == m.num("-" + t)
  }

  ghost predicate Laws<V(!new)>(m: Meaning<V>) {
    TruthLaws(m) && IntegerLaws(m) && ComparisonLaws(m) && NumberLaws(m)
  }

  /** The parser keeps the value of every expression, whatever the values of its atoms. */
  ghost predicate Keeps<V(!new)>(m: Meaning<V>) {
    forall env: nat -> V, e: Expr :: WellFormed(e) ==> Kept(m, env, e)
  }

  predicate Kept<V(==)>(m: Meaning<V>, env: nat -> V, e: Expr) {
    VertexValue(m, env, Denote(e)) == Value(m, env, e)
  }

  // ----- the laws are enough -----

  /** Number vertices are digits with at most one sign. */
  ghost predicate NumbersOk(v: Vertex) {
    v.VNum? ==> Unsigned(v.text) || (v.text != [] && v.text[0] == '-' && Unsigned(v.text[1..]))
  }

  lemma {:induction false} UnaryMeans<V(!new)>(m: Meaning<V>, env: nat -> V, s: Sym, v: Vertex)
    requires Laws(m) && NumbersOk(v)
    ensures VertexValue(m, env, BuildUnary(s, v)) == m.unary(s, VertexValue(m, env, v)) && NumbersOk(BuildUnary(s, v))
  {
    hide ComparisonLaws, NumberLaws;
    if s in {Minus, Plus} && v.VNum? {
      SignMeans(m, v.text);
    } else {
      var e := if s == LogNot then ToBool(v) else if s == Not then ToInt(v) else v;
      assert BuildUnary(s, v) == VUnary(s, e);
      assert VertexValue(m, env, VUnary(s, e)) == m.unary(s, VertexValue(m, env, e));
    }
  }

  lemma {:induction false} SignMeans<V>(m: Meaning<V>, text: string)
    requires NumberLaws(m) && NumbersOk(VNum(text))
    ensures text[0] == '-' ==> m.num(text[1..]) == m.unary(Minus, m.num(text)) && NumbersOk(VNum(text[1..]))
    ensures text[0] != '-' ==> m.num("-" + text) == m.unary(Minus, m.num(text)) && NumbersOk(VNum("-" + text))
    ensures m.unary(Plus, m.num(text)) == m.num(text)
  {
    if text[0] == '-' {
      assert text == "-" + text[1..];
    } else {
      assert ("-" + text)[1..] == text;
    }
  }

  lemma {:induction false} BinaryMeans<V(!new)>(m: Meaning<V>, env: nat -> V, s: Sym, l: Vertex, r: Vertex)
    requires TruthLaws(m) && IntegerLaws(m) && ComparisonLaws(m)
    ensures VertexValue(m, env, BuildBinary(s, l, r)) == m.binary(s, VertexValue(m, env, l), VertexValue(m, env, r))
    ensures !BuildBinary(s, l, r).VNum?
  {
    if Transform(s) != s {
      CompareMeans(m, env, s, l, r);
    } else {
      OperandsMean(m, env, s, l, r);
    }
  }

  /** The inserted conversions do not change what the operator yields. */
  lemma {:induction false} OperandsMean<V(!new)>(m: Meaning<V>, env: nat -> V, s: Sym, l: Vertex, r: Vertex)
    requires TruthLaws(m) && IntegerLaws(m) && Transform(s) == s
    ensures BuildBinary(s, l, r) == VBinary(s, ConvLeft(s, l), ConvRight(s, r))
    ensures VertexValue(m, env, BuildBinary(s, l, r)) == m.binary(s, VertexValue(m, env, l), VertexValue(m, env, r))
  {
    var left, right := ConvLeft(s, l), ConvRight(s, r);
    BinaryVertex(m, env, s, left, right);
    ConvertedVertex(m, env, ConvBool, l);
    ConvertedVertex(m, env, ConvBool, r);
    ConvertedVertex(m, env, ConvInt, l);
    ConvertedVertex(m, env, ConvInt, r);
    hide VertexValue, TruthLaws, IntegerLaws;
    if Logical(s) {
      UseTruth(m, s, VertexValue(m, env, l), VertexValue(m, env, r));
    } else if Bitwise(s) || BitwiseAssignment(s) {
      UseInteger(m, s, VertexValue(m, env, l), VertexValue(m, env, r));
    }
  }

  lemma ConvertedVertex<V>(m: Meaning<V>, env: nat -> V, conv: Sym, v: Vertex)
    ensures VertexValue(m, env, VUnary(conv, v)) == m.unary(conv, VertexValue(m, env, v))
  {
  }

  lemma UseTruth<V(!new)>(m: Meaning<V>, s: Sym, l: V, r: V)
    requires TruthLaws(m) && Logical(s)
    ensures m.binary(s, m.unary(ConvBool, l), m.unary(ConvBool, r)) == m.binary(s, l, r)
  {
  }

  lemma UseInteger<V(!new)>(m: Meaning<V>, s: Sym, l: V, r: V)
    requires IntegerLaws(m)
    ensures Bitwise(s) ==> m.binary(s, m.unary(ConvInt, l), m.unary(ConvInt, r)) == m.binary(s, l, r)
    ensures BitwiseAssignment(s) ==> m.binary(s, l, m.unary(ConvInt, r)) == m.binary(s, l, r)
  {
  }

  lemma {:induction false} CompareMeans<V(!new)>(m: Meaning<V>, env: nat -> V, s: Sym, l: Vertex, r: Vertex)
    requires ComparisonLaws(m) && Transform(s) != s
    ensures !BuildBinary(s, l, r).VNum?
    ensures VertexValue(m, env, BuildBinary(s, l, r)) == m.binary(s, VertexValue(m, env, l), VertexValue(m, env, r))
  {
    var op := Transform(s);
    var v := if s in {Gt, Ge} then VBinary(op, r, l) else VBinary(op, l, r);
    assert BuildBinary(s, l, r) == if s in {Neq2, NeqLg, Neq3} then VUnary(LogNot, v) else v;
    assert VertexValue(m, env, VUnary(LogNot, v)) == m.unary(LogNot, VertexValue(m, env, v));
  }

  /** The vertex of an expression has the expression's value, under the laws. */
  lemma {:induction false} DenoteMeans<V(!new)>(m: Meaning<V>, env: nat -> V, e: Expr)
    requires Laws(m) && WellFormed(e)
    ensures Kept(m, env, e) && NumbersOk(Denote(e))
  {
    hide BuildBinary, BuildUnary, TruthLaws, IntegerLaws, ComparisonLaws, NumberLaws;
    match e
    case Atom(_) =>
    case Number(_) =>
    case Un(s, x) =>
      DenoteMeans(m, env, x);
      UnaryMeans(m, env, s, Denote(x));
    case Bin(s, x, y) =>
      DenoteMeans(m, env, x);
      DenoteMeans(m, env, y);
      BinaryMeans(m, env, s, Denote(x), Denote(y));
    case Cond(c, y, n) =>
      DenoteMeans(m, env, c);
      DenoteMeans(m, env, y);
      DenoteMeans(m, env, n);
      CondMeans(m, env, e);
    case Elvis(c, n) =>
      DenoteMeans(m, env, c);
      DenoteMeans(m, env, n);
      CondMeans(m, env, e);
    case Par(x) => DenoteMeans(m, env, x);
  }

  lemma {:induction false} CondMeans<V(!new)>(m: Meaning<V>, env: nat -> V, e: Expr)
    requires TruthLaws(m) && Conditional(e)
    requires Kept(m, env, e.test) && Kept(m, env, e.no) && (e.Cond? ==> Kept(m, env, e.yes))
    ensures Kept(m, env, e)
  {
    hide BuildBinary, BuildUnary;
    assert VertexValue(m, env, ToBool(Denote(e.test))) == m.unary(ConvBool, VertexValue(m, env, Denote(e.test)));
  }

  // ----- and none of them can be spared -----

  /** Atoms 0, 1 and 2 have these values. */
  function Three<V>(a: V, b: V, c: V): nat -> V {
    id => if id == 0 then a else if id == 1 then b else c
  }

  lemma UnaryVertex<V>(m: Meaning<V>, env: nat -> V, s: Sym, id: nat)
    ensures VertexValue(m, env, VUnary(s, VAtom(id))) == m.unary(s, env(id))
  {
  }

  lemma TwiceVertex<V>(m: Meaning<V>, env: nat -> V, s: Sym, conv: Sym, id: nat)
    ensures VertexValue(m, env, VUnary(s, VUnary(conv, VAtom(id)))) == m.unary(s, m.unary(conv, env(id)))
  {
    UnaryVertex(m, env, conv, id);
  }

  lemma BinaryVertex<V>(m: Meaning<V>, env: nat -> V, s: Sym, l: Vertex, r: Vertex)
    ensures VertexValue(m, env, VBinary(s, l, r)) == m.binary(s, VertexValue(m, env, l), VertexValue(m, env, r))
  {
  }

  lemma {:induction false} NeedsTruth<V(!new)>(m: Meaning<V>)
    requires Keeps(m)
    ensures TruthLaws(m)
  {
    hide Keeps;
    forall v ensures m.truthy(m.unary(ConvBool, v)) == m.truthy(v) {
      NeedsTest(m, v);
    }
    forall v ensures m.unary(LogNot, m.unary(ConvBool, v)) == m.unary(LogNot, v) {
      NeedsUnary(m, LogNot, ConvBool, v);
    }
    forall s, l, r | Logical(s) ensures m.binary(s, m.unary(ConvBool, l), m.unary(ConvBool, r)) == m.binary(s, l, r) {
      NeedsOperator(m, s, l, r);
      ConvertedToBool(m, Three(l, r, r), s);
    }
  }

  lemma {:induction false} NeedsTest<V(!new)>(m: Meaning<V>, v: V)
    requires Keeps(m)
    ensures m.truthy(m.unary(ConvBool, v)) == m.truthy(v)
  {
    var env := Three(v, v, m.unary(ConvBool, v));
    var e := Cond(Atom(0), Atom(1), Atom(2));
    assert WellFormed(e) && Kept(m, env, e);
    assert Denote(e) == VTernary(ToBool(VAtom(0)), VAtom(1), VAtom(2));
    UnaryVertex(m, env, ConvBool, 0);
    assert Value(m, env, e) == if m.truthy(env(0)) then env(1) else env(2);
    assert env(0) == v && env(1) == v && env(2) == m.unary(ConvBool, v);
    assert VertexValue(m, env, Denote(e)) == if m.truthy(m.unary(ConvBool, env(0))) then env(1) else env(2);
  }

  lemma {:induction false} NeedsUnary<V(!new)>(m: Meaning<V>, s: Sym, conv: Sym, v: V)
    requires Keeps(m) && ((s == LogNot && conv == ConvBool) || (s == Not && conv == ConvInt))
    ensures m.unary(s, m.unary(conv, v)) == m.unary(s, v)
  {
    var env, e := Three(v, v, v), Un(s, Atom(0));
    assert WellFormed(Atom(0)) && WellFormed(e) && Kept(m, env, e);
    assert Denote(e) == BuildUnary(s, VAtom(0)) == VUnary(s, VUnary(conv, VAtom(0)));
    TwiceVertex(m, env, s, conv, 0);
    assert Value(m, env, e) == m.unary(s, env(0)) && env(0) == v;
  }

  lemma {:induction false} NeedsInteger<V(!new)>(m: Meaning<V>)
    requires Keeps(m)
    ensures IntegerLaws(m)
  {
    hide Keeps;
    forall v ensures m.unary(Not, m.unary(ConvInt, v)) == m.unary(Not, v) {
      NeedsUnary(m, Not, ConvInt, v);
    }
    forall s, l, r | Bitwise(s) ensures m.binary(s, m.unary(ConvInt, l), m.unary(ConvInt, r)) == m.binary(s, l, r) {
      NeedsOperator(m, s, l, r);
      ConvertedToInt(m, Three(l, r, r), s);
    }
    forall s, l, r | BitwiseAssignment(s) ensures m.binary(s, l, m.unary(ConvInt, r)) == m.binary(s, l, r) {
      NeedsOperator(m, s, l, r);
      ConvertedToInt(m, Three(l, r, r), s);
    }
  }

  /** One expression with two atoms shows the law of an operator. */
  lemma {:induction false} NeedsOperator<V(!new)>(m: Meaning<V>, s: Sym, l: V, r: V)
    requires Keeps(m) && Level(s) > 0 && s != Question
    ensures VertexValue(m, Three(l, r, r), BuildBinary(s, VAtom(0), VAtom(1))) == m.binary(s, l, r)
  {
    hide BuildBinary, Level;
    var env, e := Three(l, r, r), Bin(s, Atom(0), Atom(1));
    assert WellFormed(Atom(0)) && WellFormed(Atom(1)) && WellFormed(e) && Kept(m, env, e);
    assert Denote(e) == BuildBinary(s, VAtom(0), VAtom(1));
    assert Value(m, env, e) == m.binary(s, env(0), env(1));
  }

  lemma {:induction false} ConvertedToBool<V>(m: Meaning<V>, env: nat -> V, s: Sym)
    requires Logical(s)
    ensures VertexValue(m, env, BuildBinary(s, VAtom(0), VAtom(1)))
         == m.binary(s, m.unary(ConvBool, env(0)), m.unary(ConvBool, env(1)))
  {
    assert BuildBinary(s, VAtom(0), VAtom(1)) == VBinary(s, ToBool(VAtom(0)), ToBool(VAtom(1)));
    hide VertexValue;
    BinaryVertex(m, env, s, ToBool(VAtom(0)), ToBool(VAtom(1)));
    UnaryVertex(m, env, ConvBool, 0);
    UnaryVertex(m, env, ConvBool, 1);
  }

  lemma {:induction false} ConvertedToInt<V>(m: Meaning<V>, env: nat -> V, s: Sym)
    requires Bitwise(s) || BitwiseAssignment(s)
    ensures VertexValue(m, env, BuildBinary(s, VAtom(0), VAtom(1)))
         == m.binary(s, if Bitwise(s) then m.unary(ConvInt, env(0)) else env(0), m.unary(ConvInt, env(1)))
  {
    var left := if Bitwise(s) then ToInt(VAtom(0)) else VAtom(0);
    assert BuildBinary(s, VAtom(0), VAtom(1)) == VBinary(s, left, ToInt(VAtom(1)));
    BinaryVertex(m, env, s, left, ToInt(VAtom(1)));
    UnaryVertex(m, env, ConvInt, 0);
    UnaryVertex(m, env, ConvInt, 1);
  }

  lemma {:induction false} Compared<V>(m: Meaning<V>, env: nat -> V, s: Sym)
    requires s in {Gt, Ge, Neq2, NeqLg, Neq3}
    ensures VertexValue(m, env, BuildBinary(s, VAtom(0), VAtom(1))) ==
            if s in {Gt, Ge} then m.binary(Transform(s), env(1), env(0))
            else m.unary(LogNot, m.binary(Transform(s), env(0), env(1)))
  {
    var op, a, b := Transform(s), VAtom(0), VAtom(1);
    assert BuildBinary(s, a, b) == if s in {Gt, Ge} then VBinary(op, b, a) else VUnary(LogNot, VBinary(op, a, b));
    BinaryVertex(m, env, op, b, a);
    BinaryVertex(m, env, op, a, b);
  }

  lemma {:induction false} NeedsComparison<V(!new)>(m: Meaning<V>)
    requires Keeps(m)
    ensures ComparisonLaws(m)
  {
    forall l, r
      ensures m.binary(Gt, l, r) == m.binary(Lt, r, l) && m.binary(Ge, l, r) == m.binary(Le, r, l)
      ensures m.binary(Neq2, l, r) == m.unary(LogNot, m.binary(Eq2, l, r))
      ensures m.binary(NeqLg, l, r) == m.unary(LogNot, m.binary(Eq2, l, r))
      ensures m.binary(Neq3, l, r) == m.unary(LogNot, m.binary(Eq3, l, r))
    {
      NeedsComparisonOf(m, Gt, l, r);
      NeedsComparisonOf(m, Ge, l, r);
      NeedsComparisonOf(m, Neq2, l, r);
      NeedsComparisonOf(m, NeqLg, l, r);
      NeedsComparisonOf(m, Neq3, l, r);
    }
  }

  lemma {:induction false} NeedsComparisonOf<V(!new)>(m: Meaning<V>, s: Sym, l: V, r: V)
    requires Keeps(m) && s in {Gt, Ge, Neq2, NeqLg, Neq3}
    ensures m.binary(s, l, r) ==
            if s in {Gt, Ge} then m.binary(Transform(s), r, l) else m.unary(LogNot, m.binary(Transform(s), l, r))
  {
    NeedsOperator(m, s, l, r);
    Compared(m, Three(l, r, r), s);
  }

  lemma {:induction false} NeedsNumbers<V(!new)>(m: Meaning<V>, env: nat -> V)
    requires Keeps(m)
    ensures NumberLaws(m)
  {
    hide Keeps;
    forall t: string | Unsigned(t)
      ensures m.unary(Minus, m.num(t)) == m.num("-" + t) && m.unary(Minus, m.num("-" + t)) == m.num(t)
      ensures m.unary(Plus, m.num(t)) == m.num(t) && m.unary(Plus, m.num("-" + t)) == m.num("-" + t)
    {
      NeedsSign(m, env, Minus, t, "-" + t);
      NeedsSign(m, env, Plus, t, t);
      NeedsSecondSign(m, env, Minus, t, t);
      NeedsSecondSign(m, env, Plus, t, "-" + t);
    }
  }

  lemma {:induction false} NeedsSign<V(!new)>(m: Meaning<V>, env: nat -> V, s: Sym, t: string, u: string)
    requires Keeps(m) && Unsigned(t) && ((s == Minus && u == "-" + t) || (s == Plus && u == t))
    ensures m.unary(s, m.num(t)) == m.num(u) && Kept(m, env, Un(s, Number(t))) && Denote(Un(s, Number(t))) == VNum(u)
  {
    var e := Un(s, Number(t));
    SignedNumber(s, t);
    hide BuildUnary;
    assert WellFormed(Number(t)) && WellFormed(e) && Kept(m, env, e);
    assert Denote(e) == BuildUnary(s, VNum(t)) == VNum(u);
    assert VertexValue(m, env, VNum(u)) == m.num(u);
    assert Value(m, env, e) == m.unary(s, m.num(t));
  }

  /** What the parser makes of a sign before a number, and before a number with a minus sign. */
  lemma SignedNumber(s: Sym, t: string)
    requires Unsigned(t)
    ensures s == Minus ==> BuildUnary(s, VNum(t)) == VNum("-" + t) && BuildUnary(s, VNum("-" + t)) == VNum(t)
    ensures s == Plus ==> BuildUnary(s, VNum(t)) == VNum(t) && BuildUnary(s, VNum("-" + t)) == VNum("-" + t)
  {
    assert ("-" + t)[1..] == t;
  }

  lemma {:induction false} NeedsSecondSign<V(!new)>(m: Meaning<V>, env: nat -> V, s: Sym, t: string, u: string)
    requires Keeps(m) && Unsigned(t) && ((s == Minus && u == t) || (s == Plus && u == "-" + t))
    ensures m.unary(s, m.num("-" + t)) == m.num(u)
  {
    var minus := Un(Minus, Number(t));
    var e := Un(s, minus);
    NeedsSign(m, env, Minus, t, "-" + t);
    SignedNumber(s, t);
    hide BuildUnary;
    assert WellFormed(Number(t)) && WellFormed(minus) && WellFormed(e) && Kept(m, env, e);
    assert Denote(e) == BuildUnary(s, VNum("-" + t)) == VNum(u);
    assert Value(m, env, e) == m.unary(s, Value(m, env, minus)) == m.unary(s, m.unary(Minus, m.num(t)));
  }

  /** The parser keeps the value of every expression if and only if the laws hold. */
  lemma {:induction false} KeepsIff<V(!new)>(m: Meaning<V>)
    ensures Keeps(m) <==> Laws(m)
  {
    if Keeps(m) {
      var v := m.num("0");
      NeedsTruth(m);
      NeedsInteger(m);
      NeedsComparison(m);
      NeedsNumbers(m, Three(v, v, v));
    }
    if Laws(m) {
      forall env: nat -> V, e: Expr | WellFormed(e) ensures Kept(m, env, e) {
        DenoteMeans(m, env, e);
      }
    }
  }

  /** Where converting twice is converting once, the law of a bitwise operator says that it cannot
      tell values apart that convert to the same integer. */
  lemma {:induction false} SeesOnlyIntegers<V(!new)>(m: Meaning<V>, s: Sym)
    requires forall v :: m.unary(ConvInt, m.unary(ConvInt, v)) == m.unary(ConvInt, v)
    ensures (forall l, r :: m.binary(s, m.unary(ConvInt, l), m.unary(ConvInt, r)) == m.binary(s, l, r)) <==>
            (forall l, r, l', r' ::
               m.unary(ConvInt, l) == m.unary(ConvInt, l') && m.unary(ConvInt, r) == m.unary(ConvInt, r') ==>
               m.binary(s, l, r) == m.binary(s, l', r'))
  {
    if forall l, r :: m.binary(s, m.unary(ConvInt, l), m.unary(ConvInt, r)) == m.binary(s, l, r) {
      forall l, r, l', r' | m.unary(ConvInt, l) == m.unary(ConvInt, l') && m.unary(ConvInt, r) == m.unary(ConvInt, r')
        ensures m.binary(s, l, r) == m.binary(s, l', r')
      {
        assert m.binary(s, m.unary(ConvInt, l), m.unary(ConvInt, r)) == m.binary(s, l, r);
        assert m.binary(s, m.unary(ConvInt, l'), m.unary(ConvInt, r')) == m.binary(s, l', r');
      }
    }
  }

  // ----- integers -----

  function Truth(b: bool): int { if b then 1 else 0 }

  /** The operators that compare integers or combine truth values. */
  predicate Decides(s: Sym) {
    Logical(s) || s in {Lt, Le, Gt, Ge, Eq2, Eq3, Neq2, NeqLg, Neq3}
  }

  predicate Decided(s: Sym, l: int, r: int)
    requires Decides(s)
  {
    match s
    case Lt => l < r
    case Le => l <= r
    case Gt => l > r
    case Ge => l >= r
    case Eq2 | Eq3 => l == r
    case Neq2 | NeqLg | Neq3 => l != r
    case LogAnd | LogAndLet => l != 0 && r != 0
    case LogOr | LogOrLet => l != 0 || r != 0
    case LogXorLet => (l != 0) != (r != 0)
  }

  /** All values are integers. Comparison, logic, the signs and the conversions to bool and int are
      those of integers; every other operator, and the value of a number without a sign, may be any. */
  ghost predicate OnIntegers(m: Meaning<int>) {
    && (forall v: int :: m.truthy(v) <==> v != 0)
    && (forall v: int :: m.unary(ConvBool, v) == Truth(v != 0) && m.unary(LogNot, v) == Truth(v == 0))
    && (forall v: int :: m.unary(ConvInt, v) == v && m.unary(Plus, v) == v && m.unary(Minus, v) == -v)
    && (forall t: string :: Unsigned(t) ==> m.num("-" + t) == -m.num(t))
    && (forall s: Sym, l: int, r: int :: Decides(s) ==> m.binary(s, l, r) == Truth(Decided(s, l, r)))
  }

  lemma {:induction false} IntegersTruth(m: Meaning<int>)
    requires OnIntegers(m)
    ensures TruthLaws(m)
  {
    forall s, l: int, r: int | Logical(s)
      ensures m.binary(s, m.unary(ConvBool, l), m.unary(ConvBool, r)) == m.binary(s, l, r)
    {
      LogicSeesTruth(s, l, r);
    }
  }

  lemma LogicSeesTruth(s: Sym, l: int, r: int)
    requires Logical(s)
    ensures Decided(s, Truth(l != 0), Truth(r != 0)) <==> Decided(s, l, r)
  {
  }

  lemma {:induction false} IntegersComparison(m: Meaning<int>)
    requires OnIntegers(m)
    ensures ComparisonLaws(m)
  {
    hide Decided;
    forall l: int, r: int
      ensures m.binary(Gt, l, r) == m.binary(Lt, r, l) && m.binary(Ge, l, r) == m.binary(Le, r, l)
      ensures m.binary(Neq2, l, r) == m.unary(LogNot, m.binary(Eq2, l, r))
      ensures m.binary(NeqLg, l, r) == m.unary(LogNot, m.binary(Eq2, l, r))
      ensures m.binary(Neq3, l, r) == m.unary(LogNot, m.binary(Eq3, l, r))
    {
      ComparisonsDecided(l, r);
    }
  }

  lemma ComparisonsDecided(l: int, r: int)
    ensures Decided(Gt, l, r) == Decided(Lt, r, l) && Decided(Ge, l, r) == Decided(Le, r, l)
    ensures Decided(Neq2, l, r) == Decided(NeqLg, l, r) == !Decided(Eq2, l, r)
    ensures Decided(Neq3, l, r) == !Decided(Eq3, l, r)
  {
  }

  lemma {:induction false} IntegersInteger(m: Meaning<int>)
    requires OnIntegers(m)
    ensures IntegerLaws(m)
  {
    assert forall v: int :: m.unary(ConvInt, v) == v;
    hide OnIntegers;
  }

  lemma {:induction false} IntegersNumbers(m: Meaning<int>)
    requires OnIntegers(m)
    ensures NumberLaws(m)
  {
    hide Decided;
  }

  /** On integers the laws hold, whatever the other operators do. */
  lemma {:induction false} IntegersObey(m: Meaning<int>)
    requires OnIntegers(m)
    ensures Laws(m)
  {
    hide OnIntegers, TruthLaws, IntegerLaws, ComparisonLaws, NumberLaws;
    IntegersTruth(m);
    IntegersInteger(m);
    IntegersComparison(m);
    IntegersNumbers(m);
  }

  /** Any meaning, with the operators above made those of integers. */
  function Integers(base: Meaning<int>): Meaning<int> {
    Meaning(
      t => if t != [] && t[0] == '-' then -base.num(t[1..]) else base.num(t),
      (s, v) => IntegerUnary(base, s, v),
      (s, l, r) => if Decides(s) then Truth(Decided(s, l, r)) else base.binary(s, l, r),
      v => v != 0)
  }

  function IntegerUnary(base: Meaning<int>, s: Sym, v: int): int {
    if s == LogNot then Truth(v == 0)
    else if s == ConvBool then Truth(v != 0)
    else if s == Minus then -v
    else if s == ConvInt || s == Plus then v
    else base.unary(s, v)
  }

  lemma IntegersUnary(base: Meaning<int>, s: Sym, v: int)
    ensures Integers(base).unary(s, v) == IntegerUnary(base, s, v) && (Integers(base).truthy(v) <==> v != 0)
  {
    hide IntegerUnary, Decides;
  }

  lemma IntegerUnaryIs(base: Meaning<int>, v: int)
    ensures IntegerUnary(base, ConvBool, v) == Truth(v != 0) && IntegerUnary(base, LogNot, v) == Truth(v == 0)
    ensures IntegerUnary(base, ConvInt, v) == IntegerUnary(base, Plus, v) == v && IntegerUnary(base, Minus, v) == -v
  {
  }

  lemma IntegersBinary(base: Meaning<int>, s: Sym, l: int, r: int)
    requires Decides(s)
    ensures Integers(base).binary(s, l, r) == Truth(Decided(s, l, r))
  {
    hide IntegerUnary, Decides, Decided;
  }

  lemma IntegersNum(base: Meaning<int>, t: string)
    requires Unsigned(t)
    ensures Integers(base).num("-" + t) == -Integers(base).num(t)
  {
    hide IntegerUnary, Decides, Decided;
    assert ("-" + t)[1..] == t;
  }

  lemma {:induction false} IntegersAre(base: Meaning<int>)
    ensures OnIntegers(Integers(base))
  {
    hide Integers, Decides, Decided, Unsigned, Truth, IntegerUnary;
    var m := Integers(base);
    forall v: int
      ensures m.truthy(v) <==> v != 0
      ensures m.unary(ConvBool, v) == Truth(v != 0) && m.unary(LogNot, v) == Truth(v == 0)
      ensures m.unary(ConvInt, v) == v && m.unary(Plus, v) == v && m.unary(Minus, v) == -v
    {
      IntegerUnaryIs(base, v);
      IntegersUnary(base, ConvBool, v);
      IntegersUnary(base, LogNot, v);
      IntegersUnary(base, ConvInt, v);
      IntegersUnary(base, Plus, v);
      IntegersUnary(base, Minus, v);
    }
    forall t: string | Unsigned(t) ensures m.num("-" + t) == -m.num(t) {
      IntegersNum(base, t);
    }
    forall s: Sym, l: int, r: int | Decides(s) ensures m.binary(s, l, r) == Truth(Decided(s, l, r)) {
      IntegersBinary(base, s, l, r);
    }
  }

  // ----- texts -----

  /** Values that are integers or texts, which are sequences of character codes. */
  datatype Mixed = I(n: int) | S(text: seq<nat>)

  /** a | b. */
  function OrBits(a: nat, b: nat): nat
    decreases a + b
  {
    if a == 0 && b == 0 then 0
    else 2 * OrBits(a / 2, b / 2) + if a % 2 == 1 || b % 2 == 1 then 1 else 0
  }

  /** The disjunction of two texts: code by code, and then the rest of the longer one. */
  function OrTexts(a: seq<nat>, b: seq<nat>): seq<nat> {
    if a == [] then b else if b == [] then a else [OrBits(a[0], b[0])] + OrTexts(a[1..], b[1..])
  }

  /** A disjunction of two texts is a text, one of two integers an integer, and what is converted to
      an integer is one. Everything else may be any. */
  ghost predicate OnTexts(m: Meaning<Mixed>) {
    && (forall v: Mixed :: m.unary(ConvInt, v).I?)
    && (forall l: Mixed, r: Mixed :: l.I? && r.I? ==> m.binary(Or, l, r).I?)
    && (forall l: Mixed, r: Mixed :: l.S? && r.S? ==> m.binary(Or, l, r) == S(OrTexts(l.text, r.text)))
  }

  function AsInt(v: Mixed, toInt: seq<nat> -> int): int {
    match v case I(n) => n case S(text) => toInt(text)
  }

  function TextUnary(base: Meaning<Mixed>, toInt: seq<nat> -> int, s: Sym, v: Mixed): Mixed {
    if s == ConvInt then I(AsInt(v, toInt)) else base.unary(s, v)
  }

  function TextBinary(base: Meaning<Mixed>, toInt: seq<nat> -> int, s: Sym, l: Mixed, r: Mixed): Mixed {
    if s == Or && l.S? && r.S? then S(OrTexts(l.text, r.text))
    else if s == Or then I(AsInt(base.binary(s, l, r), toInt))
    else base.binary(s, l, r)
  }

  /** Any meaning, with conversion to integers and disjunction made such. */
  function Texts(base: Meaning<Mixed>, toInt: seq<nat> -> int): Meaning<Mixed> {
    Meaning(
      base.num,
      (s, v) => TextUnary(base, toInt, s, v),
      (s, l, r) => TextBinary(base, toInt, s, l, r),
      base.truthy)
  }

  lemma TextsUnfold(base: Meaning<Mixed>, toInt: seq<nat> -> int, s: Sym, l: Mixed, r: Mixed)
    ensures var m := Texts(base, toInt);
            m.unary(s, l) == TextUnary(base, toInt, s, l) && m.binary(s, l, r) == TextBinary(base, toInt, s, l, r)
  {
    hide TextUnary, TextBinary;
  }

  lemma {:induction false} TextsAre(base: Meaning<Mixed>, toInt: seq<nat> -> int)
    ensures OnTexts(Texts(base, toInt))
  {
    hide OrTexts, Texts;
    var m := Texts(base, toInt);
    forall v: Mixed ensures m.unary(ConvInt, v).I? {
      TextsUnfold(base, toInt, ConvInt, v, v);
    }
    forall l: Mixed, r: Mixed
      ensures l.I? && r.I? ==> m.binary(Or, l, r).I?
      ensures l.S? && r.S? ==> m.binary(Or, l, r) == S(OrTexts(l.text, r.text))
    {
      TextsUnfold(base, toInt, Or, l, r);
    }
  }

  /** "a" | "b" is "c". */
  lemma LettersJoined()
    ensures OrTexts([97], [98]) == [99]
  {
    assert OrBits(24, 24) == 24 by {
      assert OrBits(3, 3) == 3;
    }
    assert OrBits(97, 98) == 99;
    assert OrTexts([], []) == [];
  }

  lemma TextsDiffer(m: Meaning<Mixed>, a: seq<nat>, b: seq<nat>)
    requires OnTexts(m)
    ensures m.binary(Or, S(a), S(b)).S?
    ensures m.binary(Or, m.unary(ConvInt, S(a)), m.unary(ConvInt, S(b))).I?
  {
    hide OrTexts;
  }

  /** The parser turns a disjunction of two texts into one of integers: for no texts is its value kept,
      and the laws fail. */
  lemma {:induction false} TextsAreLost(m: Meaning<Mixed>, a: seq<nat>, b: seq<nat>)
    requires OnTexts(m)
    ensures !Kept(m, Three(S(a), S(b), S(b)), Bin(Or, Atom(0), Atom(1))) && !Laws(m)
  {
    hide Laws, BuildBinary, Level, OrTexts, OnTexts;
    var env := Three(S(a), S(b), S(b));
    var e := Bin(Or, Atom(0), Atom(1));
    TextsDiffer(m, a, b);
    ConvertedToInt(m, env, Or);
    assert Denote(e) == BuildBinary(Or, VAtom(0), VAtom(1));
    assert env(0) == S(a) && env(1) == S(b);
    assert Value(m, env, e) == m.binary(Or, env(0), env(1));
    OrIsOperator();
    assert WellFormed(Atom(0)) && WellFormed(Atom(1)) && WellFormed(e);
    if Laws(m) {
      DenoteMeans(m, env, e);
    }
  }

  lemma OrIsOperator()
    ensures Level(Or) > 0
  {
  }
}

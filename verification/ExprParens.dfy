/** Which parentheses of a printed expression matter: what the parser reads when a pair that the levels
    call for is taken away, and when that is the same vertex. */
module ExprParens {
  import opened Wrappers
  import opened ExprParser
  import opened ExprRoundTrip

  // ----- built vertices -----

  /** One of the operators is > or >=, and the other is what it becomes. */
  predicate Mirrored(s: Sym, t: Sym) {
    (s in {Gt, Ge} && t == Transform(s)) || (t in {Gt, Ge} && s == Transform(t))
  }

  function Size(v: Vertex): nat {
    match v
    case VAtom(_) => 1
    case VNum(_) => 1
    case VUnary(_, x) => 1 + Size(x)
    case VBinary(_, x, y) => 1 + Size(x) + Size(y)
    case VTernary(c, y, n) => 1 + Size(c) + Size(y) + Size(n)
    case VShortTernary(c, n) => 1 + Size(c) + Size(n)
  }

  /** The binary vertex inside a built one. */
  function Core(s: Sym, l: Vertex, r: Vertex): Vertex {
    var op := Transform(s);
    if s in {Gt, Ge} then VBinary(op, ConvRight(op, r), ConvLeft(op, l))
    else VBinary(op, ConvLeft(op, l), ConvRight(op, r))
  }

  lemma BuiltCore(s: Sym, l: Vertex, r: Vertex)
    ensures BuildBinary(s, l, r) == if s in {Neq2, NeqLg, Neq3} then VUnary(LogNot, Core(s, l, r)) else Core(s, l, r)
  {
    hide ConvLeft, ConvRight, Transform;
  }

  lemma ConvSize(op: Sym, v: Vertex)
    ensures Size(ConvLeft(op, v)) >= Size(v) && Size(ConvRight(op, v)) >= Size(v)
  {
  }

  lemma {:induction false} BuiltSize(s: Sym, l: Vertex, r: Vertex)
    ensures Size(BuildBinary(s, l, r)) > Size(l) + Size(r)
  {
    hide BuildBinary, ConvLeft, ConvRight, Transform;
    BuiltCore(s, l, r);
    ConvSize(Transform(s), l);
    ConvSize(Transform(s), r);
  }

  lemma ConvInjective(op: Sym, v: Vertex, w: Vertex)
    ensures ConvLeft(op, v) == ConvLeft(op, w) ==> v == w
    ensures ConvRight(op, v) == ConvRight(op, w) ==> v == w
  {
  }

  lemma CompareUnconverted(s: Sym, v: Vertex)
    requires s in {Gt, Ge}
    ensures ConvLeft(Transform(s), v) == ConvRight(Transform(s), v) == v
  {
  }

  lemma MirrorOf(s: Sym, t: Sym)
    requires Transform(s) == Transform(t) && (s in {Gt, Ge}) != (t in {Gt, Ge})
    ensures Mirrored(s, t)
  {
  }

  /** The parts of a built vertex show what it was built from, up to the exchange of operands. */
  lemma {:induction false} BuiltInjective(s: Sym, l: Vertex, r: Vertex, t: Sym, l': Vertex, r': Vertex)
    requires BuildBinary(s, l, r) == BuildBinary(t, l', r')
    ensures Transform(s) == Transform(t)
    ensures (s in {Gt, Ge}) == (t in {Gt, Ge}) ==> l == l' && r == r'
    ensures (s in {Gt, Ge}) != (t in {Gt, Ge}) ==> l == r' && r == l' && Mirrored(s, t)
  {
    hide BuildBinary, ConvLeft, ConvRight, Transform, Mirrored;
    BuiltCore(s, l, r);
    BuiltCore(t, l', r');
    var op := Transform(s);
    assert Core(s, l, r) == Core(t, l', r');
    ConvInjective(op, l, l');
    ConvInjective(op, r, r');
    if (s in {Gt, Ge}) != (t in {Gt, Ge}) {
      MirrorOf(s, t);
      var g := if s in {Gt, Ge} then s else t;
      CompareUnconverted(g, l);
      CompareUnconverted(g, r);
      CompareUnconverted(g, l');
      CompareUnconverted(g, r');
    }
  }

  /** A comparison written from the other side. */
  lemma MirrorBuilt(s: Sym, t: Sym, a: Vertex, x: Vertex)
    requires Mirrored(s, t)
    ensures BuildBinary(t, x, a) == BuildBinary(s, a, x)
  {
    var g := if s in {Gt, Ge} then s else t;
    CompareUnconverted(g, a);
    CompareUnconverted(g, x);
    hide ConvLeft, ConvRight;
  }

  lemma MirroredLevel(s: Sym, t: Sym)
    requires Mirrored(s, t)
    ensures Level(s) == Level(t) == 13
  {
    ComparisonLevels();
    MirroredAre(s, t);
    hide Level, Mirrored;
  }

  lemma ComparisonLevels()
    ensures Level(Lt) == 13 && Level(Le) == 13 && Level(Gt) == 13 && Level(Ge) == 13
  {
  }

  lemma MirroredAre(s: Sym, t: Sym)
    requires Mirrored(s, t)
    ensures s in {Lt, Le, Gt, Ge} && t in {Lt, Le, Gt, Ge}
  {
  }

  lemma UnarySize(s: Sym, v: Vertex)
    ensures Size(BuildUnary(s, v)) >= Size(v)
  {
  }

  // ----- a right operand without its parentheses -----

  /** The level at which the left operand of an operator of level p is printed. */
  function LeftLevel(p: nat): nat {
    if LeftToRight(p) then p else p + 1
  }

  /** The left operand of an operator of level p, with the parentheses it is printed with if it begins
      with a prefix operator that would swallow the operator. */
  function LeftOperand(e: Expr, p: nat): Expr {
    if e.Un? && UnaryLevel(e.sym) <= p then Par(e) else e
  }

  lemma LeftPrinted(e: Expr, p: nat, till: bool)
    ensures PrintLeft(e, p, till) == Print(LeftOperand(e, p), LeftLevel(p), till, false)
  {
    hide UnaryLevel, Level, Print;
    if e.Un? && UnaryLevel(e.sym) <= p {
      ParPrinted(e, LeftLevel(p), till, false);
    }
  }

  lemma ParPrinted(e: Expr, q: nat, till: bool, closed: bool)
    ensures Print(Par(e), q, till, closed) == Paren(Print(e, BEGIN, false, true))
  {
  }

  /** e, printed at level q, begins with operands of an operator that is weaker than level l. */
  predicate OpensLeft(l: nat, e: Expr, q: nat)
    decreases e
  {
    match e
    case Bin(t, _, _) => q <= Level(t) < l
    case Un(u, x) => OpensLeft(Max(l, UnaryLevel(u)), x, Max(q, UnaryLevel(u)))
    case _ => false
  }

  /** Prefix operators before an operand. */
  function Prefixed(us: seq<Sym>, e: Expr): Expr {
    if us == [] then e else Un(us[0], Prefixed(us[1..], e))
  }

  function PrefixTokens(us: seq<Sym>): seq<Tok> {
    if us == [] then [] else [TSym(us[0])] + PrefixTokens(us[1..])
  }

  /** The level at which the operand after these prefix operators is read. */
  function PrefixLevel(us: seq<Sym>, l: nat): nat {
    if us == [] then l else PrefixLevel(us[1..], Max(UnaryLevel(us[0]), l))
  }

  /** How a s us e is read, where e stands without parentheses: a, the operator and the prefix operators
      go to the operand at the left end of e. */
  function Graft(s: Sym, a: Expr, us: seq<Sym>, l: nat, e: Expr, q: nat): Expr
    decreases e, 0
  {
    if !OpensLeft(l, e, q) then Bin(s, a, Prefixed(us, e))
    else
      match e
      case Bin(t, x, y) => Bin(t, GraftLeft(s, a, us, l, x, Level(t)), y)
      case Un(u, x) => Graft(s, a, us + [u], Max(l, UnaryLevel(u)), x, Max(q, UnaryLevel(u)))
      case _ => e
  }

  function GraftLeft(s: Sym, a: Expr, us: seq<Sym>, l: nat, x: Expr, p: nat): Expr
    decreases x, 1
  {
    if x.Un? && UnaryLevel(x.sym) <= p then Bin(s, a, Prefixed(us, Par(x))) else Graft(s, a, us, l, x, LeftLevel(p))
  }

  lemma {:induction false} PrefixedPrinted(us: seq<Sym>, e: Expr, l: nat, till: bool, closed: bool)
    ensures Print(Prefixed(us, e), l, till, closed) == PrefixTokens(us) + Print(e, PrefixLevel(us, l), till, closed)
  {
    hide Level, UnaryLevel;
    if us != [] {
      PrefixedPrinted(us[1..], e, Max(UnaryLevel(us[0]), l), till, closed);
    }
  }

  lemma {:induction false} PrefixSnoc(us: seq<Sym>, u: Sym, l: nat)
    ensures PrefixTokens(us + [u]) == PrefixTokens(us) + [TSym(u)]
    ensures PrefixLevel(us + [u], l) == Max(PrefixLevel(us, l), UnaryLevel(u))
  {
    hide UnaryLevel;
    if us == [] {
      assert PrefixTokens([]) == [] && PrefixLevel([], l) == l;
      assert (us + [u])[1..] == [];
    } else {
      PrefixSnoc(us[1..], u, Max(UnaryLevel(us[0]), l));
      assert (us + [u])[1..] == us[1..] + [u];
    }
  }

  /** An operand that does not open is printed at level l as at level q. */
  lemma {:induction false} ClosedPrinted(l: nat, e: Expr, q: nat)
    requires q <= l && !OpensLeft(l, e, q)
    ensures Print(e, l, false, false) == Print(e, q, false, false)
    decreases e
  {
    hide Level, UnaryLevel, PrintBin, PrintCond;
    if e.Un? {
      ClosedPrinted(Max(l, UnaryLevel(e.sym)), e.expr, Max(q, UnaryLevel(e.sym)));
    }
  }

  lemma BinPrinted(t: Sym, x: Expr, y: Expr, q: nat, till: bool, closed: bool)
    requires q <= Level(t)
    ensures Print(Bin(t, x, y), q, till, closed)
         == PrintLeft(x, Level(t), till) + [TSym(t)]
          + Print(y, RightLevel(Level(t)), till && Level(t) >= TERNARY, closed)
  {
    hide Level, UnaryLevel, PrintLeft;
  }

  /** a s, and prefix operators. */
  function Before(s: Sym, a: Expr, us: seq<Sym>): seq<Tok> {
    PrintLeft(a, Level(s), false) + [TSym(s)] + PrefixTokens(us)
  }

  lemma {:induction false} LeafPrinted(s: Sym, a: Expr, us: seq<Sym>, e: Expr, q0: nat, closed: bool)
    requires q0 <= Level(s)
    ensures Print(Bin(s, a, Prefixed(us, e)), q0, false, closed)
         == Before(s, a, us) + Print(e, PrefixLevel(us, RightLevel(Level(s))), false, closed)
  {
    hide Level, UnaryLevel, Print, PrintLeft;
    BinPrinted(s, a, Prefixed(us, e), q0, false, closed);
    PrefixedPrinted(us, e, RightLevel(Level(s)), false, closed);
  }

  /** An operator that is weaker than the right operands of s can be printed to the right of s. */
  lemma WeakerFits(s: Sym, t: Sym)
    requires Level(t) < RightLevel(Level(s))
    ensures LeftLevel(Level(t)) <= Level(s)
  {
    hide Level;
  }

  /** The regrouped expression is printed as the text without the parentheses. */
  lemma {:induction false} GraftPrinted(s: Sym, a: Expr, us: seq<Sym>, l: nat, e: Expr, q: nat, q0: nat, closed: bool)
    requires l == PrefixLevel(us, RightLevel(Level(s))) && q <= l <= Max(RightLevel(Level(s)), q)
    requires q0 <= q && q0 <= Level(s) && (closed ==> OpensLeft(l, e, q))
    ensures Print(Graft(s, a, us, l, e, q), q0, false, closed) == Before(s, a, us) + Print(e, q, false, closed)
    ensures Graft(s, a, us, l, e, q).Bin?
    decreases e, 0
  {
    hide Level, UnaryLevel, Print, PrintLeft, Before, PrefixLevel, LeftToRight;
    if !OpensLeft(l, e, q) {
      LeafPrinted(s, a, us, e, q0, false);
      ClosedPrinted(l, e, q);
    } else if e.Bin? {
      GraftedLeft(s, a, us, l, e.sym, e.left, q);
      BinPrinted(e.sym, Graft(s, a, us, l, e, q).left, e.right, q0, false, closed);
      BinPrinted(e.sym, e.left, e.right, q, false, closed);
    } else {
      var u, x := e.sym, e.expr;
      PrefixSnoc(us, u, RightLevel(Level(s)));
      GraftPrinted(s, a, us + [u], Max(l, UnaryLevel(u)), x, Max(q, UnaryLevel(u)), q0, closed);
      UnPrinted(u, x, q, false, closed);
      BeforeSnoc(s, a, us, u);
    }
  }

  lemma UnPrinted(u: Sym, x: Expr, q: nat, till: bool, closed: bool)
    ensures Print(Un(u, x), q, till, closed) == [TSym(u)] + Print(x, Max(UnaryLevel(u), q), till, closed)
  {
  }

  lemma BeforeSnoc(s: Sym, a: Expr, us: seq<Sym>, u: Sym)
    requires PrefixTokens(us + [u]) == PrefixTokens(us) + [TSym(u)]
    ensures Before(s, a, us + [u]) == Before(s, a, us) + [TSym(u)]
  {
    hide PrintLeft, PrefixTokens, Level;
  }

  lemma {:induction false} GraftedLeft(s: Sym, a: Expr, us: seq<Sym>, l: nat, t: Sym, x: Expr, q: nat)
    requires l == PrefixLevel(us, RightLevel(Level(s))) && q <= Level(t) < l <= Max(RightLevel(Level(s)), q)
    ensures PrintLeft(GraftLeft(s, a, us, l, x, Level(t)), Level(t), false)
         == Before(s, a, us) + PrintLeft(x, Level(t), false)
    decreases x, 1
  {
    hide Level, UnaryLevel, Print, PrintLeft, Before, PrefixLevel, Graft;
    WeakerFits(s, t);
    var k := LeftLevel(Level(t));
    LeftPrinted(x, Level(t), false);
    if x.Un? && UnaryLevel(x.sym) <= Level(t) {
      var g := Bin(s, a, Prefixed(us, Par(x)));
      LeafPrinted(s, a, us, Par(x), k, false);
      ParPrinted(x, l, false, false);
      ParPrinted(x, k, false, false);
      LeftPrinted(g, Level(t), false);
    } else {
      GraftPrinted(s, a, us, l, x, k, k, false);
      LeftPrinted(Graft(s, a, us, l, x, k), Level(t), false);
    }
  }

  lemma {:induction false} PrefixedWellFormed(us: seq<Sym>, e: Expr)
    requires WellFormed(e) && forall k :: 0 <= k < |us| ==> UnaryLevel(us[k]) > 0
    ensures WellFormed(Prefixed(us, e))
  {
    hide UnaryLevel;
    if us != [] {
      PrefixedWellFormed(us[1..], e);
    }
  }

  lemma {:induction false} GraftWellFormed(s: Sym, a: Expr, us: seq<Sym>, l: nat, e: Expr, q: nat)
    requires WellFormed(Bin(s, a, e)) && forall k :: 0 <= k < |us| ==> UnaryLevel(us[k]) > 0
    ensures WellFormed(Graft(s, a, us, l, e, q))
    decreases e
  {
    hide Level, UnaryLevel;
    if !OpensLeft(l, e, q) {
      PrefixedWellFormed(us, e);
    } else if e.Un? {
      assert WellFormed(Bin(s, a, e.expr));
      GraftWellFormed(s, a, us + [e.sym], Max(l, UnaryLevel(e.sym)), e.expr, Max(q, UnaryLevel(e.sym)));
    } else {
      var x := e.left;
      assert WellFormed(x) && WellFormed(Par(x)) && WellFormed(Bin(s, a, x));
      if x.Un? && UnaryLevel(x.sym) <= Level(e.sym) {
        PrefixedWellFormed(us, Par(x));
        assert WellFormed(Bin(s, a, Prefixed(us, Par(x))));
      } else {
        GraftWellFormed(s, a, us, l, x, LeftLevel(Level(e.sym)));
      }
    }
  }

  /** Along the left end of e all operators mirror s, and all right operands have the vertex of a. */
  predicate Mirrors(s: Sym, a: Expr, e: Expr)
    decreases e
  {
    && e.Bin? && Mirrored(s, e.sym) && Denote(e.right) == Denote(a)
    && (e.left.Bin? && Level(e.left.sym) == Level(s) ==> Mirrors(s, a, e.left))
  }

  /** A regrouped expression has an operator of e on top. */
  lemma {:induction false} GraftTop(s: Sym, a: Expr, us: seq<Sym>, l: nat, e: Expr, q: nat)
    requires OpensLeft(l, e, q)
    ensures var g := Graft(s, a, us, l, e, q);
            g.Bin? && Level(g.sym) >= q && Size(Denote(g.right)) < Size(Denote(e))
    decreases e
  {
    hide Level, UnaryLevel, BuildBinary, BuildUnary, Size;
    if e.Bin? {
      BuiltSize(e.sym, Denote(e.left), Denote(e.right));
    } else {
      GraftTop(s, a, us + [e.sym], Max(l, UnaryLevel(e.sym)), e.expr, Max(q, UnaryLevel(e.sym)));
      UnarySize(e.sym, Denote(e.expr));
    }
  }

  lemma {:induction false} NeverOpens(l: nat, e: Expr, q: nat)
    requires l <= q
    ensures !OpensLeft(l, e, q)
    decreases e
  {
    hide Level, UnaryLevel;
    if e.Un? {
      NeverOpens(Max(l, UnaryLevel(e.sym)), e.expr, Max(q, UnaryLevel(e.sym)));
    }
  }

  lemma PrefixAbove(s: Sym)
    ensures UnaryLevel(s) == 0 || UnaryLevel(s) >= 17
  {
  }

  /** A prefix operator is stronger than the comparisons that mirror each other. */
  lemma {:induction false} UnNotOpened(s: Sym, x: Expr)
    requires Level(s) == 13 && x.Un? && UnaryLevel(x.sym) > 0
    ensures !OpensLeft(RightLevel(Level(s)), x, LeftLevel(13))
  {
    hide Level, UnaryLevel;
    PrefixAbove(x.sym);
    NeverOpens(Max(RightLevel(Level(s)), UnaryLevel(x.sym)), x.expr, Max(LeftLevel(13), UnaryLevel(x.sym)));
  }

  /** Regrouping from a prefix operator gives another vertex. */
  lemma {:induction false} UnDiffers(s: Sym, a: Expr, l: nat, e: Expr, q: nat)
    requires e.Un? && UnaryLevel(e.sym) > 0 && OpensLeft(l, e, q)
    ensures BuildBinary(s, Denote(a), Denote(e)) != Denote(Graft(s, a, [], l, e, q))
  {
    hide Level, UnaryLevel, BuildBinary, BuildUnary, Size, OpensLeft;
    var g := Graft(s, a, [], l, e, q);
    GraftTop(s, a, [], l, e, q);
    UnTop(s, a, l, e, q);
    if BuildBinary(s, Denote(a), Denote(e)) == Denote(g) {
      BuiltInjective(s, Denote(a), Denote(e), g.sym, Denote(g.left), Denote(g.right));
      if Mirrored(s, g.sym) {
        MirroredLevel(s, g.sym);
      }
    }
  }

  lemma {:induction false} UnTop(s: Sym, a: Expr, l: nat, e: Expr, q: nat)
    requires e.Un? && UnaryLevel(e.sym) > 0 && OpensLeft(l, e, q)
    ensures Graft(s, a, [], l, e, q).Bin? && Level(Graft(s, a, [], l, e, q).sym) >= 17
  {
    hide Level, UnaryLevel, BuildBinary, BuildUnary, Size;
    PrefixAbove(e.sym);
    GraftTop(s, a, [] + [e.sym], Max(l, UnaryLevel(e.sym)), e.expr, Max(q, UnaryLevel(e.sym)));
  }

  /** The regrouped expression has the same vertex if and only if e mirrors s. */
  lemma {:induction false} GraftIff(s: Sym, a: Expr, e: Expr, q: nat)
    requires WellFormed(e) && OpensLeft(RightLevel(Level(s)), e, q)
    ensures BuildBinary(s, Denote(a), Denote(e)) == Denote(Graft(s, a, [], RightLevel(Level(s)), e, q))
            <==> Mirrors(s, a, e)
    decreases e, 0
  {
    hide Level, UnaryLevel, BuildBinary, BuildUnary, Size, Graft, GraftLeft, Mirrors, Mirrored;
    var l := RightLevel(Level(s));
    if e.Un? {
      UnDiffers(s, a, l, e, q);
      MirrorsBin(s, a, e);
    } else {
      var t, x, y := e.sym, e.left, e.right;
      GraftBin(s, a, [], l, e, q);
      MirrorsBin(s, a, e);
      RotationIff(s, t, Denote(a), Denote(x), Denote(y), Denote(GraftLeft(s, a, [], l, x, Level(t))));
      if Mirrored(s, t) {
        MirroredLevel(s, t);
        LeftIff(s, a, t, x);
      }
    }
  }

  lemma GraftBin(s: Sym, a: Expr, us: seq<Sym>, l: nat, e: Expr, q: nat)
    requires e.Bin? && OpensLeft(l, e, q)
    ensures Graft(s, a, us, l, e, q) == Bin(e.sym, GraftLeft(s, a, us, l, e.left, Level(e.sym)), e.right)
  {
    hide GraftLeft, Level;
  }

  lemma MirrorsBin(s: Sym, a: Expr, e: Expr)
    ensures Mirrors(s, a, e) <==>
            && e.Bin? && Mirrored(s, e.sym) && Denote(e.right) == Denote(a)
            && (e.left.Bin? && Level(e.left.sym) == Level(s) ==> Mirrors(s, a, e.left))
  {
    hide Level, Mirrored, Denote;
  }

  lemma {:induction false} LeftIff(s: Sym, a: Expr, t: Sym, x: Expr)
    requires WellFormed(x) && Level(s) == Level(t) == 13
    ensures Denote(GraftLeft(s, a, [], RightLevel(Level(s)), x, Level(t))) == BuildBinary(s, Denote(a), Denote(x))
            <==> (x.Bin? && Level(x.sym) == Level(s) ==> Mirrors(s, a, x))
    decreases x, 1
  {
    hide Level, UnaryLevel, BuildBinary, BuildUnary, Graft, GraftLeft, Mirrors;
    var l := RightLevel(Level(s));
    if x.Un? {
      PrefixAbove(x.sym);
      UnNotOpened(s, x);
    }
    GraftLeftIs(s, a, [], l, x, Level(t));
    if x.Bin? && Level(x.sym) == Level(s) {
      GraftIff(s, a, x, LeftLevel(Level(t)));
    } else {
      GraftLeaf(s, a, l, x, LeftLevel(Level(t)));
    }
  }

  lemma GraftLeftIs(s: Sym, a: Expr, us: seq<Sym>, l: nat, x: Expr, p: nat)
    requires !(x.Un? && UnaryLevel(x.sym) <= p)
    ensures GraftLeft(s, a, us, l, x, p) == Graft(s, a, us, l, x, LeftLevel(p))
  {
    hide Graft;
  }

  lemma GraftLeaf(s: Sym, a: Expr, l: nat, x: Expr, q: nat)
    requires !OpensLeft(l, x, q)
    ensures Denote(Graft(s, a, [], l, x, q)) == BuildBinary(s, Denote(a), Denote(x))
  {
    hide BuildBinary;
  }

  lemma {:induction false} RotationIff(s: Sym, t: Sym, a: Vertex, x: Vertex, y: Vertex, g: Vertex)
    ensures BuildBinary(s, a, BuildBinary(t, x, y)) == BuildBinary(t, g, y) <==>
            Mirrored(s, t) && a == y && g == BuildBinary(s, a, x)
  {
    hide BuildBinary, Size, Mirrored;
    BuiltSize(t, x, y);
    if BuildBinary(s, a, BuildBinary(t, x, y)) == BuildBinary(t, g, y) {
      BuiltInjective(s, a, BuildBinary(t, x, y), t, g, y);
    }
    if Mirrored(s, t) {
      MirrorBuilt(s, t, a, x);
      MirrorBuilt(s, t, a, g);
    }
  }

  /** A conditional without its parentheses: a and the operator go to its first condition. */
  function GraftTest(s: Sym, a: Expr, e: Expr): Expr {
    match e
    case Cond(c, y, n) => Cond(GraftTest(s, a, c), y, n)
    case Elvis(c, n) => Elvis(GraftTest(s, a, c), n)
    case _ => Graft(s, a, [], RightLevel(Level(s)), e, TERNARY + 1)
  }

  lemma {:induction false} GraftTestPrinted(s: Sym, a: Expr, e: Expr)
    requires RightLevel(Level(s)) > TERNARY && Level(s) > TERNARY
    ensures PrintTest(GraftTest(s, a, e)) == Before(s, a, []) + PrintTest(e)
    ensures Conditional(GraftTest(s, a, e)) == Conditional(e)
    decreases e, 1
  {
    hide Level, UnaryLevel, Print, PrintLeft, Before, Graft;
    if Conditional(e) {
      GraftCondPrinted(s, a, e, false);
    } else {
      assert PrefixLevel([], RightLevel(Level(s))) == RightLevel(Level(s));
      GraftPrinted(s, a, [], RightLevel(Level(s)), e, TERNARY + 1, TERNARY + 1, false);
    }
  }

  lemma {:induction false} GraftCondPrinted(s: Sym, a: Expr, e: Expr, closed: bool)
    requires RightLevel(Level(s)) > TERNARY && Level(s) > TERNARY && Conditional(e)
    ensures Conditional(GraftTest(s, a, e))
    ensures PrintCond(GraftTest(s, a, e), closed) == Before(s, a, []) + PrintCond(e, closed)
    decreases e, 0
  {
    hide Level, UnaryLevel, Print, PrintLeft, Before, Graft, PrintTest;
    GraftTestPrinted(s, a, e.test);
    assert PrintYes(GraftTest(s, a, e)) == PrintYes(e);
  }

  lemma {:induction false} GraftTestWellFormed(s: Sym, a: Expr, e: Expr)
    requires WellFormed(Bin(s, a, e))
    ensures WellFormed(GraftTest(s, a, e))
    decreases e
  {
    hide Level, UnaryLevel, Graft;
    if Conditional(e) {
      assert WellFormed(Bin(s, a, e.test));
      GraftTestWellFormed(s, a, e.test);
    } else {
      GraftWellFormed(s, a, [], RightLevel(Level(s)), e, TERNARY + 1);
    }
  }

  /** The printer puts parentheses around the right operand e of s. */
  predicate RightInParens(s: Sym, e: Expr) {
    var l := RightLevel(Level(s));
    (e.Bin? && Level(e.sym) < l) || (Conditional(e) && l > TERNARY)
  }

  /** a s e, with e not in parentheses. */
  function BareRight(s: Sym, a: Expr, e: Expr): seq<Tok> {
    PrintLeft(a, Level(s), false) + [TSym(s)] + Print(e, BEGIN, false, true)
  }

  /** The expression that text is the printed form of. */
  function ReadRight(s: Sym, a: Expr, e: Expr): Expr {
    if e.Bin? then Graft(s, a, [], RightLevel(Level(s)), e, BEGIN) else GraftTest(s, a, e)
  }

  lemma {:induction false} BareRightPrinted(s: Sym, a: Expr, e: Expr)
    requires WellFormed(Bin(s, a, e)) && RightInParens(s, e)
    ensures Print(ReadRight(s, a, e), BEGIN, false, true) == BareRight(s, a, e) && WellFormed(ReadRight(s, a, e))
  {
    hide Level, UnaryLevel, Print, PrintLeft, Graft, PrintCond, GraftTest;
    assert Before(s, a, []) == PrintLeft(a, Level(s), false) + [TSym(s)];
    if e.Bin? {
      assert PrefixLevel([], RightLevel(Level(s))) == RightLevel(Level(s));
      GraftPrinted(s, a, [], RightLevel(Level(s)), e, BEGIN, BEGIN, true);
      GraftWellFormed(s, a, [], RightLevel(Level(s)), e, BEGIN);
    } else {
      NotTernary(s);
      GraftCondPrinted(s, a, e, true);
      CondPrinted(e);
      CondPrinted(GraftTest(s, a, e));
      GraftTestWellFormed(s, a, e);
    }
  }

  lemma NotTernary(s: Sym)
    requires s != Question
    ensures Level(s) != TERNARY
  {
  }

  lemma CondPrinted(e: Expr)
    requires Conditional(e)
    ensures Print(e, BEGIN, false, true) == PrintCond(e, true)
  {
    hide PrintCond;
  }

  /** Parentheses hide the level outside. */
  lemma InParens(e: Expr, q: nat, till: bool, closed: bool)
    requires (e.Bin? && BEGIN <= Level(e.sym) < q) || (Conditional(e) && (q > TERNARY || till || !closed))
    ensures Print(e, q, till, closed) == Paren(Print(e, BEGIN, false, true))
  {
    hide Level, UnaryLevel, PrintBin, PrintCond;
  }

  /** Where the printer puts parentheses around a right operand, the text without them is read as the
      regrouped expression. That is the same vertex if and only if along the left end of the operand
      all operators mirror the one before it and all right operands have the vertex of its left
      operand, as in a > (b < a). */
  lemma {:induction false} RightParens(s: Sym, a: Expr, e: Expr)
    requires WellFormed(Bin(s, a, e)) && RightInParens(s, e)
    ensures Print(Bin(s, a, e), BEGIN, false, true)
         == PrintLeft(a, Level(s), false) + [TSym(s)] + Paren(Print(e, BEGIN, false, true))
    ensures Parse(BEGIN, false, BareRight(s, a, e)) == Parsed(Some(Denote(ReadRight(s, a, e))), [])
    ensures Denote(ReadRight(s, a, e)) == Denote(Bin(s, a, e)) <==> Mirrors(s, a, e)
  {
    hide Level, Parse, Print, Graft, BareRight, BuildBinary, Mirrors, PrintLeft;
    BinPrinted(s, a, e, BEGIN, false, true);
    InParens(e, RightLevel(Level(s)), false, true);
    BareRightPrinted(s, a, e);
    ParsePrint(ReadRight(s, a, e));
    MirrorsBin(s, a, e);
    if e.Bin? {
      GraftIff(s, a, e, BEGIN);
    } else {
      ConditionalDiffers(s, a, e);
    }
  }

  /** A conditional is no operator. */
  lemma ConditionalDiffers(s: Sym, a: Expr, e: Expr)
    requires Conditional(e)
    ensures Denote(GraftTest(s, a, e)) != Denote(Bin(s, a, e))
  {
    hide ConvLeft, ConvRight, Graft;
  }

  // ----- a left operand without its parentheses -----

  /** e, printed at level q, ends with an operand that an operator of level p after it takes. */
  predicate OpensRight(p: nat, e: Expr, q: nat, till: bool)
    decreases e
  {
    match e
    case Bin(t, _, y) =>
      q <= Level(t) && (Level(t) < LeftLevel(p) || OpensRight(p, y, RightLevel(Level(t)), till && Level(t) >= TERNARY))
    case Un(u, _) => Max(UnaryLevel(u), q) <= p
    case Cond(_, _, _) => q <= TERNARY && !till
    case Elvis(_, _) => q <= TERNARY && !till
    case _ => false
  }

  /** How e s b is read, where e stands without parentheses: the operator and b go to the operand at
      the right end of e. */
  function GraftRight(s: Sym, b: Expr, e: Expr, q: nat, till: bool): Expr
    decreases e
  {
    if !OpensRight(Level(s), e, q, till) then Bin(s, e, b)
    else
      match e
      case Bin(t, x, y) => Bin(t, x, GraftRight(s, b, y, RightLevel(Level(t)), till && Level(t) >= TERNARY))
      case Un(u, x) => Un(u, GraftRight(s, b, x, Max(UnaryLevel(u), q), till))
      case Cond(c, y, n) => Cond(c, y, GraftRight(s, b, n, BEGIN, true))
      case Elvis(c, n) => Elvis(c, GraftRight(s, b, n, BEGIN, true))
      case _ => e
  }

  /** The tokens that follow e. */
  function After(s: Sym, b: Expr): seq<Tok> {
    [TSym(s)] + Print(b, RightLevel(Level(s)), false, true)
  }

  /** Above the level of conditionals it does not matter whether the ternary loop is on. */
  lemma {:induction false} TillPrinted(e: Expr, q: nat, till: bool, closed: bool)
    requires q > TERNARY
    ensures Print(e, q, till, closed) == Print(e, q, false, closed)
    decreases e, 0
  {
    hide Level, UnaryLevel, PrintCond;
    if e.Un? {
      TillPrinted(e.expr, Max(UnaryLevel(e.sym), q), till, closed);
    } else if e.Bin? && Level(e.sym) >= q {
      var p := Level(e.sym);
      TillPrinted(e.right, RightLevel(p), till, closed);
      TillLeft(e.left, p, till);
    }
  }

  lemma {:induction false} TillLeft(e: Expr, p: nat, till: bool)
    requires p > TERNARY
    ensures PrintLeft(e, p, till) == PrintLeft(e, p, false)
    decreases e, 1
  {
    hide Level, UnaryLevel, Print;
    TillPrinted(e, LeftLevel(p), till, false);
  }

  /** Above the level of conditionals it does not matter whether an operator follows. */
  lemma {:induction false} ClosedHigh(e: Expr, q: nat, till: bool)
    requires q > TERNARY
    ensures Print(e, q, till, true) == Print(e, q, till, false)
    decreases e
  {
    hide Level, UnaryLevel, PrintCond, PrintLeft;
    if e.Un? {
      ClosedHigh(e.expr, Max(UnaryLevel(e.sym), q), till);
    } else if e.Bin? && Level(e.sym) >= q {
      ClosedHigh(e.right, RightLevel(Level(e.sym)), till && Level(e.sym) >= TERNARY);
    }
  }

  lemma {:induction false} ClosedSame(p: nat, e: Expr, q: nat, till: bool)
    requires WellFormed(e) && q > p && !OpensRight(p, e, q, till)
    ensures Print(e, q, till, true) == Print(e, q, till, false)
    decreases e
  {
    hide Level, UnaryLevel, PrintCond, PrintLeft;
    if e.Un? {
      PrefixAbove(e.sym);
      ClosedHigh(e.expr, Max(UnaryLevel(e.sym), q), till);
    } else if e.Bin? && Level(e.sym) >= q {
      ClosedSame(p, e.right, RightLevel(Level(e.sym)), till && Level(e.sym) >= TERNARY);
    }
  }

  /** A left operand that does not open is printed as the same operand at level q. */
  lemma {:induction false} ClosedRight(p: nat, e: Expr, q: nat, till: bool)
    requires WellFormed(e) && BEGIN <= q <= p && !OpensRight(p, e, q, till)
    ensures PrintLeft(e, p, till) == Print(e, q, till, true)
  {
    hide Level, UnaryLevel, PrintCond;
    if e.Un? {
      PrefixAbove(e.sym);
      ClosedHigh(e.expr, UnaryLevel(e.sym), till);
    } else if e.Bin? && Level(e.sym) >= q {
      ClosedSame(p, e.right, RightLevel(Level(e.sym)), till && Level(e.sym) >= TERNARY);
      hide Print, PrintLeft;
      LeftPrinted(e, p, till);
      BinPrinted(e.sym, e.left, e.right, LeftLevel(p), till, false);
      BinPrinted(e.sym, e.left, e.right, q, till, true);
    }
  }

  lemma {:induction false} AfterPrinted(s: Sym, b: Expr, till: bool)
    requires s != Question
    ensures [TSym(s)] + Print(b, RightLevel(Level(s)), till && Level(s) >= TERNARY, true) == After(s, b)
  {
    hide Level, Print, RightLevel;
    NotTernary(s);
    if till && Level(s) >= TERNARY {
      RightAbove(Level(s));
      TillPrinted(b, RightLevel(Level(s)), true, true);
    }
  }

  lemma RightAbove(p: nat)
    ensures RightLevel(p) >= p
  {
  }

  /** The regrouped expression is printed as the text without the parentheses. */
  lemma {:induction false} GraftRightPrinted(s: Sym, b: Expr, e: Expr, q: nat, till: bool)
    requires WellFormed(Bin(s, e, b)) && BEGIN <= q && (q <= Level(s) || OpensRight(Level(s), e, q, till))
    ensures Print(GraftRight(s, b, e, q, till), q, till, true) == Print(e, q, till, true) + After(s, b)
    decreases e
  {
    hide Level, UnaryLevel, Print, PrintLeft, After, PrintCond;
    var p := Level(s);
    if !OpensRight(p, e, q, till) {
      BinPrinted(s, e, b, q, till, true);
      ClosedRight(p, e, q, till);
      AfterPrinted(s, b, till);
    } else if e.Bin? {
      var t, x, y := e.sym, e.left, e.right;
      var till' := till && Level(t) >= TERNARY;
      assert WellFormed(Bin(s, y, b));
      RightFits(s, t);
      GraftRightPrinted(s, b, y, RightLevel(Level(t)), till');
      BinPrinted(t, x, GraftRight(s, b, y, RightLevel(Level(t)), till'), q, till, true);
      BinPrinted(t, x, y, q, till, true);
    } else if e.Un? {
      var u, x := e.sym, e.expr;
      assert WellFormed(Bin(s, x, b));
      GraftRightPrinted(s, b, x, Max(UnaryLevel(u), q), till);
      UnPrinted(u, GraftRight(s, b, x, Max(UnaryLevel(u), q), till), q, till, true);
      UnPrinted(u, x, q, till, true);
    } else {
      assert WellFormed(Bin(s, e.no, b));
      GraftRightPrinted(s, b, e.no, BEGIN, true);
      NoPrinted(e, q, GraftRight(s, b, e.no, BEGIN, true));
      NoPrinted(e, q, e.no);
    }
  }

  /** A conditional with another last branch. */
  lemma NoPrinted(e: Expr, q: nat, n: Expr)
    requires Conditional(e) && q <= TERNARY
    ensures var c := if e.Cond? then Cond(e.test, e.yes, n) else Elvis(e.test, n);
            Print(c, q, false, true) == PrintTest(e.test) + PrintYes(e) + Print(n, BEGIN, true, true)
  {
    hide PrintTest;
    var c := if e.Cond? then Cond(e.test, e.yes, n) else Elvis(e.test, n);
    assert Print(c, q, false, true) == PrintCond(c, true);
  }

  lemma RightFits(s: Sym, t: Sym)
    requires Level(s) > 0
    ensures Level(t) < LeftLevel(Level(s)) ==> RightLevel(Level(t)) <= Level(s)
  {
    hide Level;
  }

  lemma {:induction false} GraftRightWellFormed(s: Sym, b: Expr, e: Expr, q: nat, till: bool)
    requires WellFormed(Bin(s, e, b))
    ensures WellFormed(GraftRight(s, b, e, q, till))
    decreases e
  {
    hide Level, UnaryLevel;
    if OpensRight(Level(s), e, q, till) {
      if e.Bin? {
        assert WellFormed(Bin(s, e.right, b));
        GraftRightWellFormed(s, b, e.right, RightLevel(Level(e.sym)), till && Level(e.sym) >= TERNARY);
      } else if e.Un? {
        assert WellFormed(Bin(s, e.expr, b));
        GraftRightWellFormed(s, b, e.expr, Max(UnaryLevel(e.sym), q), till);
      } else {
        assert WellFormed(Bin(s, e.no, b));
        GraftRightWellFormed(s, b, e.no, BEGIN, true);
      }
    }
  }

  /** The printer puts parentheses around the left operand e of s. */
  predicate LeftInParens(s: Sym, e: Expr) {
    var p := Level(s);
    (e.Bin? && Level(e.sym) < LeftLevel(p)) || (e.Un? && UnaryLevel(e.sym) <= p) || Conditional(e)
  }

  /** e s b, with e not in parentheses. */
  function BareLeft(s: Sym, e: Expr, b: Expr): seq<Tok> {
    Print(e, BEGIN, false, true) + [TSym(s)] + Print(b, RightLevel(Level(s)), false, true)
  }

  lemma {:induction false} BareLeftPrinted(s: Sym, e: Expr, b: Expr)
    requires WellFormed(Bin(s, e, b)) && LeftInParens(s, e)
    ensures var r := GraftRight(s, b, e, BEGIN, false);
            Print(r, BEGIN, false, true) == BareLeft(s, e, b) && WellFormed(r)
  {
    hide Level, UnaryLevel, Print, GraftRight, OpensRight;
    GraftRightPrinted(s, b, e, BEGIN, false);
    GraftRightWellFormed(s, b, e, BEGIN, false);
  }

  /** Regrouping to the right never gives a number. */
  lemma {:induction false} NoNumber(s: Sym, b: Expr, e: Expr, q: nat, till: bool)
    ensures !Denote(GraftRight(s, b, e, q, till)).VNum?
    decreases e
  {
    hide Level, UnaryLevel, ConvLeft, ConvRight, Transform;
    if OpensRight(Level(s), e, q, till) && e.Un? {
      NoNumber(s, b, e.expr, Max(UnaryLevel(e.sym), q), till);
    }
  }

  lemma UnaryDiffers(u: Sym, v: Vertex, s: Sym, l: Vertex, r: Vertex)
    requires !v.VNum?
    ensures BuildUnary(u, v) != BuildBinary(s, l, r)
  {
    hide ConvLeft, ConvRight, Transform;
  }

  lemma {:induction false} GraftRightDiffers(s: Sym, e: Expr, b: Expr)
    requires WellFormed(Bin(s, e, b)) && LeftInParens(s, e)
    ensures Denote(GraftRight(s, b, e, BEGIN, false)) != Denote(Bin(s, e, b))
  {
    hide Level, UnaryLevel, BuildBinary, BuildUnary, Size, Mirrored;
    if e.Bin? {
      var t, x, y := e.sym, e.left, e.right;
      var g := GraftRight(s, b, y, RightLevel(Level(t)), false);
      BuiltSize(t, Denote(x), Denote(y));
      if Denote(Bin(t, x, g)) == Denote(Bin(s, e, b)) {
        BuiltInjective(t, Denote(x), Denote(g), s, Denote(e), Denote(b));
        MirroredLevel(t, s);
      }
    } else if e.Un? {
      var g := GraftRight(s, b, e.expr, Max(UnaryLevel(e.sym), BEGIN), false);
      NoNumber(s, b, e.expr, Max(UnaryLevel(e.sym), BEGIN), false);
      UnaryDiffers(e.sym, Denote(g), s, Denote(e), Denote(b));
    } else {
      CondDiffers(s, Denote(e), Denote(b));
    }
  }

  lemma CondDiffers(s: Sym, l: Vertex, r: Vertex)
    ensures !BuildBinary(s, l, r).VTernary? && !BuildBinary(s, l, r).VShortTernary?
  {
    hide ConvLeft, ConvRight, Transform;
  }

  /** Where the printer puts parentheses around a left operand they are always needed: the text without
      them is read as the regrouped expression, which has another vertex. */
  lemma {:induction false} LeftParens(s: Sym, e: Expr, b: Expr)
    requires WellFormed(Bin(s, e, b)) && LeftInParens(s, e)
    ensures Print(Bin(s, e, b), BEGIN, false, true)
         == Paren(Print(e, BEGIN, false, true)) + [TSym(s)] + Print(b, RightLevel(Level(s)), false, true)
    ensures Parse(BEGIN, false, BareLeft(s, e, b)) == Parsed(Some(Denote(GraftRight(s, b, e, BEGIN, false))), [])
    ensures Denote(GraftRight(s, b, e, BEGIN, false)) != Denote(Bin(s, e, b))
  {
    hide Level, UnaryLevel, Parse, Print, GraftRight, BareLeft, BuildBinary;
    BinPrinted(s, e, b, BEGIN, false, true);
    if !e.Un? {
      InParens(e, LeftLevel(Level(s)), false, false);
    }
    BareLeftPrinted(s, e, b);
    ParsePrint(GraftRight(s, b, e, BEGIN, false));
    GraftRightDiffers(s, e, b);
  }
}

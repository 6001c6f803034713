/** How the parser groups operators, stated on token texts: from the list of operator groups, weakest
    first, and without the levels the parser works with. */
module ExprReading {
  import opened Wrappers
  import opened ExprParser
  import opened ExprRoundTrip
  import opened ExprParens

  /** Operators of one binding strength. Binary ones group to the left or to the right. */
  datatype Group = Binary(ops: set<Sym>, right: bool) | Prefix(ops: set<Sym>)

  const GROUPS: seq<Group> := [
    Binary({LogOrLet}, false),
    Binary({LogXorLet}, false),
    Binary({LogAndLet}, false),
    Binary({DoubleArrow, Assign, SetAdd, SetSub, SetMul, SetDiv, SetMod, SetPow, SetAnd, SetOr, SetXor, SetDot,
            SetShr, SetShl, SetNullCoalesce}, true),
    Binary({Question}, false),
    Binary({NullCoalesce}, true),
    Binary({LogOr}, false),
    Binary({LogAnd}, false),
    Binary({Or}, false),
    Binary({Xor}, false),
    Binary({And}, false),
    Binary({Eq2, Eq3, Spaceship, Neq2, NeqLg, Neq3}, false),
    Binary({Lt, Le, Gt, Ge}, false),
    Binary({Shr, Shl}, false),
    Binary({Plus, Minus, Dot}, false),
    Binary({Times, Divide, Mod}, false),
    Prefix({Not, LogNot, Minus, Plus, And}),
    Binary({Instanceof}, false),
    Prefix({ConvInt, ConvFloat, ConvString, ConvArray, ConvObject, ConvBool, At}),
    Binary({Pow}, true),
    Prefix({Inc, Dec})]

  /** s is a binary operator of the g-th group. */
  predicate BinaryIn(s: Sym, g: nat) {
    g < |GROUPS| && GROUPS[g].Binary? && s in GROUPS[g].ops && s != Question
  }

  predicate PrefixIn(s: Sym, g: nat) {
    g < |GROUPS| && GROUPS[g].Prefix? && s in GROUPS[g].ops
  }

  lemma Group0(s: Sym)
    ensures s in GROUPS[0].ops <==> Level(s) == 1
  {
  }

  lemma Group1(s: Sym)
    ensures s in GROUPS[1].ops <==> Level(s) == 2
  {
  }

  lemma Group2(s: Sym)
    ensures s in GROUPS[2].ops <==> Level(s) == 3
  {
  }

  lemma Group3(s: Sym)
    ensures s in GROUPS[3].ops <==> Level(s) == 4
  {
    Ops3();
    hide GROUPS;
  }

  lemma Ops3()
    ensures GROUPS[3].ops == {DoubleArrow, Assign, SetAdd, SetSub, SetMul, SetDiv, SetMod, SetPow, SetAnd, SetOr,
      SetXor, SetDot, SetShr, SetShl, SetNullCoalesce}
  {
  }

  lemma Group5(s: Sym)
    ensures s in GROUPS[5].ops <==> Level(s) == 6
  {
  }

  lemma Group6(s: Sym)
    ensures s in GROUPS[6].ops <==> Level(s) == 7
  {
  }

  lemma Group7(s: Sym)
    ensures s in GROUPS[7].ops <==> Level(s) == 8
  {
  }

  lemma Group8(s: Sym)
    ensures s in GROUPS[8].ops <==> Level(s) == 9
  {
  }

  lemma Group9(s: Sym)
    ensures s in GROUPS[9].ops <==> Level(s) == 10
  {
  }

  lemma Group10(s: Sym)
    ensures s in GROUPS[10].ops <==> Level(s) == 11
  {
  }

  lemma Group11(s: Sym)
    ensures s in GROUPS[11].ops <==> Level(s) == 12
  {
    Ops11();
    hide GROUPS;
  }

  lemma Ops11()
    ensures GROUPS[11].ops == {Eq2, Eq3, Spaceship, Neq2, NeqLg, Neq3}
  {
  }

  lemma Group12(s: Sym)
    ensures s in GROUPS[12].ops <==> Level(s) == 13
  {
    Ops12();
    hide GROUPS;
  }

  lemma Ops12()
    ensures GROUPS[12].ops == {Lt, Le, Gt, Ge}
  {
  }

  lemma Group13(s: Sym)
    ensures s in GROUPS[13].ops <==> Level(s) == 14
  {
    Ops13();
    hide GROUPS;
  }

  lemma Ops13()
    ensures GROUPS[13].ops == {Shr, Shl}
  {
  }

  lemma Group14(s: Sym)
    ensures s in GROUPS[14].ops <==> Level(s) == 15
  {
    Ops14();
    hide GROUPS;
  }

  lemma Ops14()
    ensures GROUPS[14].ops == {Plus, Minus, Dot}
  {
  }

  lemma Group15(s: Sym)
    ensures s in GROUPS[15].ops <==> Level(s) == 16
  {
    Ops15();
    hide GROUPS;
  }

  lemma Ops15()
    ensures GROUPS[15].ops == {Times, Divide, Mod}
  {
  }

  lemma Group16(s: Sym)
    ensures s in GROUPS[16].ops <==> UnaryLevel(s) == 17
  {
    Ops16();
    hide GROUPS;
  }

  lemma Ops16()
    ensures GROUPS[16].ops == {Not, LogNot, Minus, Plus, And}
  {
  }

  lemma Group17(s: Sym)
    ensures s in GROUPS[17].ops <==> Level(s) == 18
  {
  }

  lemma Group18(s: Sym)
    ensures s in GROUPS[18].ops <==> UnaryLevel(s) == 19
  {
    Ops18();
    hide GROUPS;
  }

  lemma Ops18()
    ensures GROUPS[18].ops == {ConvInt, ConvFloat, ConvString, ConvArray, ConvObject, ConvBool, At}
  {
  }

  lemma Group19(s: Sym)
    ensures s in GROUPS[19].ops <==> Level(s) == 20
  {
  }

  lemma Group20(s: Sym)
    ensures s in GROUPS[20].ops <==> UnaryLevel(s) == 21
  {
  }

  lemma GroupKinds(g: nat)
    ensures |GROUPS| == 21
    ensures g < 21 ==> (GROUPS[g].Prefix? <==> g == 16 || g == 18 || g == 20)
    ensures g < 21 && GROUPS[g].Binary? ==> (GROUPS[g].right <==> g == 3 || g == 5 || g == 19)
    ensures GROUPS[4].ops == {Question}
  {
  }

  lemma BinaryLevelIs(s: Sym, g: nat)
    requires BinaryIn(s, g)
    ensures Level(s) == g + 1 && LeftToRight(g + 1) == !GROUPS[g].right
  {
    GroupKinds(g);
    hide Level, GROUPS;
    if g == 0 {
      Group0(s);
    } else if g == 1 {
      Group1(s);
    } else if g == 2 {
      Group2(s);
    } else if g == 3 {
      Group3(s);
    } else if g == 5 {
      Group5(s);
    } else if g == 6 {
      Group6(s);
    } else if g == 7 {
      Group7(s);
    } else if g == 8 {
      Group8(s);
    } else if g == 9 {
      Group9(s);
    } else if g == 10 {
      Group10(s);
    } else if g == 11 {
      Group11(s);
    } else if g == 12 {
      Group12(s);
    } else if g == 13 {
      Group13(s);
    } else if g == 14 {
      Group14(s);
    } else if g == 15 {
      Group15(s);
    } else if g == 17 {
      Group17(s);
    } else if g == 19 {
      Group19(s);
    }
  }

  lemma PrefixLevelIs(s: Sym, g: nat)
    requires PrefixIn(s, g)
    ensures UnaryLevel(s) == g + 1
  {
    GroupKinds(g);
    hide UnaryLevel, GROUPS;
    if g == 16 {
      Group16(s);
    } else if g == 18 {
      Group18(s);
    } else if g == 20 {
      Group20(s);
    }
  }

  /** Every operator is in a group. */
  lemma BinaryComplete(s: Sym)
    requires Level(s) > 0 && s != Question
    ensures BinaryIn(s, Level(s) - 1)
  {
    var g := Level(s) - 1;
    BinaryLevels(s);
    GroupKinds(g);
    hide Level, GROUPS;
    if g == 0 {
      Group0(s);
    } else if g == 1 {
      Group1(s);
    } else if g == 2 {
      Group2(s);
    } else if g == 3 {
      Group3(s);
    } else if g == 5 {
      Group5(s);
    } else if g == 6 {
      Group6(s);
    } else if g == 7 {
      Group7(s);
    } else if g == 8 {
      Group8(s);
    } else if g == 9 {
      Group9(s);
    } else if g == 10 {
      Group10(s);
    } else if g == 11 {
      Group11(s);
    } else if g == 12 {
      Group12(s);
    } else if g == 13 {
      Group13(s);
    } else if g == 14 {
      Group14(s);
    } else if g == 15 {
      Group15(s);
    } else if g == 17 {
      Group17(s);
    } else if g == 19 {
      Group19(s);
    }
  }

  /** The levels of binary operators. */
  lemma BinaryLevels(s: Sym)
    requires Level(s) > 0 && s != Question
    ensures 1 <= Level(s) <= 20 && Level(s) !in {5, 17, 19}
  {
  }

  lemma PrefixComplete(s: Sym)
    requires UnaryLevel(s) > 0
    ensures PrefixIn(s, UnaryLevel(s) - 1)
  {
    var g := UnaryLevel(s) - 1;
    PrefixLevels(s);
    GroupKinds(g);
    hide UnaryLevel, GROUPS;
    if g == 16 {
      Group16(s);
    } else if g == 18 {
      Group18(s);
    } else if g == 20 {
      Group20(s);
    }
  }

  lemma PrefixLevels(s: Sym)
    requires UnaryLevel(s) > 0
    ensures UnaryLevel(s) in {17, 19, 21}
  {
  }

  // ----- chains of binary operators -----

  /** Atoms with operators between them. */
  function Chain(xs: seq<nat>, ops: seq<Sym>): seq<Tok>
    requires |xs| == |ops| + 1
    decreases |ops|
  {
    if ops == [] then [TAtom(xs[0])] else [TAtom(xs[0]), TSym(ops[0])] + Chain(xs[1..], ops[1..])
  }

  ghost predicate InGroups(ops: seq<Sym>, gs: seq<nat>) {
    |gs| == |ops| && forall i :: 0 <= i < |ops| ==> BinaryIn(ops[i], gs[i])
  }

  /** The k-th operator is the one read last: none is weaker, and of those of its group it is the first
      if they group to the right, and the last if they group to the left. */
  ghost predicate Outermost(gs: seq<nat>, k: nat) {
    && k < |gs| && gs[k] < |GROUPS| && GROUPS[gs[k]].Binary?
    && (forall i :: 0 <= i < k ==> if GROUPS[gs[k]].right then gs[i] > gs[k] else gs[i] >= gs[k])
    && (forall i :: k < i < |gs| ==> if GROUPS[gs[k]].right then gs[i] >= gs[k] else gs[i] > gs[k])
  }

  /** v is the vertex of a chain, grouped from the outermost operator inwards. */
  ghost predicate Grouped(e: Expr, xs: seq<nat>, ops: seq<Sym>, gs: seq<nat>)
    requires |xs| == |ops| + 1 && |gs| == |ops|
    decreases |ops|
  {
    if ops == [] then e == Atom(xs[0])
    else
      && e.Bin?
      && exists k: nat :: Outermost(gs, k) && GroupedAt(e, xs, ops, gs, k)
  }

  ghost predicate GroupedAt(e: Expr, xs: seq<nat>, ops: seq<Sym>, gs: seq<nat>, k: nat)
    requires |xs| == |ops| + 1 && |gs| == |ops| && k < |ops| && e.Bin?
    decreases |ops|, 0
  {
    && e.sym == ops[k] && Grouped(e.left, xs[..k + 1], ops[..k], gs[..k])
    && Grouped(e.right, xs[k + 1..], ops[k + 1..], gs[k + 1..])
  }

  lemma {:induction false} ChainSplit(xs: seq<nat>, ops: seq<Sym>, k: nat)
    requires |xs| == |ops| + 1 && k < |ops|
    ensures Chain(xs, ops) == Chain(xs[..k + 1], ops[..k]) + [TSym(ops[k])] + Chain(xs[k + 1..], ops[k + 1..])
    decreases k
  {
    if k == 0 {
      assert Chain(xs[..1], ops[..0]) == [TAtom(xs[0])];
    } else {
      ChainSplit(xs[1..], ops[1..], k - 1);
      assert xs[1..][..k] == xs[..k + 1][1..] && ops[1..][..k - 1] == ops[..k][1..];
      assert xs[1..][k..] == xs[k + 1..] && ops[1..][k..] == ops[k + 1..];
      assert Chain(xs[..k + 1], ops[..k]) == [TAtom(xs[0]), TSym(ops[0])] + Chain(xs[..k + 1][1..], ops[..k][1..]);
    }
  }

  /** A grouped chain is printed without parentheses. */
  /** The groups of levels q and above. */
  ghost predicate AllAtLeast(gs: seq<nat>, q: nat) {
    forall i :: 0 <= i < |gs| ==> gs[i] + 1 >= q
  }

  lemma {:induction false} GroupedPrinted(e: Expr, xs: seq<nat>, ops: seq<Sym>, gs: seq<nat>, q: nat, closed: bool)
    requires |xs| == |ops| + 1 && InGroups(ops, gs) && Grouped(e, xs, ops, gs)
    requires AllAtLeast(gs, q)
    ensures Print(e, q, false, closed) == Chain(xs, ops) && WellFormed(e) && !e.Un?
    decreases |ops|
  {
    hide Level, UnaryLevel, LeftToRight, BinaryIn, GROUPS, Print, Chain;
    if ops == [] {
      AtomPrinted(xs, q, closed);
    } else {
      var k: nat :| Outermost(gs, k) && GroupedAt(e, xs, ops, gs, k);
      var p := gs[k] + 1;
      BinaryLevelIs(ops[k], gs[k]);
      Plain(ops[k], gs[k]);
      SidesStronger(ops, gs, k);
      hide InGroups, Outermost;
      GroupedPrinted(e.left, xs[..k + 1], ops[..k], gs[..k], LeftLevel(p), false);
      GroupedPrinted(e.right, xs[k + 1..], ops[k + 1..], gs[k + 1..], RightLevel(p), closed);
      ChainSplit(xs, ops, k);
      BareBin(e, q, closed);
    }
  }

  /** Beside the outermost operator stand only operators that are read before it. */
  lemma SidesStronger(ops: seq<Sym>, gs: seq<nat>, k: nat)
    requires InGroups(ops, gs) && Outermost(gs, k)
    ensures InGroups(ops[..k], gs[..k]) && InGroups(ops[k + 1..], gs[k + 1..])
    ensures AllAtLeast(gs[..k], LeftLevel(gs[k] + 1)) && AllAtLeast(gs[k + 1..], RightLevel(gs[k] + 1))
  {
    hide Level, LeftToRight, BinaryIn, GROUPS;
    BinaryLevelIs(ops[k], gs[k]);
  }

  lemma AtomPrinted(xs: seq<nat>, q: nat, closed: bool)
    requires |xs| == 1
    ensures Print(Atom(xs[0]), q, false, closed) == Chain(xs, [])
  {
  }

  lemma Plain(s: Sym, g: nat)
    requires BinaryIn(s, g)
    ensures s != Question
  {
  }

  lemma BareBin(e: Expr, q: nat, closed: bool)
    requires e.Bin? && q <= Level(e.sym) && !e.left.Un?
    ensures var p := Level(e.sym);
            Print(e, q, false, closed) ==
              Print(e.left, LeftLevel(p), false, false) + [TSym(e.sym)] + Print(e.right, RightLevel(p), false, closed)
  {
    hide Level, UnaryLevel, LeftToRight, Print, PrintLeft;
    BinPrinted(e.sym, e.left, e.right, q, false, closed);
    LeftPrinted(e.left, Level(e.sym), false);
  }

  /** Every chain of atoms and binary operators is read as it is grouped. */
  lemma {:induction false} ChainRead(xs: seq<nat>, ops: seq<Sym>, gs: seq<nat>, e: Expr)
    requires |xs| == |ops| + 1 && InGroups(ops, gs) && Grouped(e, xs, ops, gs)
    ensures Parse(BEGIN, false, Chain(xs, ops)) == Parsed(Some(Denote(e)), [])
  {
    hide Parse, Print, Chain, Grouped, Denote;
    GroupedPrinted(e, xs, ops, gs, BEGIN, true);
    ParsePrint(e);
  }

  /** There is an outermost operator. */
  lemma {:induction false} OutermostExists(ops: seq<Sym>, gs: seq<nat>) returns (k: nat)
    requires ops != [] && InGroups(ops, gs)
    ensures Outermost(gs, k)
  {
    hide GROUPS;
    GroupKinds(gs[0]);
    if |ops| == 1 {
      k := 0;
    } else {
      var n := |ops| - 1;
      var j := OutermostExists(ops[..n], gs[..n]);
      assert gs[..n][j] == gs[j];
      var right := GROUPS[gs[n]].right;
      if gs[n] < gs[j] || (gs[n] == gs[j] && !right) {
        k := n;
      } else {
        k := j;
      }
      forall i | 0 <= i < |gs| && i != k ensures
        if i < k then (if GROUPS[gs[k]].right then gs[i] > gs[k] else gs[i] >= gs[k])
        else (if GROUPS[gs[k]].right then gs[i] >= gs[k] else gs[i] > gs[k])
      {
        if i < n {
          assert gs[..n][i] == gs[i];
        }
      }
    }
  }

  lemma {:induction false} ChainGroups(xs: seq<nat>, ops: seq<Sym>, gs: seq<nat>) returns (e: Expr)
    requires |xs| == |ops| + 1 && InGroups(ops, gs)
    ensures Grouped(e, xs, ops, gs)
    decreases |ops|
  {
    hide Outermost, BinaryIn;
    if ops == [] {
      e := Atom(xs[0]);
    } else {
      var k := OutermostExists(ops, gs);
      OutermostFits(gs, k);
      var l := ChainGroups(xs[..k + 1], ops[..k], gs[..k]);
      var r := ChainGroups(xs[k + 1..], ops[k + 1..], gs[k + 1..]);
      e := Bin(ops[k], l, r);
      assert GroupedAt(e, xs, ops, gs, k);
    }
  }

  lemma OutermostFits(gs: seq<nat>, k: nat)
    requires Outermost(gs, k)
    ensures k < |gs|
  {
  }

  // ----- two operators -----

  /** x s y t z, grouped one way or the other. */
  function Text5(x: nat, s: Sym, y: nat, t: Sym, z: nat): seq<Tok> {
    [TAtom(x), TSym(s), TAtom(y), TSym(t), TAtom(z)]
  }

  /** A stronger operator is read first, on either side. */
  lemma {:induction false} StrongerFirst(s: Sym, g: nat, t: Sym, h: nat, x: nat, y: nat, z: nat)
    requires BinaryIn(s, g) && BinaryIn(t, h) && g < h
    ensures Parse(BEGIN, false, [TAtom(x), TSym(s), TAtom(y), TSym(t), TAtom(z)])
         == Parsed(Some(BuildBinary(s, VAtom(x), BuildBinary(t, VAtom(y), VAtom(z)))), [])
    ensures Parse(BEGIN, false, [TAtom(x), TSym(t), TAtom(y), TSym(s), TAtom(z)])
         == Parsed(Some(BuildBinary(s, BuildBinary(t, VAtom(x), VAtom(y)), VAtom(z))), [])
  {
    hide Parse, Level, UnaryLevel, GROUPS, BuildBinary, LeftToRight;
    BinaryLevelIs(s, g);
    BinaryLevelIs(t, h);
    RightRead(s, t, x, y, z);
    LeftRead(t, s, x, y, z);
  }

  /** Operators of one group are read from the side the group says. */
  lemma {:induction false} SameGroup(s: Sym, t: Sym, g: nat, x: nat, y: nat, z: nat)
    requires BinaryIn(s, g) && BinaryIn(t, g)
    ensures Parse(BEGIN, false, [TAtom(x), TSym(s), TAtom(y), TSym(t), TAtom(z)])
         == Parsed(Some(if GROUPS[g].right then BuildBinary(s, VAtom(x), BuildBinary(t, VAtom(y), VAtom(z)))
                        else BuildBinary(t, BuildBinary(s, VAtom(x), VAtom(y)), VAtom(z))), [])
  {
    hide Parse, Level, UnaryLevel, GROUPS, BuildBinary, LeftToRight;
    BinaryLevelIs(s, g);
    BinaryLevelIs(t, g);
    if GROUPS[g].right {
      RightRead(s, t, x, y, z);
    } else {
      LeftRead(s, t, x, y, z);
    }
  }

  lemma {:induction false} RightRead(s: Sym, t: Sym, x: nat, y: nat, z: nat)
    requires 0 < Level(s) && Level(t) >= RightLevel(Level(s)) && s != Question && t != Question
    ensures Parse(BEGIN, false, Text5(x, s, y, t, z))
         == Parsed(Some(BuildBinary(s, VAtom(x), BuildBinary(t, VAtom(y), VAtom(z)))), [])
  {
    hide Parse, Level, UnaryLevel, Print, BuildBinary;
    var r := Bin(t, Atom(y), Atom(z));
    var e := Bin(s, Atom(x), r);
    BareBin(r, RightLevel(Level(s)), true);
    BareBin(e, BEGIN, true);
    AtomBare(x);
    AtomBare(y);
    AtomBare(z);
    assert WellFormed(Atom(x)) && WellFormed(Atom(y)) && WellFormed(Atom(z)) && WellFormed(r) && WellFormed(e);
    assert Denote(r) == BuildBinary(t, VAtom(y), VAtom(z)) && Denote(e) == BuildBinary(s, VAtom(x), Denote(r));
    assert Print(e, BEGIN, false, true) == Text5(x, s, y, t, z);
    ParsePrint(e);
  }

  /** x s y t z, where s takes its operands first. */
  lemma {:induction false} LeftRead(s: Sym, t: Sym, x: nat, y: nat, z: nat)
    requires 0 < Level(t) && s != Question && t != Question && Level(s) >= LeftLevel(Level(t))
    ensures Parse(BEGIN, false, Text5(x, s, y, t, z))
         == Parsed(Some(BuildBinary(t, BuildBinary(s, VAtom(x), VAtom(y)), VAtom(z))), [])
  {
    hide Parse, Level, UnaryLevel, Print, BuildBinary;
    var l := Bin(s, Atom(x), Atom(y));
    var e := Bin(t, l, Atom(z));
    BareBin(l, LeftLevel(Level(t)), false);
    BareBin(e, BEGIN, true);
    AtomBare(x);
    AtomBare(y);
    AtomBare(z);
    assert WellFormed(Atom(x)) && WellFormed(Atom(y)) && WellFormed(Atom(z)) && WellFormed(l) && WellFormed(e);
    assert Denote(l) == BuildBinary(s, VAtom(x), VAtom(y)) && Denote(e) == BuildBinary(t, Denote(l), VAtom(z));
    assert Print(e, BEGIN, false, true) == Text5(x, s, y, t, z);
    ParsePrint(e);
  }

  lemma AtomBare(x: nat)
    ensures forall q: nat, till: bool, closed: bool :: Print(Atom(x), q, till, closed) == [TAtom(x)]
  {
  }

  // ----- prefix operators -----

  /** A prefix operator before a binary one takes the nearer operand if it is the stronger one, and
      otherwise all of it. */
  lemma {:induction false} PrefixBefore(u: Sym, g: nat, s: Sym, h: nat, x: nat, y: nat)
    requires PrefixIn(u, g) && BinaryIn(s, h)
    ensures Parse(BEGIN, false, [TSym(u), TAtom(x), TSym(s), TAtom(y)])
         == Parsed(Some(if g > h then BuildBinary(s, BuildUnary(u, VAtom(x)), VAtom(y))
                        else BuildUnary(u, BuildBinary(s, VAtom(x), VAtom(y)))), [])
  {
    hide Parse, Level, UnaryLevel, GROUPS, Print, BuildBinary, BuildUnary, LeftToRight;
    PrefixLevelIs(u, g);
    BinaryLevelIs(s, h);
    DifferentGroups(u, g, s, h);
    AtomBare(x);
    AtomBare(y);
    assert WellFormed(Atom(x)) && WellFormed(Atom(y));
    if g > h {
      var l := Un(u, Atom(x));
      var e := Bin(s, l, Atom(y));
      UnPrinted(u, Atom(x), LeftLevel(Level(s)), false, false);
      BinPrinted(s, l, Atom(y), BEGIN, false, true);
      LeftPrinted(l, Level(s), false);
      assert WellFormed(l) && WellFormed(e);
      assert Denote(l) == BuildUnary(u, VAtom(x)) && Denote(e) == BuildBinary(s, Denote(l), VAtom(y));
      assert Print(e, BEGIN, false, true) == [TSym(u), TAtom(x), TSym(s), TAtom(y)];
      ParsePrint(e);
    } else {
      var b := Bin(s, Atom(x), Atom(y));
      var e := Un(u, b);
      UnPrinted(u, b, BEGIN, false, true);
      BareBin(b, UnaryLevel(u), true);
      assert WellFormed(b) && WellFormed(e);
      assert Denote(b) == BuildBinary(s, VAtom(x), VAtom(y)) && Denote(e) == BuildUnary(u, Denote(b));
      assert Print(e, BEGIN, false, true) == [TSym(u), TAtom(x), TSym(s), TAtom(y)];
      ParsePrint(e);
    }
  }

  /** No group has both kinds of operators. */
  lemma DifferentGroups(u: Sym, g: nat, s: Sym, h: nat)
    requires PrefixIn(u, g) && BinaryIn(s, h)
    ensures g != h && s != Question
  {
    hide GROUPS;
  }

  /** t takes an operand that stands between s and t. */
  predicate Tighter(g: nat, h: nat)
    requires g < |GROUPS| && GROUPS[g].Binary?
  {
    g < h || (g == h && GROUPS[g].right)
  }

  lemma {:induction false} TighterLevel(s: Sym, g: nat, t: Sym, h: nat)
    requires BinaryIn(s, g) && BinaryIn(t, h)
    ensures if Tighter(g, h) then Level(t) >= RightLevel(Level(s)) else Level(s) >= LeftLevel(Level(t))
  {
    BinaryLevelIs(s, g);
    BinaryLevelIs(t, h);
    hide *;
    LevelsFit(g + 1, h + 1);
    TighterIs(g, h);
  }

  lemma TighterIs(g: nat, h: nat)
    requires g < |GROUPS| && GROUPS[g].Binary?
    ensures Tighter(g, h) <==> g < h || (g == h && GROUPS[g].right)
  {
    hide GROUPS;
  }

  lemma LevelsFit(p: nat, q: nat)
    ensures if p < q || (p == q && !LeftToRight(p)) then q >= RightLevel(p) else p >= LeftLevel(q)
  {
  }

  /** A prefix operator after a binary one takes the next operand. Of an operator behind that it takes
      the operands only if that operator is stronger than both. */
  lemma {:induction false} PrefixBetween(s: Sym, g: nat, u: Sym, f: nat, t: Sym, h: nat, x: nat, y: nat, z: nat)
    requires BinaryIn(s, g) && PrefixIn(u, f) && BinaryIn(t, h)
    ensures Parse(BEGIN, false, [TAtom(x), TSym(s), TSym(u), TAtom(y)])
         == Parsed(Some(BuildBinary(s, VAtom(x), BuildUnary(u, VAtom(y)))), [])
    ensures Parse(BEGIN, false, [TAtom(x), TSym(s), TSym(u), TAtom(y), TSym(t), TAtom(z)])
         == Parsed(Some(
              if !Tighter(g, h) then BuildBinary(t, BuildBinary(s, VAtom(x), BuildUnary(u, VAtom(y))), VAtom(z))
              else if h < f then BuildBinary(s, VAtom(x), BuildBinary(t, BuildUnary(u, VAtom(y)), VAtom(z)))
              else BuildBinary(s, VAtom(x), BuildUnary(u, BuildBinary(t, VAtom(y), VAtom(z))))), [])
  {
    hide Parse, Level, UnaryLevel, GROUPS, Print, BuildBinary, BuildUnary, LeftToRight, Tighter;
    BetweenOne(s, g, u, f, x, y);
    PrefixLevelIs(u, f);
    BinaryLevelIs(t, h);
    BinaryLevelIs(s, g);
    DifferentGroups(u, f, t, h);
    DifferentGroups(u, f, s, g);
    TighterLevel(s, g, t, h);
    if !Tighter(g, h) {
      BetweenLeft(s, u, t, x, y, z);
    } else if h < f {
      BetweenRight(s, u, t, x, y, z);
    } else {
      BetweenDeep(s, u, t, x, y, z);
    }
  }

  lemma {:induction false} BetweenOne(s: Sym, g: nat, u: Sym, f: nat, x: nat, y: nat)
    requires BinaryIn(s, g) && PrefixIn(u, f)
    ensures Parse(BEGIN, false, [TAtom(x), TSym(s), TSym(u), TAtom(y)])
         == Parsed(Some(BuildBinary(s, VAtom(x), BuildUnary(u, VAtom(y)))), [])
  {
    hide Parse, Level, UnaryLevel, GROUPS, Print, BuildBinary, BuildUnary, LeftToRight;
    BinaryLevelIs(s, g);
    PrefixLevelIs(u, f);
    DifferentGroups(u, f, s, g);
    var r := Un(u, Atom(y));
    var e := Bin(s, Atom(x), r);
    AtomBare(x);
    AtomBare(y);
    UnPrinted(u, Atom(y), RightLevel(Level(s)), false, true);
    BareBin(e, BEGIN, true);
    assert WellFormed(Atom(x)) && WellFormed(Atom(y)) && WellFormed(r) && WellFormed(e);
    assert Denote(r) == BuildUnary(u, VAtom(y)) && Denote(e) == BuildBinary(s, VAtom(x), Denote(r));
    assert Print(e, BEGIN, false, true) == [TAtom(x), TSym(s), TSym(u), TAtom(y)];
    ParsePrint(e);
  }

  function Text6(x: nat, s: Sym, u: Sym, y: nat, t: Sym, z: nat): seq<Tok> {
    [TAtom(x), TSym(s), TSym(u), TAtom(y), TSym(t), TAtom(z)]
  }

  lemma {:induction false} BetweenLeft(s: Sym, u: Sym, t: Sym, x: nat, y: nat, z: nat)
    requires s != Question && t != Question && 0 < Level(s) && 0 < Level(t) && 0 < UnaryLevel(u)
    requires Level(s) >= LeftLevel(Level(t))
    ensures Parse(BEGIN, false, Text6(x, s, u, y, t, z))
         == Parsed(Some(BuildBinary(t, BuildBinary(s, VAtom(x), BuildUnary(u, VAtom(y))), VAtom(z))), [])
  {
    hide Parse, Level, UnaryLevel, Print, BuildBinary, BuildUnary, LeftToRight;
    var r := Un(u, Atom(y));
    var l := Bin(s, Atom(x), r);
    var e := Bin(t, l, Atom(z));
    AtomBare(x);
    AtomBare(y);
    AtomBare(z);
    UnPrinted(u, Atom(y), RightLevel(Level(s)), false, false);
    BareBin(l, LeftLevel(Level(t)), false);
    BareBin(e, BEGIN, true);
    assert WellFormed(Atom(x)) && WellFormed(Atom(y)) && WellFormed(Atom(z)) && WellFormed(r) && WellFormed(l);
    assert WellFormed(e) && Denote(r) == BuildUnary(u, VAtom(y)) && Denote(l) == BuildBinary(s, VAtom(x), Denote(r));
    assert Denote(e) == BuildBinary(t, Denote(l), VAtom(z));
    assert Print(e, BEGIN, false, true) == Text6(x, s, u, y, t, z);
    ParsePrint(e);
  }

  lemma {:induction false} BetweenRight(s: Sym, u: Sym, t: Sym, x: nat, y: nat, z: nat)
    requires s != Question && t != Question && 0 < Level(s) && 0 < Level(t) < UnaryLevel(u)
    requires Level(t) >= RightLevel(Level(s))
    ensures Parse(BEGIN, false, Text6(x, s, u, y, t, z))
         == Parsed(Some(BuildBinary(s, VAtom(x), BuildBinary(t, BuildUnary(u, VAtom(y)), VAtom(z)))), [])
  {
    hide Parse, Level, UnaryLevel, Print, BuildBinary, BuildUnary, LeftToRight;
    var l := Un(u, Atom(y));
    var r := Bin(t, l, Atom(z));
    var e := Bin(s, Atom(x), r);
    AtomBare(x);
    AtomBare(y);
    AtomBare(z);
    UnPrinted(u, Atom(y), LeftLevel(Level(t)), false, false);
    LeftPrinted(l, Level(t), false);
    BinPrinted(t, l, Atom(z), RightLevel(Level(s)), false, true);
    BareBin(e, BEGIN, true);
    assert WellFormed(Atom(x)) && WellFormed(Atom(y)) && WellFormed(Atom(z)) && WellFormed(l) && WellFormed(r);
    assert WellFormed(e) && Denote(l) == BuildUnary(u, VAtom(y)) && Denote(r) == BuildBinary(t, Denote(l), VAtom(z));
    assert Denote(e) == BuildBinary(s, VAtom(x), Denote(r));
    assert Print(e, BEGIN, false, true) == Text6(x, s, u, y, t, z);
    ParsePrint(e);
  }

  lemma {:induction false} BetweenDeep(s: Sym, u: Sym, t: Sym, x: nat, y: nat, z: nat)
    requires s != Question && t != Question && 0 < Level(s) && 0 < UnaryLevel(u) <= Level(t)
    requires Level(t) >= RightLevel(Level(s))
    ensures Parse(BEGIN, false, Text6(x, s, u, y, t, z))
         == Parsed(Some(BuildBinary(s, VAtom(x), BuildUnary(u, BuildBinary(t, VAtom(y), VAtom(z))))), [])
  {
    hide Parse, Level, UnaryLevel, Print, BuildBinary, BuildUnary, LeftToRight;
    var b := Bin(t, Atom(y), Atom(z));
    var r := Un(u, b);
    var e := Bin(s, Atom(x), r);
    AtomBare(x);
    AtomBare(y);
    AtomBare(z);
    UnPrinted(u, b, RightLevel(Level(s)), false, true);
    BareBin(b, Max(UnaryLevel(u), RightLevel(Level(s))), true);
    BareBin(e, BEGIN, true);
    assert WellFormed(Atom(x)) && WellFormed(Atom(y)) && WellFormed(Atom(z)) && WellFormed(b) && WellFormed(r);
    assert WellFormed(e) && Denote(b) == BuildBinary(t, VAtom(y), VAtom(z)) && Denote(r) == BuildUnary(u, Denote(b));
    assert Denote(e) == BuildBinary(s, VAtom(x), Denote(r));
    assert Print(e, BEGIN, false, true) == Text6(x, s, u, y, t, z);
    ParsePrint(e);
  }

  /** Of two prefix operators the second comes first. */
  lemma {:induction false} PrefixTwice(u: Sym, g: nat, v: Sym, h: nat, x: nat)
    requires PrefixIn(u, g) && PrefixIn(v, h)
    ensures Parse(BEGIN, false, [TSym(u), TSym(v), TAtom(x)])
         == Parsed(Some(BuildUnary(u, BuildUnary(v, VAtom(x)))), [])
  {
    hide Parse, Level, UnaryLevel, GROUPS, Print, BuildBinary, BuildUnary;
    PrefixLevelIs(u, g);
    PrefixLevelIs(v, h);
    var i := Un(v, Atom(x));
    var e := Un(u, i);
    AtomBare(x);
    UnPrinted(v, Atom(x), Max(UnaryLevel(u), BEGIN), false, true);
    UnPrinted(u, i, BEGIN, false, true);
    assert WellFormed(Atom(x)) && WellFormed(i) && WellFormed(e);
    assert Denote(i) == BuildUnary(v, VAtom(x)) && Denote(e) == BuildUnary(u, Denote(i));
    assert Print(e, BEGIN, false, true) == [TSym(u), TSym(v), TAtom(x)];
    ParsePrint(e);
  }

  // ----- conditionals -----

  function Choice(c: Vertex, y: Vertex, n: Vertex): Vertex {
    VTernary(VUnary(ConvBool, c), y, n)
  }

  /** An operator before a conditional is part of its condition if it is stronger, and otherwise takes
      the conditional. An operator behind a conditional belongs to its last branch. One between the
      question mark and the colon stays there. */
  lemma {:induction false} ConditionalAnd(s: Sym, g: nat, x: nat, c: nat, y: nat, n: nat)
    requires BinaryIn(s, g)
    ensures Parse(BEGIN, false, [TAtom(x), TSym(s), TAtom(c), TSym(Question), TAtom(y), TColon, TAtom(n)])
         == Parsed(Some(if g > 4 then Choice(BuildBinary(s, VAtom(x), VAtom(c)), VAtom(y), VAtom(n))
                        else BuildBinary(s, VAtom(x), Choice(VAtom(c), VAtom(y), VAtom(n)))), [])
    ensures Parse(BEGIN, false, [TAtom(c), TSym(Question), TAtom(y), TColon, TAtom(n), TSym(s), TAtom(x)])
         == Parsed(Some(Choice(VAtom(c), VAtom(y), BuildBinary(s, VAtom(n), VAtom(x)))), [])
    ensures Parse(BEGIN, false, [TAtom(c), TSym(Question), TAtom(y), TSym(s), TAtom(x), TColon, TAtom(n)])
         == Parsed(Some(Choice(VAtom(c), BuildBinary(s, VAtom(y), VAtom(x)), VAtom(n))), [])
  {
    hide Parse, Level, UnaryLevel, GROUPS, Print, BuildBinary, LeftToRight;
    BinaryLevelIs(s, g);
    Plain(s, g);
    NoTernary(s, g);
    if g > 4 {
      TestRead(s, x, c, y, n);
    } else {
      BeforeRead(s, x, c, y, n);
    }
    LastRead(s, c, y, n, x);
    FirstRead(s, c, y, x, n);
  }

  lemma NoTernary(s: Sym, g: nat)
    requires BinaryIn(s, g)
    ensures g != 4
  {
    GroupKinds(g);
    hide GROUPS;
  }

  lemma {:induction false} CondText(e: Expr, q: nat)
    requires e.Cond? && q <= TERNARY && !Conditional(e.test)
    ensures Print(e, q, false, true) ==
            Print(e.test, TERNARY + 1, false, false) + [TSym(Question)] + Print(e.yes, BEGIN, false, true) + [TColon]
            + Print(e.no, BEGIN, true, true)
  {
    hide Level, UnaryLevel, PrintBin;
    assert Print(e, q, false, true) == PrintCond(e, true);
    hide Print;
    assert PrintTest(e.test) == Print(e.test, TERNARY + 1, false, false);
    assert PrintNo(e.no, true) == Print(e.no, BEGIN, true, true);
    assert PrintYes(e) == [TSym(Question)] + Print(e.yes, BEGIN, false, true) + [TColon];
  }

  lemma {:induction false} TestRead(s: Sym, x: nat, c: nat, y: nat, n: nat)
    requires Level(s) > TERNARY && s != Question
    ensures Parse(BEGIN, false, [TAtom(x), TSym(s), TAtom(c), TSym(Question), TAtom(y), TColon, TAtom(n)])
         == Parsed(Some(Choice(BuildBinary(s, VAtom(x), VAtom(c)), VAtom(y), VAtom(n))), [])
  {
    hide Parse, Level, UnaryLevel, Print, BuildBinary;
    var t := Bin(s, Atom(x), Atom(c));
    var e := Cond(t, Atom(y), Atom(n));
    AtomBare(x);
    AtomBare(c);
    AtomBare(y);
    AtomBare(n);
    BareBin(t, TERNARY + 1, false);
    CondText(e, BEGIN);
    assert WellFormed(Atom(x)) && WellFormed(Atom(c)) && WellFormed(Atom(y)) && WellFormed(Atom(n)) && WellFormed(t);
    assert WellFormed(e) && Denote(t) == BuildBinary(s, VAtom(x), VAtom(c));
    assert Denote(e) == Choice(Denote(t), VAtom(y), VAtom(n));
    assert Print(e, BEGIN, false, true)
        == [TAtom(x), TSym(s), TAtom(c), TSym(Question), TAtom(y), TColon, TAtom(n)];
    ParsePrint(e);
  }

  lemma {:induction false} BeforeRead(s: Sym, x: nat, c: nat, y: nat, n: nat)
    requires 0 < Level(s) < TERNARY && s != Question
    ensures Parse(BEGIN, false, [TAtom(x), TSym(s), TAtom(c), TSym(Question), TAtom(y), TColon, TAtom(n)])
         == Parsed(Some(BuildBinary(s, VAtom(x), Choice(VAtom(c), VAtom(y), VAtom(n)))), [])
  {
    hide Parse, Level, UnaryLevel, Print, BuildBinary;
    var r := Cond(Atom(c), Atom(y), Atom(n));
    var e := Bin(s, Atom(x), r);
    AtomBare(x);
    AtomBare(c);
    AtomBare(y);
    AtomBare(n);
    CondText(r, RightLevel(Level(s)));
    BareBin(e, BEGIN, true);
    assert WellFormed(Atom(x)) && WellFormed(Atom(c)) && WellFormed(Atom(y)) && WellFormed(Atom(n)) && WellFormed(r);
    assert WellFormed(e) && Denote(r) == Choice(VAtom(c), VAtom(y), VAtom(n));
    assert Denote(e) == BuildBinary(s, VAtom(x), Denote(r));
    assert Print(e, BEGIN, false, true)
        == [TAtom(x), TSym(s), TAtom(c), TSym(Question), TAtom(y), TColon, TAtom(n)];
    ParsePrint(e);
  }

  lemma {:induction false} LastRead(s: Sym, c: nat, y: nat, n: nat, x: nat)
    requires 0 < Level(s) && s != Question
    ensures Parse(BEGIN, false, [TAtom(c), TSym(Question), TAtom(y), TColon, TAtom(n), TSym(s), TAtom(x)])
         == Parsed(Some(Choice(VAtom(c), VAtom(y), BuildBinary(s, VAtom(n), VAtom(x)))), [])
  {
    hide Parse, Level, UnaryLevel, Print, PrintLeft, BuildBinary;
    var b := Bin(s, Atom(n), Atom(x));
    var e := Cond(Atom(c), Atom(y), b);
    AtomBare(x);
    AtomBare(c);
    AtomBare(y);
    AtomBare(n);
    BinPrinted(s, Atom(n), Atom(x), BEGIN, true, true);
    LeftPrinted(Atom(n), Level(s), true);
    CondText(e, BEGIN);
    assert WellFormed(Atom(x)) && WellFormed(Atom(c)) && WellFormed(Atom(y)) && WellFormed(Atom(n)) && WellFormed(b);
    assert WellFormed(e) && Denote(b) == BuildBinary(s, VAtom(n), VAtom(x));
    assert Denote(e) == Choice(VAtom(c), VAtom(y), Denote(b));
    assert Print(e, BEGIN, false, true)
        == [TAtom(c), TSym(Question), TAtom(y), TColon, TAtom(n), TSym(s), TAtom(x)];
    ParsePrint(e);
  }

  lemma {:induction false} FirstRead(s: Sym, c: nat, y: nat, x: nat, n: nat)
    requires 0 < Level(s) && s != Question
    ensures Parse(BEGIN, false, [TAtom(c), TSym(Question), TAtom(y), TSym(s), TAtom(x), TColon, TAtom(n)])
         == Parsed(Some(Choice(VAtom(c), BuildBinary(s, VAtom(y), VAtom(x)), VAtom(n))), [])
  {
    hide Parse, Level, UnaryLevel, Print, PrintLeft, BuildBinary;
    var b := Bin(s, Atom(y), Atom(x));
    var e := Cond(Atom(c), b, Atom(n));
    AtomBare(x);
    AtomBare(c);
    AtomBare(y);
    AtomBare(n);
    BareBin(b, BEGIN, true);
    CondText(e, BEGIN);
    assert WellFormed(Atom(x)) && WellFormed(Atom(c)) && WellFormed(Atom(y)) && WellFormed(Atom(n)) && WellFormed(b);
    assert WellFormed(e) && Denote(b) == BuildBinary(s, VAtom(y), VAtom(x));
    assert Denote(e) == Choice(VAtom(c), Denote(b), VAtom(n));
    assert Print(e, BEGIN, false, true)
        == [TAtom(c), TSym(Question), TAtom(y), TSym(s), TAtom(x), TColon, TAtom(n)];
    ParsePrint(e);
  }

  /** Conditionals group to the left, and a conditional without its middle part keeps its condition. */
  lemma {:induction false} ConditionalTwice(c: nat, y: nat, d: nat, z: nat, n: nat)
    ensures Parse(BEGIN, false,
              [TAtom(c), TSym(Question), TAtom(y), TColon, TAtom(d), TSym(Question), TAtom(z), TColon, TAtom(n)])
         == Parsed(Some(Choice(Choice(VAtom(c), VAtom(y), VAtom(d)), VAtom(z), VAtom(n))), [])
    ensures Parse(BEGIN, false, [TAtom(c), TSym(Question), TColon, TAtom(n)])
         == Parsed(Some(VShortTernary(VAtom(c), VAtom(n))), [])
  {
    hide Parse, Level, UnaryLevel;
    var i := Cond(Atom(c), Atom(y), Atom(d));
    var e := Cond(i, Atom(z), Atom(n));
    var k := Elvis(Atom(c), Atom(n));
    assert WellFormed(Atom(c)) && WellFormed(Atom(y)) && WellFormed(Atom(d)) && WellFormed(Atom(z));
    assert WellFormed(Atom(n)) && WellFormed(i) && WellFormed(e) && WellFormed(k);
    assert Denote(i) == Choice(VAtom(c), VAtom(y), VAtom(d)) && Denote(e) == Choice(Denote(i), VAtom(z), VAtom(n));
    TwiceText(c, y, d, z, n);
    ParsePrint(e);
    ParsePrint(k);
  }

  lemma {:induction false} TwiceText(c: nat, y: nat, d: nat, z: nat, n: nat)
    ensures Print(Cond(Cond(Atom(c), Atom(y), Atom(d)), Atom(z), Atom(n)), BEGIN, false, true)
         == [TAtom(c), TSym(Question), TAtom(y), TColon, TAtom(d), TSym(Question), TAtom(z), TColon, TAtom(n)]
    ensures Print(Elvis(Atom(c), Atom(n)), BEGIN, false, true) == [TAtom(c), TSym(Question), TColon, TAtom(n)]
  {
    var i := Cond(Atom(c), Atom(y), Atom(d));
    var e := Cond(i, Atom(z), Atom(n));
    var k := Elvis(Atom(c), Atom(n));
    AtomBare(c);
    AtomBare(y);
    AtomBare(d);
    AtomBare(z);
    AtomBare(n);
    hide Level, UnaryLevel;
    assert PrintNo(Atom(d), false) == [TAtom(d)] && PrintNo(Atom(n), true) == [TAtom(n)];
    assert PrintTest(Atom(c)) == [TAtom(c)] && PrintYes(i) == [TSym(Question), TAtom(y), TColon];
    assert PrintTest(i) == PrintCond(i, false) == PrintTest(Atom(c)) + PrintYes(i) + PrintNo(Atom(d), false);
    assert PrintYes(e) == [TSym(Question), TAtom(z), TColon] && PrintYes(k) == [TSym(Question), TColon];
    assert Print(e, BEGIN, false, true) == PrintCond(e, true) == PrintTest(i) + PrintYes(e) + PrintNo(Atom(n), true);
    assert Print(k, BEGIN, false, true) == PrintCond(k, true);
  }
}

/** Repairing one flipped bit of a block or of its CRC-32: a baby-step/giant-step search for the
    exponent of the difference, and the correction of the bit with that exponent. */
module CrcRepair {
  import opened Bits
  import opened Gf
  import opened CrcBase
  import opened CrcCombine

  const P: nat := POLY32

  /** x^k in the CRC-32 field. */
  function Xk(k: nat): nat {
    X(P, 32, k)
  }

  // ----- powers -----

  lemma {:induction false} Bounds()
    ensures P < W32 == Pow2(32) && INVERSE < W32 && One(32) == 0x8000_0000 <= P
  {
    Pow2Word();
  }

  function Power(a: nat, k: nat): nat {
    if k == 0 then One(32) else Mul(P, 32, Power(a, k - 1), a)
  }

  lemma {:induction false} PowerBound(a: nat, k: nat)
    requires a < Pow2(32)
    ensures Power(a, k) < Pow2(32)
  {
    hide Mul, Pow2;
    Bounds();
    if k > 0 {
      PowerBound(a, k - 1);
      MulBound(P, 32, Power(a, k - 1), a);
    }
  }

  lemma {:induction false} PowerSquare(a: nat, k: nat)
    requires a < Pow2(32)
    ensures Power(Mul(P, 32, a, a), k) == Power(a, 2 * k)
  {
    hide Mul, Pow2;
    Bounds();
    if k > 0 {
      PowerSquare(a, k - 1);
      PowerBound(a, 2 * (k - 1));
      MulAssoc(P, 32, Power(a, 2 * (k - 1)), a, a);
      assert Power(a, 2 * k) == Mul(P, 32, Power(a, 2 * k - 1), a);
      assert Power(a, 2 * k - 1) == Mul(P, 32, Power(a, 2 * k - 2), a);
    }
  }

  /** gf32_pow: square and multiply. */
  method GfPow(a: nat, k: nat) returns (x: nat)
    requires a < Pow2(32)
    ensures x == Power(a, k)
    decreases k
  {
    hide Mul, Pow2;
    Bounds();
    if k == 0 {
      return One(32);
    }
    var square := GfMul(P, 32, a, a);
    MulBound(P, 32, a, a);
    x := GfPow(square, k / 2);
    PowerSquare(a, k / 2);
    if k % 2 == 1 {
      x := GfMul(P, 32, x, a);
    }
  }

  /** 1/x, the word 0xdb710641. */
  const INVERSE: nat := 0xdb710641

  lemma {:induction false} InverseIs()
    ensures Mulx(P, INVERSE) == One(32)
  {
    hide Xor, Shl;
    var a := 0x6db88320;
    assert Pow2(31) == 0x8000_0000 by { Pow2Word(); }
    ShlIs(0, 31);
    ShlIs(1, 31);
    XorSplit(a, 0, a, 1, 31);
    XorSelf(a);
    XorZero(1);
  }

  /** Multiplying by the k-th power of 1/x undoes k multiplications by x. */
  lemma {:induction false} PowerOfInverse(k: nat)
    ensures MulxN(P, Power(INVERSE, k), k) == One(32)
  {
    hide Mul, Mulx, Pow2, MulxN;
    InverseIs();
    Bounds();
    if k == 0 {
      MulxNZeroTimes(P, One(32));
    } else {
      var a := Power(INVERSE, k - 1);
      PowerOfInverse(k - 1);
      PowerBound(INVERSE, k - 1);
      MulMulxN(P, 32, a, INVERSE, k - 1);
      MulxNAdd(P, Mul(P, 32, a, INVERSE), k - 1, 1);
      MulOne(P, 32, INVERSE);
      MulxNOnce(P, INVERSE);
    }
  }

  // ----- the search -----

  datatype Entry = Entry(p: nat, i: nat)

  /** cmp_fcb_table_entry: by word, then by exponent. */
  predicate Before(a: Entry, b: Entry) {
    a.p < b.p || (a.p == b.p && a.i <= b.i)
  }

  ghost predicate Sorted(t: seq<Entry>) {
    forall i, j :: 0 <= i < j < |t| ==> Before(t[i], t[j])
  }

  /** The library sort. */
  method Sort(t: seq<Entry>) returns (s: seq<Entry>)
    ensures Sorted(s) && multiset(s) == multiset(t)
  {
    s := [];
    for n := 0 to |t|
      invariant Sorted(s) && multiset(s) == multiset(t[..n])
    {
      assert t[..n + 1] == t[..n] + [t[n]];
      s := InsertSorted(s, t[n]);
    }
    assert t[..|t|] == t;
  }

  method InsertSorted(s: seq<Entry>, e: Entry) returns (r: seq<Entry>)
    requires Sorted(s)
    ensures Sorted(r) && multiset(r) == multiset(s) + multiset{e}
  {
    hide Before;
    var k := 0;
    while k < |s| && Before(s[k], e)
      invariant 0 <= k <= |s| && forall i :: 0 <= i < k ==> Before(s[i], e)
    {
      k := k + 1;
    }
    AllAfter(s, e, k);
    InsertedSorted(s, e, k);
    assert s == s[..k] + s[k..];
    r := s[..k] + [e] + s[k..];
  }

  lemma AllAfter(s: seq<Entry>, e: Entry, k: nat)
    requires Sorted(s) && k <= |s| && (k < |s| ==> !Before(s[k], e))
    ensures forall j :: k <= j < |s| ==> Before(e, s[j])
  {
  }

  lemma {:induction false} InsertedSorted(s: seq<Entry>, e: Entry, k: nat)
    requires Sorted(s) && k <= |s| && (forall i :: 0 <= i < k ==> Before(s[i], e))
    requires forall j :: k <= j < |s| ==> Before(e, s[j])
    ensures Sorted(s[..k] + [e] + s[k..])
  {
    hide Before;
    var r := s[..k] + [e] + s[k..];
    forall i, j | 0 <= i < j < |r| ensures Before(r[i], r[j]) {
      assert r[i] == if i < k then s[i] else if i == k then e else s[i - 1];
      assert r[j] == if j < k then s[j] else if j == k then e else s[j - 1];
    }
  }

  /** The table of baby steps before sorting: entry i is x^i. */
  ghost predicate BabySteps(t: seq<Entry>) {
    forall i :: 0 <= i < |t| ==> t[i] == Entry(Xk(i), i)
  }

  method BuildTable(r: nat) returns (t: seq<Entry>)
    requires r >= 1
    ensures |t| == r && Sorted(t)
    ensures forall i :: 0 <= i < r ==> Entry(Xk(i), i) in t
    ensures forall e :: e in t ==> e.i < r && e.p == Xk(e.i)
  {
    hide MulxN, Mulx;
    MulxNZeroTimes(P, One(32));
    var u := [Entry(One(32), 0)];
    for i := 1 to r
      invariant |u| == i && BabySteps(u)
    {
      XNext(P, 32, i - 1);
      u := u + [Entry(Mulx(P, u[i - 1].p), i)];
    }
    t := Sort(u);
    SameLength(t, u);
    forall i | 0 <= i < r ensures Entry(Xk(i), i) in t {
      assert u[i] in multiset(u);
    }
    forall e | e in t ensures e.i < r && e.p == Xk(e.i) {
      assert e in multiset(t);
      assert e in u;
    }
  }

  lemma SameLength<T>(a: seq<T>, b: seq<T>)
    requires multiset(a) == multiset(b)
    ensures |a| == |b|
  {
    assert |multiset(a)| == |a| && |multiset(b)| == |b|;
  }

  /** The bisection: the last entry whose word is at most x. */
  method Bisect(t: seq<Entry>, x: nat) returns (a: int)
    requires Sorted(t)
    ensures -1 <= a < |t|
    ensures a >= 0 ==> t[a].p <= x
    ensures (exists e :: e in t && e.p == x) <==> a >= 0 && t[a].p == x
  {
    a := -1;
    var b := |t|;
    while b - a > 1
      invariant -1 <= a < b <= |t|
      invariant a >= 0 ==> t[a].p <= x
      invariant b < |t| ==> x < t[b].p
    {
      var c := (a + b) / 2;
      if t[c].p <= x {
        a := c;
      } else {
        b := c;
      }
    }
    if e :| e in t && e.p == x {
      var k :| 0 <= k < |t| && t[k] == e;
      assert k <= a;
      assert k < a ==> Before(t[k], t[a]);
    }
  }

  /** The matrix of the giant step: rows q x^(31 - i), that is, multiplication by q. */
  method GiantMatrix(q: nat) returns (m: array<nat>)
    requires q < Pow2(32)
    ensures fresh(m) && m.Length == 32 && MultipliesBy(P, 32, m[..], q, 0)
  {
    hide MulxN, Mulx, Mul, Pow2;
    m := new nat[32](_ => 0);
    m[31] := q;
    MulxNZeroTimes(P, q);
    for i := 31 downto 0
      invariant forall k :: i <= k < 32 ==> m[k] == MulxN(P, q, 31 - k)
    {
      MulxNNext(P, q, 30 - i);
      m[i] := Mulx(P, m[i + 1]);
    }
    forall k | 0 <= k < 32 ensures m[k] == Mul(P, 32, Shl(1, 0 + k), q) {
      XSmall(P, 32, 31 - k);
      ShlIs(1, k);
      MulMulxN(P, 32, One(32), q, 31 - k);
      MulOne(P, 32, q);
    }
  }

  lemma {:induction false} MulxNNext(p: nat, x: nat, n: nat)
    ensures MulxN(p, x, n + 1) == Mulx(p, MulxN(p, x, n))
  {
  }

  /** A giant step divides by x^r. */
  lemma {:induction false} GiantStep(x: nat, r: nat, s: nat)
    requires x < W32
    ensures Power(INVERSE, r) < W32
    ensures Mul(P, 32, x, Power(INVERSE, r)) < W32
    ensures MulxN(P, Mul(P, 32, x, Power(INVERSE, r)), r + s) == MulxN(P, x, s)
  {
    hide Mul, MulxN, Pow2, Power;
    var q := Power(INVERSE, r);
    Bounds();
    PowerBound(INVERSE, r);
    MulComm(P, 32, x, q);
    MulBound(P, 32, x, q);
    PowerOfInverse(r);
    MulMulxN(P, 32, q, x, r);
    MulOne(P, 32, x);
    MulxNAdd(P, Mul(P, 32, x, q), r, s);
  }

  /** The word left after s has been divided out is a baby step exactly when some exponent of this
      stride fits. */
  lemma {:induction false} StrideHit(d: nat, x: nat, s: nat, i: nat)
    requires x < W32 && MulxN(P, x, s) == d
    ensures Xk(i + s) == d <==> Xk(i) == x
  {
    hide MulxN, Pow2;
    Bounds();
    MulxNAdd(P, One(32), i, s);
    MulxNBound(P, One(32), i, 32);
    if Xk(i + s) == d {
      MulxNInjective(P, Xk(i), x, s, 32);
    }
  }

  /** crc32_find_corrupted_bit. The stride r is the rounded square root of n; any positive stride
      gives the same guarantee. */
  method FindCorruptedBit(size: nat, d: nat, r: nat) returns (res: int)
    requires r >= 1 && d < W32
    ensures res >= -1
    ensures res >= 0 ==> res < SearchBound(size, r) && Xk(res) == d
    ensures res == -1 ==> forall k :: 0 <= k < SearchBound(size, r) ==> Xk(k) != d
  {
    hide Mul, MulxN, Pow2, Power, Xk;
    Bounds();
    var n := 8 * (size + 4);
    var t := BuildTable(r);
    var q := GfPow(INVERSE, r);
    PowerBound(INVERSE, r);
    var m := GiantMatrix(q);
    var x: nat := d;
    MulxNZeroTimes(P, d);
    var maxJ := n / r;
    for j := 0 to maxJ + 1
      invariant x < W32 && MulxN(P, x, r * j) == d
      invariant forall k :: 0 <= k < r * j ==> Xk(k) != d
      invariant MultipliesBy(P, 32, m[..], q, 0)
    {
      var s := r * j;
      assert s + r == r * (j + 1) <= r * (maxJ + 1);
      var a := Bisect(t, x);
      if a >= 0 && t[a].p == x {
        StrideHit(d, x, s, t[a].i);
        return t[a].i + s;
      }
      forall k | s <= k < s + r ensures Xk(k) != d {
        assert Entry(Xk(k - s), k - s) in t;
        StrideHit(d, x, s, k - s);
      }
      GiantStep(x, r, s);
      assert m[..] == m[0..0 + 32];
      TimesIsMul(P, 32, m[..], q, x, 0);
      x := MatrixTimes(m, 0, x);
    }
    res := -1;
  }

  /** The search covers every exponent below this bound, which is above 8 * (size + 4). */
  function SearchBound(size: nat, r: nat): (b: nat)
    requires r >= 1
    ensures b > 8 * (size + 4)
  {
    r * (8 * (size + 4) / r + 1)
  }

  // ----- one bit and its exponent -----

  /** The block with bit j of byte i inverted. */
  function FlipAt(data: seq<Byte>, i: nat, j: nat): (r: seq<Byte>)
    requires i < |data| && j < 8
    ensures |r| == |data|
  {
    XorBound(data[i], Pow2(j), 8);
    data[i := Xor(data[i], Pow2(j))]
  }

  /** The block with the data bit of exponent k inverted: exponents count from the last bit of the
      CRC, so the block starts at 32. */
  function Flip(data: seq<Byte>, k: nat): (r: seq<Byte>)
    requires 32 <= k < 8 * (|data| + 4)
    ensures |r| == |data|
  {
    FlipAt(data, |data| - 1 - (k - 32) / 8, 7 - k % 8)
  }

  lemma {:induction false} LeFlip(data: seq<Byte>, i: nat, j: nat)
    requires i < |data| && j < 8
    ensures Le(FlipAt(data, i, j)) == Xor(Le(data), Shl(Pow2(j), 8 * i))
    decreases |data|
  {
    hide Xor, Pow2, Shl;
    var b, h, f := data[0], Le(data[1..]), Pow2(j);
    Pow2Byte();
    Pow2Mono8(j);
    ShlIs(0, 8);
    ShlZeroBits(f);
    if i == 0 {
      assert FlipAt(data, 0, j)[1..] == data[1..];
      XorSplit(b, h, f, 0, 8);
      XorZero(h);
    } else {
      assert FlipAt(data, i, j)[1..] == FlipAt(data[1..], i - 1, j);
      LeFlip(data[1..], i - 1, j);
      ShlShl(f, 8 * (i - 1), 8);
      XorSplit(b, h, 0, Shl(f, 8 * (i - 1)), 8);
      XorZero(b);
    }
  }

  lemma {:induction false} ShlZeroBits(f: nat)
    ensures Shl(f, 0) == f
  {
  }

  lemma {:induction false} Pow2Mono8(j: nat)
    requires j < 8
    ensures Pow2(j) < 256
  {
    Pow2Mono(j, 7);
  }

  /** Inverting the bit of exponent k adds x^k to the CRC. */
  lemma {:induction false} FlipAdds(data: seq<Byte>, k: nat)
    requires 32 <= k < 8 * (|data| + 4)
    ensures Compute(P, 32, Flip(data, k)) == Xor(Compute(P, 32, data), Xk(k))
  {
    hide Xor, Pow2, Shl, MulxN, Le, Crc, FlipAt;
    var l := |data|;
    var i, j := l - 1 - (k - 32) / 8, 7 - k % 8;
    var ones := Pow2(32) - 1;
    var e := Shl(Pow2(j), 8 * i);
    LeFlip(data, i, j);
    CrcIs(P, ones, data);
    CrcIs(P, ones, Flip(data, k));
    XorAssoc(ones, Le(data), e);
    MulxNXor(P, Xor(ones, Le(data)), e, 8 * l);
    BitExponent(j, i, l, k);
    XorAssoc(Crc(P, ones, data), Xk(k), ones);
    XorComm(Xk(k), ones);
    XorAssoc(Crc(P, ones, data), ones, Xk(k));
  }

  lemma {:induction false} BitExponent(j: nat, i: nat, l: nat, k: nat)
    requires j < 8 && i < l && k == 8 * (l - i) + 31 - j
    ensures MulxN(P, Shl(Pow2(j), 8 * i), 8 * l) == Xk(k)
  {
    hide MulxN, Shl, Pow2;
    MulxNShl(P, Pow2(j), 8 * i, 8 * l);
    XSmall(P, 32, 31 - j);
    MulxNAdd(P, One(32), 31 - j, 8 * (l - i));
  }

  lemma {:induction false} FlipTwice(data: seq<Byte>, k: nat)
    requires 32 <= k < 8 * (|data| + 4)
    ensures Flip(Flip(data, k), k) == data
  {
    hide Xor, Pow2;
    var i, j := |data| - 1 - (k - 32) / 8, 7 - k % 8;
    XorCancel(data[i], Pow2(j));
  }

  lemma ByteOfExponent(k: nat, idx: nat, bit: nat, m: int)
    requires idx == k / 32 && bit < 8 && bit + 8 * (m - 4 * idx) == k % 32
    ensures m == k / 8 && bit == k % 8
  {
    assert k == 32 * idx + k % 32 == bit + 8 * m;
  }

  /** crc32_repair_bit. */
  method RepairBit(input: array<Byte>, k: int) returns (code: int)
    modifies input
    ensures code == if k < 0 then -1 else if k >= 8 * (input.Length + 4) then -2 else if k < 32 then -3 else 0
    ensures input[..] == if code == 0 then Flip(old(input[..]), k) else old(input[..])
  {
    hide Xor, Pow2;
    if k < 0 {
      return -1;
    }
    var l := input.Length;
    var idx, bit := k / 32, k % 32;
    var i := (l - 1) - (idx - 1) * 4;
    while bit >= 8
      invariant 0 <= bit && bit + 8 * (l + 3 - 4 * idx - i) == k % 32
    {
      i := i - 1;
      bit := bit - 8;
    }
    ByteOfExponent(k, idx, bit, l + 3 - i);
    if i < 0 {
      return -2;
    }
    if i >= l {
      return -3;
    }
    var j := 7 - bit;
    Pow2Mono8(j);
    Pow2Byte();
    XorBound(input[i], Pow2(j), 8);
    input[i] := Xor(input[i], Pow2(j));
    code := 0;
  }

  // ----- check and repair -----

  /** The return code with the CRC left in *input_crc32, or the failed assertion of force_exit. */
  datatype Outcome = Returned(code: int, crc: nat) | Aborted

  /** The word that separates the computed CRC from the stored one. */
  function Diff(data: seq<Byte>, crc: nat): nat {
    Xor(Compute(P, 32, data), crc)
  }

  /** No power of x repeats below the bound. */
  ghost predicate Distinct(bound: nat) {
    forall i, j :: 0 <= i < j < bound ==> Xk(i) != Xk(j)
  }

  /** crc32_check_and_repair, with the stride of the search as a parameter. */
  method CheckAndRepair(input: array<Byte>, crc: nat, r: nat, forceExit: bool) returns (o: Outcome)
    requires r >= 1 && crc < W32
    modifies input
    // the block and the CRC that are left always agree
    ensures o.Returned? ==> o.crc == Compute(P, 32, input[..])
    ensures o.Returned? ==> o.code in {-1, 0, 1, 2}
    ensures o == Returned(0, crc) <==> Compute(P, 32, old(input[..])) == crc
    // code 1 changes one bit of the block and keeps the CRC; everything else keeps the block
    ensures o.Returned? && o.code == 1 ==> o.crc == crc
    ensures o.Returned? && o.code == 1 ==>
      exists k :: 32 <= k < 8 * (input.Length + 4) && input[..] == Flip(old(input[..]), k)
    ensures !(o.Returned? && o.code == 1) ==> input[..] == old(input[..])
    // code 2 changes one bit of the CRC
    ensures o.Returned? && o.code == 2 ==> exists j :: 0 <= j < 32 && o.crc == Xor(crc, Pow2(j))
    ensures o.Aborted? ==> forceExit
    ensures o.Returned? && o.code == -1 ==> !forceExit
    // a single flipped bit is always recognised as what it is
    ensures Distinct(SearchBound(input.Length, r)) ==>
      forall k :: 0 <= k < 8 * (input.Length + 4) && Xk(k) == Diff(old(input[..]), crc) ==>
        if k < 32 then o == Returned(2, Compute(P, 32, old(input[..])))
        else o == Returned(1, crc) && input[..] == Flip(old(input[..]), k)
  {
    hide Xor, Compute, Flip, Xk, And, Pow2, Distinct;
    var l := input.Length;
    ghost var before := input[..];
    var computed := Compute(P, 32, input[..]);
    ComputeBound(input[..]);
    var diff := Xor(computed, crc);
    DiffZero(computed, crc);
    if diff == 0 {
      forall k | 0 <= k < 8 * (l + 4) ensures Xk(k) != 0 {
        PowerNotZero(k);
      }
      return Returned(0, crc);
    }
    var k := FindCorruptedBit(l, diff, r);
    ghost var distinct := Distinct(SearchBound(l, r));
    if distinct {
      UniqueExponent(SearchBound(l, r), 8 * (l + 4), diff, k);
    }
    var code := RepairBit(input, k);
    if code == 0 {
      FlipAdds(before, k);
      XorCancel(crc, computed);
      XorComm(computed, crc);
      assert Compute(P, 32, input[..]) == crc;
      return Returned(1, crc);
    }
    if And(diff, diff - 1) == 0 {
      ghost var j := PowerDiff(computed, crc);
      return Returned(2, computed);
    }
    if 0 <= k < 32 {
      LowExponent(k);
      assert false;
    }
    if forceExit {
      return Aborted;
    }
    return Returned(-1, computed);
  }

  lemma {:induction false} ComputeBound(data: seq<Byte>)
    ensures Compute(P, 32, data) < W32
  {
    hide Xor, Crc, Pow2;
    Bounds();
    CrcBound(P, Pow2(32) - 1, data, 32);
    XorBound(Crc(P, Pow2(32) - 1, data), Pow2(32) - 1, 32);
  }

  lemma {:induction false} DiffZero(a: nat, b: nat)
    requires a < W32 && b < W32
    ensures Xor(a, b) == 0 <==> a == b
    ensures Xor(a, b) < W32
  {
    hide Xor, Pow2;
    Bounds();
    XorSelf(a);
    XorBound(a, b, 32);
    XorCancel(a, b);
    XorZero(b);
  }

  lemma {:induction false} PowerNotZero(k: nat)
    ensures Xk(k) != 0
  {
    hide MulxN, Pow2;
    Bounds();
    MulxNZero(P, k);
    if Xk(k) == 0 {
      MulxNInjective(P, One(32), 0, k, 32);
      assert false;
    }
  }

  /** With distinct powers the search can only return the exponent that caused the difference. */
  lemma UniqueExponent(bound: nat, n: nat, d: nat, found: int)
    requires Distinct(bound) && n <= bound && -1 <= found < bound
    requires found >= 0 ==> Xk(found) == d
    requires found == -1 ==> forall k :: 0 <= k < bound ==> Xk(k) != d
    ensures forall k :: 0 <= k < n && Xk(k) == d ==> k == found
  {
    hide Xk;
  }

  lemma {:induction false} PowerDiff(a: nat, b: nat) returns (j: nat)
    requires Xor(a, b) > 0 && Xor(a, b) < W32 && And(Xor(a, b), Xor(a, b) - 1) == 0
    ensures j < 32 && a == Xor(b, Pow2(j))
  {
    hide Xor, And, Pow2;
    Bounds();
    j := PassesOnlyPowers(Xor(a, b));
    if j >= 32 {
      Pow2Mono(32, j);
    }
    XorCancel(a, b);
    XorComm(b, Pow2(j));
  }

  /** The exponents below 32 are the bits of the CRC itself. */
  lemma {:induction false} LowExponent(k: nat)
    requires k < 32
    ensures Xk(k) == Pow2(31 - k) && And(Xk(k), Xk(k) - 1) == 0
  {
    hide And, Pow2;
    XSmall(P, 32, k);
    PowerOfTwoPasses(31 - k);
  }

  /** A block with one bit inverted, checked against the CRC of the original, differs by the power
      of that bit, and inverting the bit again gives the original back. */
  lemma {:induction false} DataBitDiffers(data: seq<Byte>, k: nat)
    requires 32 <= k < 8 * (|data| + 4)
    ensures Diff(Flip(data, k), Compute(P, 32, data)) == Xk(k)
    ensures Flip(Flip(data, k), k) == data
  {
    hide Xor, Compute, Flip, Xk;
    FlipAdds(data, k);
    FlipTwice(data, k);
    XorComm(Compute(P, 32, data), Xk(k));
    XorCancel(Xk(k), Compute(P, 32, data));
  }

  /** A CRC with one bit inverted differs by a power below x^32. */
  lemma {:induction false} CrcBitDiffers(data: seq<Byte>, k: nat)
    requires k < 32
    ensures Diff(data, Xor(Compute(P, 32, data), Pow2(31 - k))) == Xk(k)
  {
    hide Xor, Compute, Xk, Pow2;
    LowExponent(k);
    XorCancel(Pow2(31 - k), Compute(P, 32, data));
  }
}

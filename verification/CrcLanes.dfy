/** CRC-32C with the crc32 instructions: three interleaved lanes whose registers are merged by
    carry-less multiplication. */
module CrcLanes {
  import opened Bits
  import opened Gf
  import opened CrcBase

  const P: nat := POLY32C

  // ----- the instructions -----

  /** crc32b, crc32w, crc32l and crc32q: the operand is added to the register and reduced. */
  function CrcInstr(c: nat, operand: nat, bits: nat): nat {
    MulxN(P, Xor(c, operand), bits)
  }

  lemma {:induction false} CrcInstrIs(c: nat, bytes: seq<Byte>)
    ensures CrcInstr(c, Le(bytes), 8 * |bytes|) == Crc(P, c, bytes)
  {
    CrcIs(P, c, bytes);
  }

  /** pclmulqdq: the product of two words as polynomials, not reduced. */
  function Clmul(a: nat, b: nat): nat
    decreases b
  {
    if b == 0 then 0 else Xor(Pick(b, a), 2 * Clmul(a, b / 2))
  }

  lemma {:induction false} ClmulBound(a: nat, b: nat, m: nat, n: nat)
    requires a < Pow2(m) && b < Pow2(n)
    ensures Clmul(a, b) < Pow2(m + n)
    decreases n
  {
    hide Xor;
    if b != 0 {
      ClmulBound(a, b / 2, m, n - 1);
      Pow2Mono(m, m + n);
      XorBound(Pick(b, a), 2 * Clmul(a, b / 2), m + n);
    }
  }

  /** Reducing a carry-less product by n bits is the field product times x: the bits of an
      unreduced product of reflected polynomials sit one place too high. */
  lemma {:induction false} ReduceClmul(p: nat, x: nat, a: nat, b: nat, n: nat)
    requires b < Pow2(n)
    ensures Mulx(p, Horner(p, x, a, b, n)) == Xor(MulxN(p, x, n + 1), MulxN(p, Clmul(a, b), n))
    decreases n
  {
    hide Xor, Mulx, Pick;
    if n == 0 {
      MulxNZeroTimes(p, 0);
      XorZero(Mulx(p, x));
    } else {
      var x', f := Xor(Mulx(p, x), Pick(b, a)), Clmul(a, b / 2);
      ReduceClmul(p, x', a, b / 2, n - 1);
      ClmulStep(a, b);
      hide MulxN;
      MulxNXor(p, Mulx(p, x), Pick(b, a), n);
      MulxNXor(p, Pick(b, a), 2 * f, n);
      assert Shl(f, 1) == 2 * f;
      MulxNShl(p, f, 1, n);
      MulxNAdd(p, x, 1, n);
      MulxNOnce(p, x);
      XorAssoc(MulxN(p, Mulx(p, x), n), MulxN(p, Pick(b, a), n), MulxN(p, f, n - 1));
    }
  }

  lemma {:induction false} ClmulStep(a: nat, b: nat)
    ensures Clmul(a, b) == Xor(Pick(b, a), 2 * Clmul(a, b / 2))
  {
    if b == 0 {
      XorZero(0);
    }
  }

  /** Multiplying by x^(k - 1) without carries and then reducing 32 bits is multiplying by x^k. */
  lemma {:induction false} ClmulPower(c: nat, k: nat)
    requires c < W32 && k > 0
    ensures MulxN(P, Clmul(X(P, 32, k - 1), c), 32) == MulxN(P, c, k)
  {
    hide Xor, Mulx, MulxN, Clmul, Pow2, Horner;
    Pow2Word();
    MulX(P, 32, c, k - 1);
    MulComm(P, 32, X(P, 32, k - 1), c);
    ReduceClmul(P, 0, X(P, 32, k - 1), c, 32);
    MulxNZero(P, 33);
    XorZero(MulxN(P, Clmul(X(P, 32, k - 1), c), 32));
    MulxNAdd(P, c, k - 1, 1);
    MulxNOnce(P, MulxN(P, c, k - 1));
  }

  // ----- merging -----

  /** The merge of three lane registers, as the code computes it from the two constants. */
  function Merge(k0: nat, k1: nat, c: nat, c1: nat, c2: nat): nat {
    var f := Xor(Clmul(k0, c), Clmul(k1, c1)) % W64;
    Xor(Xor(CrcInstr(0, f % W32, 32), f / W32), c2)
  }

  lemma {:induction false} ProductBound(c: nat, k: nat)
    requires c < W32
    ensures Clmul(X(P, 32, k), c) < Pow2(64)
  {
    hide Clmul, Pow2, X, MulxN;
    Pow2Word();
    MulX(P, 32, 0, k);
    ClmulBound(X(P, 32, k), c, 32, 32);
  }

  /** Two products of 64 bits are added and folded. */
  lemma {:induction false} MergeFolds(k0: nat, k1: nat, c: nat, c1: nat, c2: nat)
    requires Clmul(k0, c) < Pow2(64) && Clmul(k1, c1) < Pow2(64)
    ensures Merge(k0, k1, c, c1, c2) == Xor(MulxN(P, Xor(Clmul(k0, c), Clmul(k1, c1)), 32), c2)
  {
    hide Xor, MulxN, Clmul, CrcInstr, Pow2;
    Pow2Word64();
    XorBound(Clmul(k0, c), Clmul(k1, c1), 64);
    Fold(Xor(Clmul(k0, c), Clmul(k1, c1)));
  }

  lemma {:induction false} MergePowers(m: nat, n: nat, c: nat, c1: nat, c2: nat)
    requires m > 0 && n > 0 && c < W32 && c1 < W32
    ensures Merge(X(P, 32, m - 1), X(P, 32, n - 1), c, c1, c2) == Xor(Xor(MulxN(P, c, m), MulxN(P, c1, n)), c2)
  {
    hide Xor, MulxN, Clmul, X, Merge, Pow2;
    var k0, k1 := X(P, 32, m - 1), X(P, 32, n - 1);
    ProductBound(c, m - 1);
    ProductBound(c1, n - 1);
    MergeFolds(k0, k1, c, c1, c2);
    MulxNXor(P, Clmul(k0, c), Clmul(k1, c1), 32);
    ClmulPower(c, m);
    ClmulPower(c1, n);
  }

  lemma {:induction false} MergeIs(seg: nat, c: nat, c1: nat, c2: nat)
    requires seg > 0 && c < W32 && c1 < W32
    ensures Merge(X(P, 32, 16 * seg - 1), X(P, 32, 8 * seg - 1), c, c1, c2)
         == Xor(Xor(MulxN(P, c, 16 * seg), MulxN(P, c1, 8 * seg)), c2)
  {
    hide Xor, MulxN, X, Merge;
    MergePowers(16 * seg, 8 * seg, c, c1, c2);
  }

  lemma {:induction false} Fold(f: nat)
    ensures Xor(CrcInstr(0, f % W32, 32), f / W32) == MulxN(P, f, 32)
  {
    hide Xor, Mulx, MulxN, Pow2, Shl;
    Pow2Word();
    XorZero(f);
    ShlIs(f / W32, 32);
    MulxNLoad(P, 0, f % W32, f / W32, 32);
  }

  /** Three lanes started from c, 0 and 0 and merged are one register run over all the bytes. */
  lemma {:induction false} LanesJoin(c: nat, s0: seq<Byte>, s1: seq<Byte>, s2: seq<Byte>)
    requires |s1| == |s2|
    ensures Crc(P, c, s0 + s1 + s2)
         == Xor(Xor(MulxN(P, Crc(P, c, s0), 16 * |s1|), MulxN(P, Crc(P, 0, s1), 8 * |s1|)), Crc(P, 0, s2))
  {
    hide Xor, MulxN, Crc;
    var n := 8 * |s1|;
    var c0 := Crc(P, c, s0);
    var c01 := Crc(P, c0, s1);
    CrcAppend(P, c, s0, s1);
    CrcAppend(P, c, s0 + s1, s2);
    XorZero(c0);
    XorZero(c01);
    CrcLinear(P, c0, 0, s1);
    CrcLinear(P, c01, 0, s2);
    MulxNXor(P, MulxN(P, c0, n), Crc(P, 0, s1), n);
    MulxNAdd(P, c0, n, n);
  }

  // ----- the routines -----

  /** One instruction on the n bytes at offset i. */
  method Feed(ghost start: nat, crc: nat, data: seq<Byte>, i: nat, n: nat) returns (r: nat)
    requires i + n <= |data| && After(P, start, data, i, crc)
    ensures After(P, start, data, i + n, r)
  {
    hide After, MulxN, Xor, Crc, Le;
    AfterMore(P, start, data, i, i + n, crc);
    CrcInstrIs(crc, data[i..i + n]);
    r := CrcInstr(crc, Le(data[i..i + n]), 8 * n);
  }

  /** The loop that drives three lanes of `seg` bytes, sixteen bytes of each per round, and the merge. */
  method Lanes(ghost start: nat, crc: nat, data: seq<Byte>, i: nat, seg: nat) returns (r: nat)
    requires seg > 0 && seg % 16 == 0 && i + 3 * seg <= |data| && crc < W32 && After(P, start, data, i, crc)
    ensures After(P, start, data, i + 3 * seg, r)
  {
    hide After, Crc, Merge, MulxN, Mulx, Xor, X, Le;
    var s0, s1, s2 := data[i..i + seg], data[i + seg..i + 2 * seg], data[i + 2 * seg..i + 3 * seg];
    var c, c1, c2 := crc, 0, 0;
    AfterNone(P, crc, s0);
    AfterNone(P, 0, s1);
    AfterNone(P, 0, s2);
    var j := 0;
    while true
      invariant 0 <= j < seg && j % 16 == 0
      invariant After(P, crc, s0, j, c) && After(P, 0, s1, j, c1) && After(P, 0, s2, j, c2)
      decreases seg - j
    {
      c := Feed(crc, c, s0, j, 8);
      c1 := Feed(0, c1, s1, j, 8);
      c2 := Feed(0, c2, s2, j, 8);
      c := Feed(crc, c, s0, j + 8, 8);
      c1 := Feed(0, c1, s1, j + 8, 8);
      c2 := Feed(0, c2, s2, j + 8, 8);
      j := j + 16;
      if !(j < seg) { break; }
    }
    r := Merge(X(P, 32, 16 * seg - 1), X(P, 32, 8 * seg - 1), c, c1, c2);
    AfterAll(P, crc, s0, c);
    AfterAll(P, 0, s1, c1);
    AfterAll(P, 0, s2, c2);
    MergeIs(seg, c, c1, c2);
    LanesJoin(crc, s0, s1, s2);
    assert s0 + s1 + s2 == data[i..i + 3 * seg];
    AfterMore(P, start, data, i, i + 3 * seg, crc);
  }

  /** The steps before the pointer is aligned to eight bytes: one, two and four bytes as its low
      bits ask for and as far as there are bytes. */
  method Align(addr: nat, crc: nat, data: seq<Byte>) returns (r: nat, i: nat)
    requires crc < W32
    ensures i <= |data| && After(P, crc, data, i, r)
  {
    hide After;
    AfterNone(P, crc, data);
    r, i := crc, 0;
    if (addr + i) % 2 == 1 && i < |data| {
      r := Feed(crc, r, data, i, 1);
      i := i + 1;
    }
    if (addr + i) / 2 % 2 == 1 && i + 2 <= |data| {
      r := Feed(crc, r, data, i, 2);
      i := i + 2;
    }
    if (addr + i) / 4 % 2 == 1 && i + 4 <= |data| {
      r := Feed(crc, r, data, i, 4);
      i := i + 4;
    }
  }

  method FeedBytes(ghost start: nat, crc: nat, data: seq<Byte>, begin: nat) returns (r: nat)
    requires begin <= |data| && After(P, start, data, begin, crc)
    ensures After(P, start, data, |data|, r)
  {
    hide After;
    r := crc;
    for i := begin to |data|
      invariant After(P, start, data, i, r)
    {
      r := Feed(start, r, data, i, 1);
    }
  }

  /** crc32c_partial_sse42_clmul: `addr` is the address of the first byte. */
  method PartialClmul(addr: nat, data: seq<Byte>, crc: nat) returns (r: nat)
    requires crc < W32
    ensures r == Crc(P, crc, data) < W32
  {
    hide After, Crc;
    var i: nat;
    r, i := Align(addr, crc, data);
    if (addr + i) % 8 != 0 {
      r := FeedBytes(crc, r, data, i);
    } else {
      r, i := LaneRounds(crc, r, data, i, 0x400);
      r, i := LaneRounds(crc, r, data, i, 0x80);
      r := Finish(crc, r, data, i);
    }
    AfterAll(P, crc, data, r);
  }

  /** As many rounds of three lanes as fit. */
  method LaneRounds(ghost start: nat, crc: nat, data: seq<Byte>, begin: nat, seg: nat) returns (r: nat, i: nat)
    requires seg > 0 && seg % 16 == 0 && begin <= |data| && After(P, start, data, begin, crc)
    ensures begin <= i <= |data| < i + 3 * seg && After(P, start, data, i, r)
  {
    r, i := crc, begin;
    while |data| - i >= 3 * seg
      invariant begin <= i <= |data| && After(P, start, data, i, r)
    {
      r := Lanes(start, r, data, i, seg);
      i := i + 3 * seg;
    }
  }

  method Finish(ghost start: nat, crc: nat, data: seq<Byte>, begin: nat) returns (r: nat)
    requires begin <= |data| && After(P, start, data, begin, crc)
    ensures After(P, start, data, |data|, r)
  {
    hide After;
    var i := begin;
    r := crc;
    while |data| - i >= 32
      invariant i <= |data| && After(P, start, data, i, r)
    {
      r := Feed(start, r, data, i, 8);
      r := Feed(start, r, data, i + 8, 8);
      r := Feed(start, r, data, i + 16, 8);
      r := Feed(start, r, data, i + 24, 8);
      i := i + 32;
    }
    while |data| - i >= 8
      invariant i <= |data| && After(P, start, data, i, r)
    {
      r := Feed(start, r, data, i, 8);
      i := i + 8;
    }
    var len := |data| - i;
    if len / 4 % 2 == 1 {
      r := Feed(start, r, data, i, 4);
      i := i + 4;
    }
    if len / 2 % 2 == 1 {
      r := Feed(start, r, data, i, 2);
      i := i + 2;
    }
    if len % 2 == 1 {
      r := Feed(start, r, data, i, 1);
    }
  }

  /** crc32c_partial_sse42: bytes up to an aligned address, then eight bytes at a time, then bytes. */
  method PartialSse42(addr: nat, data: seq<Byte>, crc: nat) returns (r: nat)
    requires crc < W32
    ensures r == Crc(P, crc, data) < W32
  {
    hide After, Crc;
    AfterNone(P, crc, data);
    var i := 0;
    r := crc;
    while (addr + i) % 8 != 0 && i < |data|
      invariant i <= |data| && After(P, crc, data, i, r)
      decreases |data| - i
    {
      r := Feed(crc, r, data, i, 1);
      i := i + 1;
    }
    while |data| - i >= 8
      invariant i <= |data| && After(P, crc, data, i, r)
    {
      r := Feed(crc, r, data, i, 8);
      i := i + 8;
    }
    r := FeedBytes(crc, r, data, i);
    AfterAll(P, crc, data, r);
  }
}

/** Combining the CRCs of two byte strings into the CRC of their concatenation: by 32x32 bit
    matrices and repeated squaring (CRC-32, CRC-32C), and by polynomial multiplication (CRC-64). */
module CrcCombine {
  import opened Bits
  import opened Gf
  import opened CrcBase

  // ----- bit matrices -----

  /** The product of a matrix, given by its rows, and a bit vector. */
  function Times(rows: seq<nat>, v: nat): nat
    requires v < Pow2(|rows|)
    decreases |rows|
  {
    if v == 0 then 0 else Xor(Pick(v, rows[0]), Times(rows[1..], v / 2))
  }

  /** The rows are the images of the unit vectors, from bit s on, under multiplication by m. */
  ghost predicate MultipliesBy(p: nat, w: nat, rows: seq<nat>, m: nat, s: nat) {
    forall i :: 0 <= i < |rows| ==> rows[i] == Mul(p, w, Shl(1, s + i), m)
  }

  lemma {:induction false} TimesIsMul(p: nat, w: nat, rows: seq<nat>, m: nat, v: nat, s: nat)
    requires v < Pow2(|rows|) && MultipliesBy(p, w, rows, m, s)
    ensures Times(rows, v) == Mul(p, w, Shl(v, s), m)
    decreases |rows|
  {
    hide Xor, Mul;
    if v == 0 {
      ShlIs(0, s);
      MulZeroLeft(p, w, m);
    } else {
      var d, h := v % 2, v / 2;
      forall i | 0 <= i < |rows[1..]| ensures rows[1..][i] == Mul(p, w, Shl(1, s + 1 + i), m) {
        assert rows[1..][i] == rows[i + 1];
      }
      TimesIsMul(p, w, rows[1..], m, h, s + 1);
      assert rows[0] == Mul(p, w, Shl(1, s + 0), m);
      ShlIs(0, s);
      MulZeroLeft(p, w, m);
      assert Pick(v, rows[0]) == Mul(p, w, Shl(d, s), m);
      ShlSplit(v, s);
      MulXorLeft(p, w, Shl(d, s), Shl(h, s + 1), m);
    }
  }

  lemma {:induction false} ShlSplit(v: nat, s: nat)
    ensures Shl(v, s) == Xor(Shl(v % 2, s), Shl(v / 2, s + 1))
  {
    var d, h := v % 2, v / 2;
    assert Shl(h, 1) == 2 * h && Pow2(1) == 2;
    hide Xor, Shl, Pow2;
    XorJoin(d, h, 1);
    ShlXor(d, 2 * h, s);
    ShlShl(h, 1, s);
  }

  lemma {:induction false} TimesStep(rows: seq<nat>, j: nat, sum: nat, v: nat)
    requires j < |rows| && 0 < v < Pow2(|rows| - j)
    ensures Xor(sum, Times(rows[j..], v))
         == Xor(if v % 2 == 1 then Xor(sum, rows[j]) else sum, Times(rows[j + 1..], v / 2))
  {
    hide Xor;
    assert rows[j..][1..] == rows[j + 1..];
    XorAssoc(sum, Pick(v, rows[j]), Times(rows[j + 1..], v / 2));
    XorZero(sum);
  }

  lemma HalfBound(v: nat, k: nat)
    requires 0 < v < Pow2(k)
    ensures k > 0 && v / 2 < Pow2(k - 1)
  {
  }

  /** gf32_matrix_times: the vector is shifted out, the row pointer moves on. */
  method MatrixTimes(buf: array<nat>, off: nat, vector: nat) returns (sum: nat)
    requires off + 32 <= buf.Length && vector < Pow2(32)
    ensures sum == Times(buf[off..off + 32], vector)
  {
    hide Xor, Times, Pow2;
    ghost var rows := buf[off..off + 32];
    var v: nat, j := vector, 0;
    sum := 0;
    XorZero(Times(rows, vector));
    assert rows[0..] == rows;
    while v != 0
      invariant j <= 32 && v < Pow2(32 - j)
      invariant Xor(sum, Times(rows[j..], v)) == Times(rows, vector)
      decreases v
    {
      HalfBound(v, 32 - j);
      TimesStep(rows, j, sum, v);
      if v % 2 == 1 {
        sum := Xor(sum, buf[off + j]);
      }
      v, j := v / 2, j + 1;
    }
    TimesZero(rows[j..]);
    XorZero(sum);
  }

  lemma TimesZero(rows: seq<nat>)
    ensures Times(rows, 0) == 0
  {
  }

  lemma {:induction false} ShlShl(h: nat, j: nat, k: nat)
    ensures Shl(Shl(h, j), k) == Shl(h, j + k)
  {
    if k > 0 {
      ShlShl(h, j, k - 1);
    }
  }

  /** The 32 rows from `off` on are multiplication by x^e. */
  ghost predicate PowerAt(p: nat, buf: seq<nat>, off: nat, e: nat) {
    off + 32 <= |buf| && forall i :: 0 <= i < 32 ==> buf[off + i] == MulxN(p, Shl(1, i), e)
  }

  lemma {:induction false} TimesPower(p: nat, buf: seq<nat>, off: nat, e: nat, v: nat)
    requires p < W32 && v < Pow2(32) && PowerAt(p, buf, off, e)
    ensures Times(buf[off..off + 32], v) == MulxN(p, v, e) < W32
  {
    var rows := buf[off..off + 32];
    hide Xor, Mul, MulxN, Pow2, Times;
    Pow2Word();
    forall i | 0 <= i < 32 ensures rows[i] == Mul(p, 32, Shl(1, 0 + i), X(p, 32, e)) {
      assert rows[i] == buf[off + i];
      UnitBound(i);
      MulX(p, 32, Shl(1, i), e);
    }
    TimesIsMul(p, 32, rows, X(p, 32, e), v, 0);
    MulX(p, 32, v, e);
    MulxNBound(p, v, e, 32);
  }

  lemma {:induction false} UnitBound(i: nat)
    requires i < 32
    ensures Shl(1, i) < Pow2(32) && Shl(1, i) == Pow2(i)
  {
    ShlIs(1, i);
    Pow2Mono(i + 1, 32);
  }

  /** gf32_matrix_square: the square of the matrix at `src`, written to `dst`. */
  method MatrixSquare(p: nat, buf: array<nat>, dst: nat, src: nat, ghost e: nat)
    requires p < W32
    requires src + 32 <= dst && dst + 32 <= buf.Length
    requires PowerAt(p, buf[..], src, e)
    modifies buf
    ensures PowerAt(p, buf[..], dst, e + e)
    ensures forall i :: 0 <= i < dst || dst + 32 <= i < buf.Length ==> buf[i] == old(buf[i])
  {
    hide Xor, Mul, MulxN, Times, Pow2;
    Pow2Word();
    for n := 0 to 32
      invariant forall i :: 0 <= i < dst || dst + n <= i < buf.Length ==> buf[i] == old(buf[i])
      invariant forall i :: 0 <= i < n ==> buf[dst + i] == MulxN(p, Shl(1, i), e + e)
    {
      assert PowerAt(p, buf[..], src, e);
      assert buf[..][src..src + 32] == buf[src..src + 32];
      UnitBound(n);
      MulxNBound(p, Shl(1, n), e, 32);
      assert buf[src + n] == MulxN(p, Shl(1, n), e);
      TimesPower(p, buf[..], src, e, buf[src + n]);
      MulxNAdd(p, Shl(1, n), e, e);
      var t := MatrixTimes(buf, src, buf[src + n]);
      buf[dst + n] := t;
    }
  }

  /** The number of matrices in the power buffer. */
  const POWERS: nat := 67

  /** Matrix n is multiplication by x^(2^n). */
  ghost predicate Filled(p: nat, buf: seq<nat>, count: nat) {
    |buf| == 32 * POWERS && forall n :: 0 <= n < count ==> PowerAt(p, buf, 32 * n, Pow2(n))
  }

  method FillFirst(p: nat, buf: array<nat>)
    requires buf.Length >= 32
    modifies buf
    ensures PowerAt(p, buf[..], 0, 1)
  {
    hide MulxN, Shl;
    buf[0] := p;
    for n := 0 to 31
      invariant buf[0] == p
      invariant forall i :: 0 < i <= n ==> buf[i] == Shl(1, i - 1)
    {
      buf[n + 1] := Shl(1, n);
    }
    forall i | 0 <= i < 32 ensures buf[i] == MulxN(p, Shl(1, i), 1) {
      FirstMatrix(p, i);
    }
  }

  /** The power-buffer initialisation shared by the two 32-bit combines. */
  method FillPowers(p: nat, buf: array<nat>)
    requires p < W32 && buf.Length == 32 * POWERS
    modifies buf
    ensures Filled(p, buf[..], POWERS)
  {
    hide Xor, MulxN, Times, PowerAt;
    Pow2Word();
    FillFirst(p, buf);
    for n := 1 to POWERS
      invariant Filled(p, buf[..], n)
    {
      ghost var before := buf[..];
      assert PowerAt(p, before, 32 * (n - 1), Pow2(n - 1));
      MatrixSquare(p, buf, 32 * n, 32 * (n - 1), Pow2(n - 1));
      forall k | 0 <= k < n ensures PowerAt(p, buf[..], 32 * k, Pow2(k)) {
        PowerKept(p, before, buf[..], 32 * k, Pow2(k));
      }
    }
  }

  lemma PowerKept(p: nat, a: seq<nat>, b: seq<nat>, off: nat, e: nat)
    requires PowerAt(p, a, off, e)
    requires off + 32 <= |b| && b[off..off + 32] == a[off..off + 32]
    ensures PowerAt(p, b, off, e)
  {
    forall i | off <= i < off + 32 ensures b[i] == a[i] {
      assert b[off..off + 32][i - off] == a[off..off + 32][i - off];
    }
  }

  lemma {:induction false} FirstMatrix(p: nat, i: nat)
    ensures MulxN(p, Shl(1, i), 1) == if i == 0 then p else Shl(1, i - 1)
  {
    hide Xor;
    XorZero(p);
    assert MulxN(p, Shl(1, i), 1) == Mulx(p, MulxN(p, Shl(1, i), 0));
  }

  // ----- the 32-bit combines -----

  /** What both combines compute: crc1 times x^(8 len2), plus crc2. */
  function Combined(p: nat, crc1: nat, crc2: nat, len2: int): nat {
    if len2 <= 0 then crc1 else Xor(MulxN(p, crc1, 8 * len2), crc2)
  }

  /** The loop over the bits of the length: for each bit set, one matrix. */
  method ApplyPowers(p: nat, buf: array<nat>, crc1: nat, len2: nat) returns (r: nat)
    requires p < W32 && crc1 < W32 && Filled(p, buf[..], POWERS)
    requires 0 < len2 < Pow2(63)
    ensures r == MulxN(p, crc1, 8 * len2) < W32
  {
    hide Xor, MulxN, Times, PowerAt, Pow2, Shl;
    Pow2Word();
    var len: nat, n := len2, 2;
    r := crc1;
    ShlThree(len2);
    while true
      invariant 2 <= n <= 65 && 0 < len < Pow2(65 - n)
      invariant r < W32 && MulxN(p, r, Shl(len, n + 1)) == MulxN(p, crc1, 8 * len2)
      decreases len
    {
      HalfBound(len, 65 - n);
      n := n + 1;
      PowerStep(p, r, n, len);
      if len % 2 == 1 {
        assert PowerAt(p, buf[..], 32 * n, Pow2(n));
        assert buf[..][32 * n..32 * n + 32] == buf[32 * n..32 * n + 32];
        TimesPower(p, buf[..], 32 * n, Pow2(n), r);
        r := MatrixTimes(buf, 32 * n, r);
      }
      len := len / 2;
      if len == 0 {
        ShlIs(0, n + 1);
        MulxNZeroTimes(p, r);
        break;
      }
    }
  }

  lemma {:induction false} ShlThree(len: nat)
    ensures Shl(len, 3) == 8 * len
  {
    ShlIs(len, 3);
  }

  lemma {:induction false} PowerStep(p: nat, c: nat, n: nat, len: nat)
    ensures MulxN(p, c, Shl(len, n))
         == MulxN(p, if len % 2 == 1 then MulxN(p, c, Pow2(n)) else c, Shl(len / 2, n + 1))
  {
    hide *;
    ShlDigit(len, n);
    ShlIs(len % 2, n);
    MulxNAdd(p, c, Pow2(n), Shl(len / 2, n + 1));
  }

  /** The static power buffer of compute_crc32_combine_generic. It starts zeroed, and its last
      entry tells whether it has been filled. */
  class Combiner32 {
    const p: nat
    const buf: array<nat>
    var initialized: bool

    ghost predicate Valid()
      reads this, buf
    {
      && One(32) <= p < Pow2(32)
      && buf.Length == 32 * POWERS
      && ((!initialized && buf[32 * POWERS - 1] == 0) || Filled(p, buf[..], POWERS))
    }

    constructor (p: nat)
      requires One(32) <= p < Pow2(32)
      ensures Valid() && this.p == p && fresh(buf)
    {
      this.p := p;
      buf := new nat[32 * POWERS](_ => 0);
      initialized := false;
    }

    /** The guard entry x^(2^66) is never zero: multiplication by x is injective and maps 0 to 0. */
    lemma {:induction false} GuardNotZero()
      requires Valid() && Filled(p, buf[..], POWERS)
      ensures buf[32 * POWERS - 1] != 0
    {
      hide Xor, MulxN;
      assert PowerAt(p, buf[..], 32 * 66, Pow2(66));
      assert buf[..][32 * 66 + 31] == MulxN(p, Shl(1, 31), Pow2(66));
      UnitBound(31);
      MulxNZero(p, Pow2(66));
      if MulxN(p, Shl(1, 31), Pow2(66)) == 0 {
        MulxNInjective(p, Shl(1, 31), 0, Pow2(66), 32);
        assert false;
      }
    }

    /** compute_crc32_combine_generic: fills the buffer when its last entry is zero. */
    method Combine(crc1: nat, crc2: nat, len2: int) returns (r: nat)
      requires Valid() && crc1 < W32 && crc2 < W32 && len2 < Pow2(63)
      modifies buf
      ensures Valid() && r == Combined(p, crc1, crc2, len2)
      ensures len2 > 0 ==> Filled(p, buf[..], POWERS) && buf[32 * POWERS - 1] != 0
    {
      hide MulxN, Xor, Filled;
      Pow2Word();
      if len2 <= 0 {
        return crc1;
      }
      if buf[32 * POWERS - 1] == 0 {
        FillPowers(p, buf);
      }
      GuardNotZero();
      r := ApplyPowers(p, buf, crc1, len2);
      r := Xor(r, crc2);
    }

    /** compute_crc32c_combine: the same with a separate flag. */
    method CombineByFlag(crc1: nat, crc2: nat, len2: int) returns (r: nat)
      requires Valid() && crc1 < W32 && crc2 < W32 && len2 < Pow2(63)
      modifies this, buf
      ensures Valid() && r == Combined(p, crc1, crc2, len2)
      ensures len2 > 0 ==> Filled(p, buf[..], POWERS) && initialized
    {
      hide MulxN, Xor, Filled;
      Pow2Word();
      if len2 <= 0 {
        return crc1;
      }
      if !initialized {
        FillPowers(p, buf);
        initialized := true;
      }
      r := ApplyPowers(p, buf, crc1, len2);
      r := Xor(r, crc2);
    }
  }

  /** compute_crc32 and compute_crc64: the register starts as all ones and is complemented at the end. */
  function Compute(p: nat, w: nat, data: seq<Byte>): nat {
    Xor(Crc(p, Pow2(w) - 1, data), Pow2(w) - 1)
  }

  /** The law the combines exist for. */
  lemma {:induction false} CombineCorrect(p: nat, w: nat, a: seq<Byte>, b: seq<Byte>)
    ensures Combined(p, Compute(p, w, a), Compute(p, w, b), |b|) == Compute(p, w, a + b)
  {
    hide Xor, MulxN, Crc, Pow2;
    var ones, n := Pow2(w) - 1, 8 * |b|;
    var ca, cb := Crc(p, ones, a), Crc(p, ones, b);
    CrcAppend(p, ones, a, b);
    if b == [] {
      CrcNothing(p, ca);
    } else {
      XorCancel(ca, ones);
      CrcLinear(p, Xor(ca, ones), ones, b);
      XorAssoc(MulxN(p, Xor(ca, ones), n), cb, ones);
    }
  }

  lemma CrcNothing(p: nat, c: nat)
    ensures Crc(p, c, []) == c
  {
  }

  // ----- the 64-bit combine -----

  /** gf32_mul and gf64_mul. */
  method GfMul(p: nat, w: nat, a: nat, b: nat) returns (x: nat)
    requires w > 0
    ensures x == Mul(p, w, a, b)
  {
    hide Xor, Mulx;
    var c: nat, i := b, 0;
    x := 0;
    while true
      invariant 0 <= i < w && Horner(p, x, a, c, w - i) == Mul(p, w, a, b)
      decreases w - i
    {
      XorZero(Mulx(p, x));
      x := Mulx(p, x);
      if c % 2 == 1 {
        x := Xor(x, a);
      }
      c := c / 2;
      i := i + 1;
      if !(i < w) { break; }
    }
  }

  /** Entry 2n + 1 is x^(8 * 2^n - 1) and entry 2n is that times x^64. */
  ghost predicate Powers64(buf: seq<nat>, count: nat) {
    && |buf| == 126 && count <= 63
    && forall n :: 0 <= n < count ==> 
         && buf[2 * n + 1] == X(POLY64, 64, Pow2(n + 3) - 1)
         && buf[2 * n] == X(POLY64, 64, Pow2(n + 3) + 63)
  }

  /** crc64_init_power_buf. */
  method FillPowers64(buf: array<nat>)
    requires buf.Length == 126
    modifies buf
    ensures Powers64(buf[..], 63)
  {
    hide Xor, MulxN, Mul, Mulx, X, Pow2;
    var a: nat := 0x100_0000_0000_0000;
    FirstPower64();
    for n := 0 to 63
      invariant Powers64(buf[..], n)
      invariant a == X(POLY64, 64, Pow2(n + 3) - 1)
    {
      NextPower64(a, n);
      var t := GfMul(POLY64, 64, a, POLY64);
      buf[2 * n], buf[2 * n + 1] := t, a;
      a := GfMul(POLY64, 64, a, a);
      a := Mulx(POLY64, a);
    }
  }

  lemma {:induction false} FirstPower64()
    ensures X(POLY64, 64, Pow2(3) - 1) == 0x100_0000_0000_0000
  {
    XSmall(POLY64, 64, 7);
    Pow2Byte();
    hide X;
    Pow2Add(8, 8);
    Pow2Add(16, 8);
    Pow2Add(24, 32);
    Pow2Word();
  }

  lemma {:induction false} NextPower64(a: nat, n: nat)
    requires a == X(POLY64, 64, Pow2(n + 3) - 1)
    ensures Mul(POLY64, 64, a, POLY64) == X(POLY64, 64, Pow2(n + 3) + 63)
    ensures Mulx(POLY64, Mul(POLY64, 64, a, a)) == X(POLY64, 64, Pow2(n + 4) - 1)
  {
    hide *;
    Pow2Double(n + 3);
    Pow2Word64();
    PolyBound64();
    SquareTimesX(POLY64, 64, Pow2(n + 3) - 1);
  }

  lemma PolyBound64()
    ensures POLY64 < W64
  {
  }

  lemma {:induction false} Pow2Double(n: nat)
    ensures Pow2(n + 1) == 2 * Pow2(n)
  {
  }

  lemma {:induction false} SquareTimesX(p: nat, w: nat, e: nat)
    requires w > 0 && p < Pow2(w)
    ensures Mul(p, w, X(p, w, e), p) == X(p, w, e + w)
    ensures Mulx(p, Mul(p, w, X(p, w, e), X(p, w, e))) == X(p, w, e + e + 1)
  {
    hide *;
    XPoly(p, w);
    XAdd(p, w, e, w);
    XAdd(p, w, e, e);
    XNext(p, w, e + e);
  }

  /** The buffer of compute_crc64_combine_generic, with its last entry as the guard. */
  class Combiner64 {
    const buf: array<nat>

    ghost predicate Valid()
      reads buf
    {
      buf.Length == 126 && (buf[125] == 0 || Powers64(buf[..], 63))
    }

    constructor ()
      ensures Valid() && fresh(buf)
    {
      buf := new nat[126](_ => 0);
    }

    lemma {:induction false} GuardNotZero()
      requires Powers64(buf[..], 63)
      ensures buf[125] != 0
    {
      hide Xor, MulxN;
      Pow2Word64();
      assert buf[..][2 * 62 + 1] == MulxN(POLY64, One(64), Pow2(65) - 1);
      MulxNZero(POLY64, Pow2(65) - 1);
      Pow2Mono(63, 64);
      if buf[125] == 0 {
        MulxNInjective(POLY64, One(64), 0, Pow2(65) - 1, 64);
        assert false;
      }
    }

    /** compute_crc64_combine_generic: the lowest bit set selects the first factor, the loop the others. */
    method Combine(crc1: nat, crc2: nat, len2: int) returns (r: nat)
      requires Valid() && crc1 < W64 && crc2 < W64 && len2 < Pow2(63)
      modifies buf
      ensures Valid() && r == Combined(POLY64, crc1, crc2, len2)
      ensures len2 > 0 ==> Powers64(buf[..], 63) && buf[125] != 0
    {
      hide MulxN, Xor, Mulx, Mul, Powers64;
      if len2 <= 0 {
        return crc1;
      }
      if buf[125] == 0 {
        FillPowers64(buf);
      }
      GuardNotZero();
      r := Multiply(crc1, len2);
      r := Xor(r, crc2);
    }

    method Multiply(crc1: nat, len2: nat) returns (r: nat)
      requires crc1 < W64 && 0 < len2 < Pow2(63) && Powers64(buf[..], 63)
      ensures r == MulxN(POLY64, crc1, 8 * len2)
    {
      hide MulxN, Xor, Mulx, Mul, Powers64, Shl, Pow2;
      var n: nat, len: nat := FirstSet(len2);
      ShlThree(len2);
      ShlShl(2 * len + 1, n, 3);
      PowerStep(POLY64, crc1, n + 3, 2 * len + 1);
      r := Factor(crc1, n);
      while len != 0
        invariant n < 63 && r < W64 && len < Pow2(62 - n)
        invariant MulxN(POLY64, r, Shl(len, n + 4)) == MulxN(POLY64, crc1, 8 * len2)
        decreases len
      {
        HalfBound(len, 62 - n);
        n := n + 1;
        PowerStep(POLY64, r, n + 3, len);
        if len % 2 == 1 {
          r := Factor(r, n);
        }
        len := len / 2;
      }
      ShlIs(0, n + 4);
      MulxNZeroTimes(POLY64, r);
    }

    /** One factor: gf64_mul(crc1, gf64_mulx(*p)) with p at entry 2n + 1. */
    method Factor(c: nat, n: nat) returns (r: nat)
      requires c < W64 && n < 63 && Powers64(buf[..], 63)
      ensures r == MulxN(POLY64, c, Pow2(n + 3)) < W64
    {
      hide MulxN, Xor, Mulx, Mul, X;
      Pow2Word64();
      assert buf[..][2 * n + 1] == X(POLY64, 64, Pow2(n + 3) - 1);
      XNext(POLY64, 64, Pow2(n + 3) - 1);
      MulX(POLY64, 64, c, Pow2(n + 3));
      MulxNBound(POLY64, c, Pow2(n + 3), 64);
      r := GfMul(POLY64, 64, c, Mulx(POLY64, buf[2 * n + 1]));
    }
  }

  /** __builtin_ffsll less one, and the length shifted past that bit. */
  method FirstSet(len2: nat) returns (n: nat, len: nat)
    requires 0 < len2 < Pow2(63)
    ensures n < 63 && len2 == Shl(2 * len + 1, n) && len < Pow2(62 - n)
  {
    n, len := 0, len2;
    while len % 2 == 0
      invariant n < 63 && 0 < len < Pow2(63 - n) && len2 == Shl(len, n)
      decreases len
    {
      ShlDigit(len, n);
      ShlIs(0, n);
      n, len := n + 1, len / 2;
    }
    len := len / 2;
  }
}

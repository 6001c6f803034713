/** The three polynomials by their exponents, and known CRC-32C values, by the bit-serial definition run on
    words of hexadecimal digits whose bits are spelled out. */
module CrcVectors {
  import opened Bits
  import opened Gf
  import opened CrcBase

  // ----- the polynomials -----

  /** The polynomial of section 8 of RFC 1952, below x^32. The highest bit of the register is x^0. */
  lemma {:induction false} Crc32Polynomial()
    ensures POLY32 ==
      Pow2(31 - 26) + Pow2(31 - 23) + Pow2(31 - 22) + Pow2(31 - 16) + Pow2(31 - 12) + Pow2(31 - 11) + Pow2(31 - 10)
      + Pow2(31 - 8) + Pow2(31 - 7) + Pow2(31 - 5) + Pow2(31 - 4) + Pow2(31 - 2) + Pow2(31 - 1) + Pow2(31 - 0)
  {
    assert Pow2(8) == 0x100;
    assert Pow2(16) == 0x10000;
    assert Pow2(24) == 0x1000000;
  }

  /** Castagnoli's polynomial, of section 12.1 of RFC 3720, below x^32. The highest bit of the register is x^0. */
  lemma {:induction false} CastagnoliPolynomial()
    ensures POLY32C ==
      Pow2(31 - 28) + Pow2(31 - 27) + Pow2(31 - 26) + Pow2(31 - 25) + Pow2(31 - 23) + Pow2(31 - 22) + Pow2(31 - 20)
      + Pow2(31 - 19) + Pow2(31 - 18) + Pow2(31 - 14) + Pow2(31 - 13) + Pow2(31 - 11) + Pow2(31 - 10) + Pow2(31 - 9)
      + Pow2(31 - 8) + Pow2(31 - 6) + Pow2(31 - 0)
  {
    assert Pow2(8) == 0x100;
    assert Pow2(16) == 0x10000;
    assert Pow2(24) == 0x1000000;
  }

  /** The polynomial of ECMA-182, below x^64. The highest bit of the register is x^0. */
  lemma {:induction false} Crc64Polynomial()
    ensures POLY64 ==
      Pow2(63 - 62) + Pow2(63 - 57) + Pow2(63 - 55) + Pow2(63 - 54) + Pow2(63 - 53) + Pow2(63 - 52) + Pow2(63 - 47)
      + Pow2(63 - 46) + Pow2(63 - 45) + Pow2(63 - 40) + Pow2(63 - 39) + Pow2(63 - 38) + Pow2(63 - 37) + Pow2(63 - 35)
      + Pow2(63 - 33) + Pow2(63 - 32) + Pow2(63 - 31) + Pow2(63 - 29) + Pow2(63 - 27) + Pow2(63 - 24) + Pow2(63 - 23)
      + Pow2(63 - 22) + Pow2(63 - 21) + Pow2(63 - 19) + Pow2(63 - 17) + Pow2(63 - 13) + Pow2(63 - 12) + Pow2(63 - 10)
      + Pow2(63 - 9) + Pow2(63 - 7) + Pow2(63 - 4) + Pow2(63 - 1) + Pow2(63 - 0)
  {
    assert Pow2(8) == 0x100;
    assert Pow2(16) == 0x10000;
    assert Pow2(24) == 0x1000000;
    assert Pow2(32) == 0x100000000;
    assert Pow2(40) == 0x10000000000;
    assert Pow2(48) == 0x1000000000000;
    assert Pow2(56) == 0x100000000000000;
  }

  // ----- words of bits -----

  /** A hexadecimal digit by its bits, the highest first. */
  datatype Digit = Digit(b3: bool, b2: bool, b1: bool, b0: bool)

  datatype Word = Word(n7: Digit, n6: Digit, n5: Digit, n4: Digit, n3: Digit, n2: Digit, n1: Digit, n0: Digit)

  const H0 := Digit(false, false, false, false)
  const H1 := Digit(false, false, false, true)
  const H2 := Digit(false, false, true, false)
  const H3 := Digit(false, false, true, true)
  const H4 := Digit(false, true, false, false)
  const H5 := Digit(false, true, false, true)
  const H6 := Digit(false, true, true, false)
  const H7 := Digit(false, true, true, true)
  const H8 := Digit(true, false, false, false)
  const H9 := Digit(true, false, false, true)
  const HA := Digit(true, false, true, false)
  const HB := Digit(true, false, true, true)
  const HC := Digit(true, true, false, false)
  const HD := Digit(true, true, false, true)
  const HE := Digit(true, true, true, false)
  const HF := Digit(true, true, true, true)

  function Bit(b: bool): nat { if b then 1 else 0 }

  function N(x: Digit): nat {
    Bit(x.b0) + 2 * (Bit(x.b1) + 2 * (Bit(x.b2) + 2 * Bit(x.b3)))
  }

  /** The digits of a word, the lowest first. */
  function Digits(w: Word): seq<Digit> {
    [w.n0, w.n1, w.n2, w.n3, w.n4, w.n5, w.n6, w.n7]
  }

  function Number(ds: seq<Digit>): nat
    decreases |ds|
  {
    if ds == [] then 0 else N(ds[0]) + 16 * Number(ds[1..])
  }

  function V(w: Word): nat { Number(Digits(w)) }

  function XorD(x: Digit, y: Digit): Digit {
    Digit(x.b3 != y.b3, x.b2 != y.b2, x.b1 != y.b1, x.b0 != y.b0)
  }

  function XorW(a: Word, b: Word): Word {
    Word(XorD(a.n7, b.n7), XorD(a.n6, b.n6), XorD(a.n5, b.n5), XorD(a.n4, b.n4),
         XorD(a.n3, b.n3), XorD(a.n2, b.n2), XorD(a.n1, b.n1), XorD(a.n0, b.n0))
  }

  lemma {:induction false} XorBit(a: bool, s: nat, b: bool, t: nat)
    ensures Xor(Bit(a) + 2 * s, Bit(b) + 2 * t) == Bit(a != b) + 2 * Xor(s, t)
  {
    hide Xor;
    XorStep(Bit(a), s, Bit(b), t);
    XorSmall(a, b);
  }

  lemma XorSmall(a: bool, b: bool)
    ensures Xor(Bit(a), Bit(b)) == Bit(a != b)
  {
  }

  lemma {:induction false} XorBits(a: bool, b: bool, s: nat, c: bool, d: bool, t: nat)
    ensures Xor(Bit(a) + 2 * (Bit(b) + 2 * s), Bit(c) + 2 * (Bit(d) + 2 * t))
         == Bit(a != c) + 2 * (Bit(b != d) + 2 * Xor(s, t))
  {
    hide Xor, Bit;
    XorBit(a, Bit(b) + 2 * s, c, Bit(d) + 2 * t);
    XorBit(b, s, d, t);
  }

  lemma DigitParts(x: Digit, s: nat, h: nat)
    requires h == Bit(x.b2) + 2 * (Bit(x.b3) + 2 * s)
    ensures N(x) + 16 * s == Bit(x.b0) + 2 * (Bit(x.b1) + 2 * h)
  {
    hide Bit;
  }

  lemma {:induction false} XorLow(x: Digit, s: nat, u: nat, y: Digit, t: nat, v: nat)
    requires u == Bit(x.b2) + 2 * (Bit(x.b3) + 2 * s) && v == Bit(y.b2) + 2 * (Bit(y.b3) + 2 * t)
    ensures Xor(N(x) + 16 * s, N(y) + 16 * t) == Bit(x.b0 != y.b0) + 2 * (Bit(x.b1 != y.b1) + 2 * Xor(u, v))
  {
    hide *;
    DigitParts(x, s, u);
    DigitParts(y, t, v);
    XorBits(x.b0, x.b1, u, y.b0, y.b1, v);
  }

  lemma {:induction false} XorDigit(x: Digit, s: nat, y: Digit, t: nat)
    ensures Xor(N(x) + 16 * s, N(y) + 16 * t) == N(XorD(x, y)) + 16 * Xor(s, t)
  {
    hide Xor, Bit, N;
    var u, v := Bit(x.b2) + 2 * (Bit(x.b3) + 2 * s), Bit(y.b2) + 2 * (Bit(y.b3) + 2 * t);
    XorLow(x, s, u, y, t, v);
    XorBits(x.b2, x.b3, s, y.b2, y.b3, t);
    DigitParts(XorD(x, y), Xor(s, t), Xor(u, v));
  }

  lemma {:induction false} XorNumber(xs: seq<Digit>, ys: seq<Digit>, zs: seq<Digit>)
    requires |xs| == |ys| == |zs|
    requires forall k :: 0 <= k < |xs| ==> zs[k] == XorD(xs[k], ys[k])
    ensures Xor(Number(xs), Number(ys)) == Number(zs)
    decreases |xs|
  {
    hide Xor, N, XorD;
    if xs == [] {
      XorZero(0);
    } else {
      XorNumber(xs[1..], ys[1..], zs[1..]);
      XorDigit(xs[0], Number(xs[1..]), ys[0], Number(ys[1..]));
    }
  }

  lemma XorWIs(a: Word, b: Word)
    ensures Xor(V(a), V(b)) == V(XorW(a, b))
  {
    hide Xor, Number, XorD;
    XorNumber(Digits(a), Digits(b), Digits(XorW(a, b)));
  }

  /** All bits one place down, `carry` into the highest. */
  function HalfDigit(carry: bool, x: Digit): Digit {
    Digit(carry, x.b3, x.b2, x.b1)
  }

  function Half(w: Word): Word {
    Word(HalfDigit(false, w.n7), HalfDigit(w.n7.b0, w.n6), HalfDigit(w.n6.b0, w.n5), HalfDigit(w.n5.b0, w.n4),
         HalfDigit(w.n4.b0, w.n3), HalfDigit(w.n3.b0, w.n2), HalfDigit(w.n2.b0, w.n1), HalfDigit(w.n1.b0, w.n0))
  }

  lemma HalfParts(carry: bool, x: Digit)
    ensures N(x) + 16 * Bit(carry) == Bit(x.b0) + 2 * N(HalfDigit(carry, x))
  {
    hide Bit;
  }

  predicate LowBit(xs: seq<Digit>, k: nat) {
    k < |xs| && xs[k].b0
  }

  lemma {:induction false} HalfNumber(xs: seq<Digit>, hs: seq<Digit>)
    requires |xs| == |hs| > 0
    requires forall k :: 0 <= k < |xs| ==> hs[k] == HalfDigit(LowBit(xs, k + 1), xs[k])
    ensures Number(xs) == Bit(xs[0].b0) + 2 * Number(hs)
    decreases |xs|
  {
    hide N, HalfDigit;
    HalfParts(LowBit(xs, 1), xs[0]);
    if |xs| > 1 {
      forall k | 0 <= k < |xs| - 1
        ensures hs[1..][k] == HalfDigit(LowBit(xs[1..], k + 1), xs[1..][k])
      {
        assert LowBit(xs[1..], k + 1) == LowBit(xs, k + 2);
        assert hs[1..][k] == hs[k + 1];
      }
      HalfNumber(xs[1..], hs[1..]);
    } else {
      assert xs[1..] == hs[1..] == [];
      assert Number(xs[1..]) == Number(hs[1..]) == 0;
    }
  }

  /** Multiplication by x. */
  function Next(p: Word, w: Word): Word {
    if w.n0.b0 then XorW(Half(w), p) else Half(w)
  }

  lemma NextIs(p: Word, w: Word)
    ensures Mulx(V(p), V(w)) == V(Next(p, w))
  {
    hide Xor, Number, N, XorD, HalfDigit, XorW;
    HalfNumber(Digits(w), Digits(Half(w)));
    XorWIs(Half(w), p);
  }

  function Next8(p: Word, w: Word): Word {
    Next(p, Next(p, Next(p, Next(p, Next(p, Next(p, Next(p, Next(p, w))))))))
  }

  lemma {:induction false} NextMore(p: Word, w: Word, a: nat, n: nat)
    requires MulxN(V(p), a, n) == V(w)
    ensures MulxN(V(p), a, n + 1) == V(Next(p, w))
  {
    hide Mulx, V, Next;
    NextIs(p, w);
  }

  lemma {:induction false} Next8Is(p: Word, w: Word)
    ensures MulxN(V(p), V(w), 8) == V(Next8(p, w))
  {
    hide MulxN, V, Next;
    MulxNZeroTimes(V(p), V(w));
    var w1 := Next(p, w);
    var w2 := Next(p, w1);
    var w3 := Next(p, w2);
    var w4 := Next(p, w3);
    var w5 := Next(p, w4);
    var w6 := Next(p, w5);
    var w7 := Next(p, w6);
    NextMore(p, w, V(w), 0);
    NextMore(p, w1, V(w), 1);
    NextMore(p, w2, V(w), 2);
    NextMore(p, w3, V(w), 3);
    NextMore(p, w4, V(w), 4);
    NextMore(p, w5, V(w), 5);
    NextMore(p, w6, V(w), 6);
    NextMore(p, w7, V(w), 7);
  }

  const CASTAGNOLI := Word(H8, H2, HF, H6, H3, HB, H7, H8)

  /** The register after one byte of the message, whose digits are hi and lo. */
  function Fed(w: Word, hi: Digit, lo: Digit): Word {
    Next8(CASTAGNOLI, w.(n1 := XorD(w.n1, hi), n0 := XorD(w.n0, lo)))
  }

  function Fed4(w: Word, m: Word): Word {
    Fed(Fed(Fed(Fed(w, m.n1, m.n0), m.n3, m.n2), m.n5, m.n4), m.n7, m.n6)
  }

  lemma NumberMore(d: Digit, ds: seq<Digit>)
    ensures Number([d] + ds) == N(d) + 16 * Number(ds)
  {
    hide N;
    assert ([d] + ds)[1..] == ds;
  }

  function High(w: Word): nat {
    N(w.n4) + 16 * (N(w.n5) + 16 * (N(w.n6) + 16 * N(w.n7)))
  }

  lemma HighParts(w: Word)
    ensures Number([w.n4, w.n5, w.n6, w.n7]) == High(w)
  {
    assert Number([]) == 0;
    hide N, Number;
    NumberMore(w.n7, []);
    NumberMore(w.n6, [w.n7]);
    NumberMore(w.n5, [w.n6, w.n7]);
    NumberMore(w.n4, [w.n5, w.n6, w.n7]);
    assert [w.n7] + [] == [w.n7];
    assert [w.n6] + [w.n7] == [w.n6, w.n7];
    assert [w.n5] + [w.n6, w.n7] == [w.n5, w.n6, w.n7];
    assert [w.n4] + [w.n5, w.n6, w.n7] == [w.n4, w.n5, w.n6, w.n7];
  }

  lemma VParts(w: Word)
    ensures V(w) == N(w.n0) + 16 * (N(w.n1) + 16 * (N(w.n2) + 16 * (N(w.n3) + 16 * High(w))))
  {
    hide N, Number, High;
    var hs := [w.n4, w.n5, w.n6, w.n7];
    HighParts(w);
    NumberMore(w.n3, hs);
    NumberMore(w.n2, [w.n3] + hs);
    NumberMore(w.n1, [w.n2] + ([w.n3] + hs));
    NumberMore(w.n0, [w.n1] + ([w.n2] + ([w.n3] + hs)));
    assert Digits(w) == [w.n0] + ([w.n1] + ([w.n2] + ([w.n3] + hs)));
  }

  const ALL := Word(HF, HF, HF, HF, HF, HF, HF, HF)
  const ZERO := Word(H0, H0, H0, H0, H0, H0, H0, H0)

  lemma KnownWords()
    ensures V(CASTAGNOLI) == POLY32C && V(ALL) == 0xFFFF_FFFF
  {
    VParts(CASTAGNOLI);
    VParts(ALL);
  }

  lemma {:induction false} FedIs(w: Word, hi: Digit, lo: Digit, b: Byte)
    requires b == N(lo) + 16 * N(hi)
    ensures CrcBits(POLY32C, V(w), b, 8) == V(Fed(w, hi, lo))
  {
    var m := ZERO.(n1 := hi, n0 := lo);
    var v := w.(n1 := XorD(w.n1, hi), n0 := XorD(w.n0, lo));
    ByteWord(hi, lo);
    AddByte(w, hi, lo);
    hide Xor, MulxN, CrcBits, V, Next8, XorW, XorD, N;
    XorWIs(w, m);
    CrcByte(POLY32C, V(w), b);
    KnownWords();
    Next8Is(CASTAGNOLI, v);
  }

  lemma AddByte(w: Word, hi: Digit, lo: Digit)
    ensures XorW(w, ZERO.(n1 := hi, n0 := lo)) == w.(n1 := XorD(w.n1, hi), n0 := XorD(w.n0, lo))
  {
  }

  lemma ByteWord(hi: Digit, lo: Digit)
    ensures V(ZERO.(n1 := hi, n0 := lo)) == N(lo) + 16 * N(hi)
  {
    VParts(ZERO.(n1 := hi, n0 := lo));
  }

  /** Four bytes of the message, the lowest first. */
  ghost predicate FourAt(data: seq<Byte>, i: nat, m: Word) {
    && i + 4 <= |data|
    && data[i] == N(m.n0) + 16 * N(m.n1) && data[i + 1] == N(m.n2) + 16 * N(m.n3)
    && data[i + 2] == N(m.n4) + 16 * N(m.n5) && data[i + 3] == N(m.n6) + 16 * N(m.n7)
  }

  ghost predicate Reached(data: seq<Byte>, i: nat, w: Word) {
    After(POLY32C, 0xFFFF_FFFF, data, i, V(w))
  }

  lemma {:induction false} OneMore(data: seq<Byte>, i: nat, w: Word, hi: Digit, lo: Digit)
    requires i < |data| && Reached(data, i, w) && data[i] == N(lo) + 16 * N(hi)
    ensures Reached(data, i + 1, Fed(w, hi, lo))
  {
    var d := data[i..i + 1];
    assert d == [data[i]];
    OneByte(V(w), data[i]);
    hide CrcBits, Crc, V, Fed, N;
    FedIs(w, hi, lo, data[i]);
    AfterMore(POLY32C, 0xFFFF_FFFF, data, i, i + 1, V(w));
  }

  lemma OneByte(c: nat, b: Byte)
    ensures Crc(POLY32C, c, [b]) == CrcBits(POLY32C, c, b, 8)
  {
    hide CrcBits;
    assert [b][1..] == [];
  }

  lemma {:induction false} FourMore(data: seq<Byte>, i: nat, w: Word, m: Word, v: Word)
    requires Reached(data, i, w) && FourAt(data, i, m) && Fed4(w, m) == v
    ensures Reached(data, i + 4, v)
  {
    hide Reached, Fed, N;
    var w1 := Fed(w, m.n1, m.n0);
    var w2 := Fed(w1, m.n3, m.n2);
    var w3 := Fed(w2, m.n5, m.n4);
    OneMore(data, i, w, m.n1, m.n0);
    OneMore(data, i + 1, w1, m.n3, m.n2);
    OneMore(data, i + 2, w2, m.n5, m.n4);
    OneMore(data, i + 3, w3, m.n7, m.n6);
  }

  lemma Begins(data: seq<Byte>)
    ensures Reached(data, 0, ALL)
  {
    KnownWords();
    AfterNone(POLY32C, 0xFFFF_FFFF, data);
  }

  /** The register at the end, inverted. */
  lemma Ends(data: seq<Byte>, w: Word)
    requires Reached(data, |data|, w)
    ensures Xor(Crc(POLY32C, 0xFFFF_FFFF, data), 0xFFFF_FFFF) == V(XorW(w, ALL))
  {
    hide Xor, Crc, V, XorW;
    KnownWords();
    AfterAll(POLY32C, 0xFFFF_FFFF, data, V(w));
    XorWIs(w, ALL);
  }

  lemma {:induction false} Zeroes0(data: seq<Byte>)
    requires Reached(data, 0, Word(HF, HF, HF, HF, HF, HF, HF, HF))
    requires FourAt(data, 0, Word(H0, H0, H0, H0, H0, H0, H0, H0))
    ensures Reached(data, 4, Word(HB, H7, H9, H8, HB, H4, H3, H8))
  {
    hide Reached, FourAt;
    FourMore(data, 0, Word(HF, HF, HF, HF, HF, HF, HF, HF), Word(H0, H0, H0, H0, H0, H0, H0, H0),
             Word(HB, H7, H9, H8, HB, H4, H3, H8));
  }

  lemma {:induction false} Zeroes1(data: seq<Byte>)
    requires Reached(data, 4, Word(HB, H7, H9, H8, HB, H4, H3, H8))
    requires FourAt(data, 4, Word(H0, H0, H0, H0, H0, H0, H0, H0))
    ensures Reached(data, 8, Word(H7, H3, HD, H7, H4, HD, H7, H5))
  {
    hide Reached, FourAt;
    FourMore(data, 4, Word(HB, H7, H9, H8, HB, H4, H3, H8), Word(H0, H0, H0, H0, H0, H0, H0, H0),
             Word(H7, H3, HD, H7, H4, HD, H7, H5));
  }

  lemma {:induction false} Zeroes2(data: seq<Byte>)
    requires Reached(data, 8, Word(H7, H3, HD, H7, H4, HD, H7, H5))
    requires FourAt(data, 8, Word(H0, H0, H0, H0, H0, H0, H0, H0))
    ensures Reached(data, 12, Word(HD, H4, H9, HF, H4, HA, HA, H2))
  {
    hide Reached, FourAt;
    FourMore(data, 8, Word(H7, H3, HD, H7, H4, HD, H7, H5), Word(H0, H0, H0, H0, H0, H0, H0, H0),
             Word(HD, H4, H9, HF, H4, HA, HA, H2));
  }

  lemma {:induction false} Zeroes3(data: seq<Byte>)
    requires Reached(data, 12, Word(HD, H4, H9, HF, H4, HA, HA, H2))
    requires FourAt(data, 12, Word(H0, H0, H0, H0, H0, H0, H0, H0))
    ensures Reached(data, 16, Word(HB, HD, H8, HF, H6, H5, H1, H5))
  {
    hide Reached, FourAt;
    FourMore(data, 12, Word(HD, H4, H9, HF, H4, HA, HA, H2), Word(H0, H0, H0, H0, H0, H0, H0, H0),
             Word(HB, HD, H8, HF, H6, H5, H1, H5));
  }

  lemma {:induction false} Zeroes4(data: seq<Byte>)
    requires Reached(data, 16, Word(HB, HD, H8, HF, H6, H5, H1, H5))
    requires FourAt(data, 16, Word(H0, H0, H0, H0, H0, H0, H0, H0))
    ensures Reached(data, 20, Word(H4, H3, H3, HA, HA, H9, HC, H1))
  {
    hide Reached, FourAt;
    FourMore(data, 16, Word(HB, HD, H8, HF, H6, H5, H1, H5), Word(H0, H0, H0, H0, H0, H0, H0, H0),
             Word(H4, H3, H3, HA, HA, H9, HC, H1));
  }

  lemma {:induction false} Zeroes5(data: seq<Byte>)
    requires Reached(data, 20, Word(H4, H3, H3, HA, HA, H9, HC, H1))
    requires FourAt(data, 20, Word(H0, H0, H0, H0, H0, H0, H0, H0))
    ensures Reached(data, 24, Word(H7, HB, H0, H4, H1, H3, H1, H1))
  {
    hide Reached, FourAt;
    FourMore(data, 20, Word(H4, H3, H3, HA, HA, H9, HC, H1), Word(H0, H0, H0, H0, H0, H0, H0, H0),
             Word(H7, HB, H0, H4, H1, H3, H1, H1));
  }

  lemma {:induction false} Zeroes6(data: seq<Byte>)
    requires Reached(data, 24, Word(H7, HB, H0, H4, H1, H3, H1, H1))
    requires FourAt(data, 24, Word(H0, H0, H0, H0, H0, H0, H0, H0))
    ensures Reached(data, 28, Word(H0, H8, H3, H6, H3, H8, H9, H6))
  {
    hide Reached, FourAt;
    FourMore(data, 24, Word(H7, HB, H0, H4, H1, H3, H1, H1), Word(H0, H0, H0, H0, H0, H0, H0, H0),
             Word(H0, H8, H3, H6, H3, H8, H9, H6));
  }

  lemma {:induction false} Zeroes7(data: seq<Byte>)
    requires Reached(data, 28, Word(H0, H8, H3, H6, H3, H8, H9, H6))
    requires FourAt(data, 28, Word(H0, H0, H0, H0, H0, H0, H0, H0))
    ensures Reached(data, 32, Word(H7, H5, H6, HE, HC, H9, H5, H5))
  {
    hide Reached, FourAt;
    FourMore(data, 28, Word(H0, H8, H3, H6, H3, H8, H9, H6), Word(H0, H0, H0, H0, H0, H0, H0, H0),
             Word(H7, H5, H6, HE, HC, H9, H5, H5));
  }

  lemma ZeroesEnd()
    ensures V(XorW(Word(H7, H5, H6, HE, HC, H9, H5, H5), ALL)) == 0x8A9136AA
  {
    VParts(XorW(Word(H7, H5, H6, HE, HC, H9, H5, H5), ALL));
  }

  lemma ZeroesData(data: seq<Byte>)
    requires |data| == 32 && forall k :: 0 <= k < 32 ==> data[k] == 0
    ensures FourAt(data, 0, Word(H0, H0, H0, H0, H0, H0, H0, H0))
    ensures FourAt(data, 4, Word(H0, H0, H0, H0, H0, H0, H0, H0))
    ensures FourAt(data, 8, Word(H0, H0, H0, H0, H0, H0, H0, H0))
    ensures FourAt(data, 12, Word(H0, H0, H0, H0, H0, H0, H0, H0))
    ensures FourAt(data, 16, Word(H0, H0, H0, H0, H0, H0, H0, H0))
    ensures FourAt(data, 20, Word(H0, H0, H0, H0, H0, H0, H0, H0))
    ensures FourAt(data, 24, Word(H0, H0, H0, H0, H0, H0, H0, H0))
    ensures FourAt(data, 28, Word(H0, H0, H0, H0, H0, H0, H0, H0))
  {
  }

  /** 32 bytes of zeroes: the bytes aa 36 91 8a. */
  lemma {:induction false} Zeroes(data: seq<Byte>)
    requires |data| == 32 && forall k :: 0 <= k < 32 ==> data[k] == 0
    ensures Xor(Crc(POLY32C, 0xFFFF_FFFF, data), 0xFFFF_FFFF) == 0x8A9136AA
  {
    ZeroesData(data);
    hide *;
    Begins(data);
    Zeroes0(data);
    Zeroes1(data);
    Zeroes2(data);
    Zeroes3(data);
    Zeroes4(data);
    Zeroes5(data);
    Zeroes6(data);
    Zeroes7(data);
    Ends(data, Word(H7, H5, H6, HE, HC, H9, H5, H5));
    ZeroesEnd();
  }

  lemma {:induction false} Incrementing0(data: seq<Byte>)
    requires Reached(data, 0, Word(HF, HF, HF, HF, HF, HF, HF, HF))
    requires FourAt(data, 0, Word(H0, H3, H0, H2, H0, H1, H0, H0))
    ensures Reached(data, 4, Word(H2, H6, HC, HC, HE, H5, H5, HC))
  {
    hide Reached, FourAt;
    FourMore(data, 0, Word(HF, HF, HF, HF, HF, HF, HF, HF), Word(H0, H3, H0, H2, H0, H1, H0, H0),
             Word(H2, H6, HC, HC, HE, H5, H5, HC));
  }

  lemma {:induction false} Incrementing1(data: seq<Byte>)
    requires Reached(data, 4, Word(H2, H6, HC, HC, HE, H5, H5, HC))
    requires FourAt(data, 4, Word(H0, H7, H0, H6, H0, H5, H0, H4))
    ensures Reached(data, 8, Word(H7, H5, HD, H3, H4, H3, HC, H4))
  {
    hide Reached, FourAt;
    FourMore(data, 4, Word(H2, H6, HC, HC, HE, H5, H5, HC), Word(H0, H7, H0, H6, H0, H5, H0, H4),
             Word(H7, H5, HD, H3, H4, H3, HC, H4));
  }

  lemma {:induction false} Incrementing2(data: seq<Byte>)
    requires Reached(data, 8, Word(H7, H5, HD, H3, H4, H3, HC, H4))
    requires FourAt(data, 8, Word(H0, HB, H0, HA, H0, H9, H0, H8))
    ensures Reached(data, 12, Word(HA, HC, H7, HC, H5, H5, H4, H5))
  {
    hide Reached, FourAt;
    FourMore(data, 8, Word(H7, H5, HD, H3, H4, H3, HC, H4), Word(H0, HB, H0, HA, H0, H9, H0, H8),
             Word(HA, HC, H7, HC, H5, H5, H4, H5));
  }

  lemma {:induction false} Incrementing3(data: seq<Byte>)
    requires Reached(data, 12, Word(HA, HC, H7, HC, H5, H5, H4, H5))
    requires FourAt(data, 12, Word(H0, HF, H0, HE, H0, HD, H0, HC))
    ensures Reached(data, 16, Word(H2, H6, H3, H6, HF, H7, H1, H4))
  {
    hide Reached, FourAt;
    FourMore(data, 12, Word(HA, HC, H7, HC, H5, H5, H4, H5), Word(H0, HF, H0, HE, H0, HD, H0, HC),
             Word(H2, H6, H3, H6, HF, H7, H1, H4));
  }

  lemma {:induction false} Incrementing4(data: seq<Byte>)
    requires Reached(data, 16, Word(H2, H6, H3, H6, HF, H7, H1, H4))
    requires FourAt(data, 16, Word(H1, H3, H1, H2, H1, H1, H1, H0))
    ensures Reached(data, 20, Word(H3, H3, H8, H6, H1, H4, H1, H9))
  {
    hide Reached, FourAt;
    FourMore(data, 16, Word(H2, H6, H3, H6, HF, H7, H1, H4), Word(H1, H3, H1, H2, H1, H1, H1, H0),
             Word(H3, H3, H8, H6, H1, H4, H1, H9));
  }

  lemma {:induction false} Incrementing5(data: seq<Byte>)
    requires Reached(data, 20, Word(H3, H3, H8, H6, H1, H4, H1, H9))
    requires FourAt(data, 20, Word(H1, H7, H1, H6, H1, H5, H1, H4))
    ensures Reached(data, 24, Word(HD, H6, H4, H3, H7, H8, H6, HA))
  {
    hide Reached, FourAt;
    FourMore(data, 20, Word(H3, H3, H8, H6, H1, H4, H1, H9), Word(H1, H7, H1, H6, H1, H5, H1, H4),
             Word(HD, H6, H4, H3, H7, H8, H6, HA));
  }

  lemma {:induction false} Incrementing6(data: seq<Byte>)
    requires Reached(data, 24, Word(HD, H6, H4, H3, H7, H8, H6, HA))
    requires FourAt(data, 24, Word(H1, HB, H1, HA, H1, H9, H1, H8))
    ensures Reached(data, 28, Word(H9, HB, H2, H1, H3, H6, H3, HE))
  {
    hide Reached, FourAt;
    FourMore(data, 24, Word(HD, H6, H4, H3, H7, H8, H6, HA), Word(H1, HB, H1, HA, H1, H9, H1, H8),
             Word(H9, HB, H2, H1, H3, H6, H3, HE));
  }

  lemma {:induction false} Incrementing7(data: seq<Byte>)
    requires Reached(data, 28, Word(H9, HB, H2, H1, H3, H6, H3, HE))
    requires FourAt(data, 28, Word(H1, HF, H1, HE, H1, HD, H1, HC))
    ensures Reached(data, 32, Word(HB, H9, H2, H2, H8, H6, HB, H1))
  {
    hide Reached, FourAt;
    FourMore(data, 28, Word(H9, HB, H2, H1, H3, H6, H3, HE), Word(H1, HF, H1, HE, H1, HD, H1, HC),
             Word(HB, H9, H2, H2, H8, H6, HB, H1));
  }

  lemma IncrementingEnd()
    ensures V(XorW(Word(HB, H9, H2, H2, H8, H6, HB, H1), ALL)) == 0x46DD794E
  {
    VParts(XorW(Word(HB, H9, H2, H2, H8, H6, HB, H1), ALL));
  }

  lemma IncrementingData(data: seq<Byte>)
    requires |data| == 32 && forall k :: 0 <= k < 32 ==> data[k] == k
    ensures FourAt(data, 0, Word(H0, H3, H0, H2, H0, H1, H0, H0))
    ensures FourAt(data, 4, Word(H0, H7, H0, H6, H0, H5, H0, H4))
    ensures FourAt(data, 8, Word(H0, HB, H0, HA, H0, H9, H0, H8))
    ensures FourAt(data, 12, Word(H0, HF, H0, HE, H0, HD, H0, HC))
    ensures FourAt(data, 16, Word(H1, H3, H1, H2, H1, H1, H1, H0))
    ensures FourAt(data, 20, Word(H1, H7, H1, H6, H1, H5, H1, H4))
    ensures FourAt(data, 24, Word(H1, HB, H1, HA, H1, H9, H1, H8))
    ensures FourAt(data, 28, Word(H1, HF, H1, HE, H1, HD, H1, HC))
  {
  }

  /** 32 bytes of incrementing 00..1f: the bytes 4e 79 dd 46. */
  lemma {:induction false} Incrementing(data: seq<Byte>)
    requires |data| == 32 && forall k :: 0 <= k < 32 ==> data[k] == k
    ensures Xor(Crc(POLY32C, 0xFFFF_FFFF, data), 0xFFFF_FFFF) == 0x46DD794E
  {
    IncrementingData(data);
    hide *;
    Begins(data);
    Incrementing0(data);
    Incrementing1(data);
    Incrementing2(data);
    Incrementing3(data);
    Incrementing4(data);
    Incrementing5(data);
    Incrementing6(data);
    Incrementing7(data);
    Ends(data, Word(HB, H9, H2, H2, H8, H6, HB, H1));
    IncrementingEnd();
  }
}

/** The CRC of a byte string, as section 8 of RFC 1952 and section 12.1 of RFC 3720 compute it
    bit by bit, and the table-driven loops that compute it a byte or a word at a time. */
module CrcBase {
  import opened Bits
  import opened Gf

  // ----- the reference: one bit at a time, lowest bit of each byte first -----

  /** Shifts the low n bits of m into the register c. */
  function CrcBits(p: nat, c: nat, m: nat, n: nat): nat
    decreases n
  {
    if n == 0 then c else CrcBits(p, Mulx(p, Xor(c, m % 2)), m / 2, n - 1)
  }

  function Crc(p: nat, c: nat, data: seq<Byte>): nat
    decreases |data|
  {
    if data == [] then c else Crc(p, CrcBits(p, c, data[0], 8), data[1..])
  }

  /** Bits shifted in one by one may be added all at once. */
  lemma {:induction false} CrcBitsIs(p: nat, c: nat, m: nat, n: nat)
    requires m < Pow2(n)
    ensures CrcBits(p, c, m, n) == MulxN(p, Xor(c, m), n)
    decreases n
  {
    if n == 0 {
      XorZero(c);
    } else {
      var d, h := m % 2, m / 2;
      var c' := Mulx(p, Xor(c, d));
      assert MulxN(p, Xor(Xor(c, d), 2 * h), 1) == Mulx(p, Xor(Xor(c, d), 2 * h));
      assert Mulx(p, 2 * h) == h;
      assert CrcBits(p, c, m, n) == CrcBits(p, c', h, n - 1);
      hide Xor, Mulx, MulxN, CrcBits;
      XorJoin(d, h, 1);
      assert Shl(h, 1) == 2 * h;
      XorAssoc(c, d, 2 * h);
      MulxXor(p, Xor(c, d), 2 * h);
      MulxNAdd(p, Xor(c, m), 1, n - 1);
      CrcBitsIs(p, c', h, n - 1);
      assert MulxN(p, Xor(c, m), 1) == Xor(c', h);
    }
  }

  /** The message as one number, first byte lowest: what a little-endian load reads. */
  function Le(data: seq<Byte>): nat
    decreases |data|
  {
    if data == [] then 0 else data[0] + Shl(Le(data[1..]), 8)
  }

  lemma {:induction false} LeBound(data: seq<Byte>)
    ensures Le(data) < Pow2(8 * |data|)
    decreases |data|
  {
    if data != [] {
      LeBound(data[1..]);
      ShlIs(Le(data[1..]), 8);
      Pow2Add(8, 8 * |data[1..]|);
      Pow2Byte();
    }
  }

  /** One byte of the message is eight steps of the reference. */
  lemma {:induction false} CrcByte(p: nat, c: nat, b: Byte)
    ensures CrcBits(p, c, b, 8) == MulxN(p, Xor(c, b), 8)
  {
    Pow2Byte();
    CrcBitsIs(p, c, b, 8);
  }

  lemma {:induction false} CrcByteThen(p: nat, c: nat, b: Byte, h: nat, n: nat)
    ensures MulxN(p, Xor(c, b + Shl(h, 8)), 8 + n) == MulxN(p, Xor(CrcBits(p, c, b, 8), h), n)
  {
    hide *;
    Pow2Byte();
    CrcByte(p, c, b);
    MulxNLoad(p, c, b, h, 8);
    MulxNAdd(p, Xor(c, b + Shl(h, 8)), 8, n);
  }

  /** A CRC is the whole message, read as one number and added to the register, times x^(8 |data|):
      the reason why any grouping of the bytes gives the same result. */
  lemma {:induction false} CrcIs(p: nat, c: nat, data: seq<Byte>)
    ensures Crc(p, c, data) == MulxN(p, Xor(c, Le(data)), 8 * |data|)
    decreases |data|
  {
    hide Xor, Mulx, MulxN, CrcBits, Shl;
    if data == [] {
      XorZero(c);
      MulxNZeroTimes(p, c);
    } else {
      CrcIs(p, CrcBits(p, c, data[0], 8), data[1..]);
      CrcByteThen(p, c, data[0], Le(data[1..]), 8 * |data[1..]|);
    }
  }

  lemma {:induction false} CrcAppend(p: nat, c: nat, a: seq<Byte>, b: seq<Byte>)
    ensures Crc(p, c, a + b) == Crc(p, Crc(p, c, a), b)
    decreases |a|
  {
    if a == [] {
      assert a + b == b;
    } else {
      assert (a + b)[1..] == a[1..] + b;
      CrcAppend(p, CrcBits(p, c, a[0], 8), a[1..], b);
    }
  }

  lemma {:induction false} CrcBound(p: nat, c: nat, data: seq<Byte>, w: nat)
    requires 8 <= w && p < Pow2(w) && c < Pow2(w)
    ensures Crc(p, c, data) < Pow2(w)
    decreases |data|
  {
    if data != [] {
      var c' := CrcBits(p, c, data[0], 8);
      hide Xor, Mulx, MulxN, CrcBits;
      CrcByte(p, c, data[0]);
      Pow2Mono(8, w);
      Pow2Byte();
      XorBound(c, data[0], w);
      MulxNBound(p, Xor(c, data[0]), 8, w);
      CrcBound(p, c', data[1..], w);
    }
  }

  lemma {:induction false} Pow2Mono(j: nat, k: nat)
    requires j <= k
    ensures Pow2(j) <= Pow2(k)
  {
    if j < k {
      Pow2Mono(j, k - 1);
    }
  }

  /** The register enters linearly: it contributes itself times x^(8 |data|). */
  lemma {:induction false} CrcLinear(p: nat, c: nat, d: nat, data: seq<Byte>)
    ensures Crc(p, Xor(c, d), data) == Xor(MulxN(p, c, 8 * |data|), Crc(p, d, data))
  {
    hide Xor, Mulx, MulxN, Crc, Le;
    CrcIs(p, Xor(c, d), data);
    CrcIs(p, d, data);
    XorAssoc(c, d, Le(data));
    MulxNXor(p, c, Xor(d, Le(data)), 8 * |data|);
  }

  /** `r` is the register after the first i bytes, having started from `start`. */
  ghost predicate After(p: nat, start: nat, data: seq<Byte>, i: nat, r: nat) {
    i <= |data| && r == Crc(p, start, data[..i]) && r < W32
  }

  lemma AfterNone(p: nat, start: nat, data: seq<Byte>)
    requires start < W32
    ensures After(p, start, data, 0, start)
  {
  }

  lemma AfterAll(p: nat, start: nat, data: seq<Byte>, r: nat)
    requires After(p, start, data, |data|, r)
    ensures r == Crc(p, start, data) < W32
  {
    assert data[..|data|] == data;
  }

  lemma {:induction false} AfterMore(p: nat, start: nat, data: seq<Byte>, i: nat, j: nat, r: nat)
    requires i <= j <= |data| && After(p, start, data, i, r) && p < W32
    ensures After(p, start, data, j, Crc(p, r, data[i..j]))
  {
    hide Crc, Pow2;
    assert data[..j] == data[..i] + data[i..j];
    CrcAppend(p, start, data[..i], data[i..j]);
    Pow2Word();
    CrcBound(p, r, data[i..j], 32);
  }

  // ----- tables -----

  /** The lookup table whose entry i is i * x^k. */
  function Table(p: nat, k: nat): (t: seq<nat>)
    ensures |t| == 256
  {
    seq(256, i requires 0 <= i => MulxN(p, i, k))
  }

  /** A signed char widened to an unsigned register of w bits. */
  function SignExtend(b: Byte, w: nat): nat
    requires w >= 8
  {
    if b < 128 then b else Shl(Pow2(w - 8) - 1, 8) + b
  }

  lemma {:induction false} XorLowByte(c: nat, b: Byte, h: nat)
    ensures Xor(c, b + Shl(h, 8)) == Xor(c % 256, b) + Shl(Xor(c / 256, h), 8)
    ensures Xor(c % 256, b) < 256
    ensures Xor(c, b + Shl(h, 8)) % 256 == Xor(c % 256, b)
  {
    hide *;
    Pow2Byte();
    ShlIs(c / 256, 8);
    XorSplit(c % 256, c / 256, b, h, 8);
    XorBound(c % 256, b, 8);
    ShlIs(Xor(c / 256, h), 8);
  }

  /** The byte step of the table loops is eight steps of the reference, whatever the sign of the byte. */
  lemma {:induction false} TableStep(p: nat, c: nat, b: Byte, w: nat)
    requires w >= 8
    ensures Xor(Table(p, 8)[Xor(c, SignExtend(b, w)) % 256], c / 256) == CrcBits(p, c, b, 8)
  {
    hide Xor, Mulx, MulxN, CrcBits, Shl, Pow2;
    var h := if b < 128 then 0 else Pow2(w - 8) - 1;
    ShlIs(0, 8);
    XorLowByte(c, b, h);
    ByteStep(p, c, b);
  }

  lemma {:induction false} ByteStep(p: nat, c: nat, b: Byte)
    ensures CrcBits(p, c, b, 8) == Xor(MulxN(p, Xor(c % 256, b), 8), c / 256)
  {
    hide *;
    Pow2Byte();
    CrcByte(p, c, b);
    ShlIs(c / 256, 8);
    XorComm(c, b);
    XorComm(c % 256, b);
    MulxNLoad(p, b, c % 256, c / 256, 8);
  }

  /** crc64_partial_one_table. */
  method PartialOneTable(data: seq<Byte>, crc: nat) returns (r: nat)
    ensures r == Crc(POLY64, crc, data)
  {
    r := crc;
    assert data[0..] == data;
    for i := 0 to |data|
      invariant Crc(POLY64, r, data[i..]) == Crc(POLY64, crc, data)
    {
      TableStep(POLY64, r, data[i], 64);
      assert data[i..][1..] == data[i + 1..];
      r := Xor(Table(POLY64, 8)[Xor(r, SignExtend(data[i], 64)) % 256], r / 256);
    }
    assert data[|data|..] == [];
  }
}

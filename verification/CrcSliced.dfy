/** The CRC loop that consumes four bytes per step through four tables. */
module CrcSliced {
  import opened Bits
  import opened Gf
  import opened CrcBase

  /** The macro DO_ONE: four lookups, one for each byte of the register. */
  function DoOne(p: nat, crc: nat, v: nat): nat
    requires Xor(crc, v) < W32
  {
    var c := Xor(crc, v);
    Xor(Xor(Xor(
        Table(p, 32)[c % 256],
        Table(p, 24)[c / 256 % 256]),
        Table(p, 16)[c / 65536 % 256]),
        Table(p, 8)[c / 16777216])
  }

  lemma {:induction false} Slice(p: nat, lo: nat, h: nat, k: nat, n: nat)
    requires lo < Pow2(k) && k <= n
    ensures MulxN(p, lo + Shl(h, k), n) == Xor(MulxN(p, lo, n), MulxN(p, h, n - k))
  {
    hide *;
    XorJoin(lo, h, k);
    MulxNXor(p, lo, Shl(h, k), n);
    MulxNShl(p, h, k, n);
  }

  lemma FourDigits(c: nat, b0: nat, b1: nat, b2: nat, b3: nat)
    requires b0 == c % 256 && b1 == c / 256 % 256 && b2 == c / 65536 % 256 && b3 == c / 16777216
    ensures c == b0 + 256 * (b1 + 256 * (b2 + 256 * b3))
  {
    assert c / 65536 == c / 256 / 256 && c / 16777216 == c / 256 / 256 / 256;
  }

  lemma {:induction false} FourSlices(p: nat, c: nat)
    requires c < W32
    ensures MulxN(p, c, 32)
         == Xor(Xor(Xor(
              MulxN(p, c % 256, 32),
              MulxN(p, c / 256 % 256, 24)),
              MulxN(p, c / 65536 % 256, 16)),
              MulxN(p, c / 16777216, 8))
  {
    hide *;
    Pow2Byte();
    var b0, b1, b2, b3 := c % 256, c / 256 % 256, c / 65536 % 256, c / 16777216;
    FourDigits(c, b0, b1, b2, b3);
    ShlIs(b3, 8);
    ShlIs(b2 + 256 * b3, 8);
    ShlIs(b1 + 256 * (b2 + 256 * b3), 8);
    Slice(p, b2, b3, 8, 16);
    Slice(p, b1, b2 + 256 * b3, 8, 24);
    Slice(p, b0, b1 + 256 * (b2 + 256 * b3), 8, 32);
    XorAssoc(MulxN(p, b1, 24), MulxN(p, b2, 16), MulxN(p, b3, 8));
    XorAssoc(MulxN(p, b0, 32), MulxN(p, b1, 24), Xor(MulxN(p, b2, 16), MulxN(p, b3, 8)));
    XorAssoc(Xor(MulxN(p, b0, 32), MulxN(p, b1, 24)), MulxN(p, b2, 16), MulxN(p, b3, 8));
  }

  /** One four-table step on a little-endian load is four bytes of the reference. */
  lemma {:induction false} DoOneIs(p: nat, crc: nat, bytes: seq<Byte>)
    requires |bytes| == 4 && p < W32 && crc < W32
    ensures Xor(crc, Le(bytes)) < W32 && DoOne(p, crc, Le(bytes)) == Crc(p, crc, bytes) < W32
  {
    hide Xor, MulxN, Mulx, Le, Crc, Pow2;
    Pow2Word();
    LeBound(bytes);
    XorBound(crc, Le(bytes), 32);
    FourSlices(p, Xor(crc, Le(bytes)));
    CrcIs(p, crc, bytes);
    CrcBound(p, crc, bytes, 32);
  }

  method Step(p: nat, ghost start: nat, crc: nat, data: seq<Byte>, i: nat) returns (r: nat)
    requires i + 4 <= |data| && p < W32 && After(p, start, data, i, crc)
    ensures After(p, start, data, i + 4, r)
  {
    AfterMore(p, start, data, i, i + 4, crc);
    DoOneIs(p, crc, data[i..i + 4]);
    r := DoOne(p, crc, Le(data[i..i + 4]));
  }

  /** The macro DO_FOUR. */
  method StepFour(p: nat, ghost start: nat, crc: nat, data: seq<Byte>, i: nat) returns (r: nat)
    requires i + 16 <= |data| && p < W32 && After(p, start, data, i, crc)
    ensures After(p, start, data, i + 16, r)
  {
    hide After;
    r := Step(p, start, crc, data, i);
    r := Step(p, start, r, data, i + 4);
    r := Step(p, start, r, data, i + 8);
    r := Step(p, start, r, data, i + 12);
  }

  method StepByte(p: nat, ghost start: nat, crc: nat, data: seq<Byte>, i: nat) returns (r: nat)
    requires i < |data| && p < W32 && After(p, start, data, i, crc)
    ensures After(p, start, data, i + 1, r)
  {
    AfterMore(p, start, data, i, i + 1, crc);
    TableStep(p, crc, data[i], 32);
    r := Xor(Table(p, 8)[Xor(crc, SignExtend(data[i], 32)) % 256], crc / 256);
  }

  /** crc32_partial_generic and crc32c_partial_four_tables: 32-byte blocks, then a tail of
      16, 8, 4, 2 and 1 bytes as the low bits of the length ask for. */
  method PartialFourTables(p: nat, data: seq<Byte>, crc: nat) returns (r: nat)
    requires p < W32 && crc < W32
    ensures r == Crc(p, crc, data) < W32
  {
    var len := |data|;
    var i := 0;
    r := crc;
    for x := len / 32 downto 0
      invariant i + 32 * x == len / 32 * 32
      invariant After(p, crc, data, i, r)
    {
      r := StepFour(p, crc, r, data, i);
      r := StepFour(p, crc, r, data, i + 16);
      i := i + 32;
    }
    r := Tail(p, crc, r, data, i);
    assert data[..len] == data;
  }

  lemma TailDigits(len: nat)
    ensures len / 16 * 16 == len / 32 * 32 + len / 16 % 2 * 16
    ensures len / 8 * 8 == len / 16 * 16 + len / 8 % 2 * 8
    ensures len / 4 * 4 == len / 8 * 8 + len / 4 % 2 * 4
    ensures len / 2 * 2 == len / 4 * 4 + len / 2 % 2 * 2
  {
    assert len / 4 == len / 2 / 2 && len / 8 == len / 4 / 2;
    assert len / 16 == len / 8 / 2 && len / 32 == len / 16 / 2;
  }

  method Tail(p: nat, ghost start: nat, crc: nat, data: seq<Byte>, begin: nat) returns (r: nat)
    requires p < W32 && begin == |data| / 32 * 32 && After(p, start, data, begin, crc)
    ensures After(p, start, data, |data|, r)
  {
    hide After;
    var len, i := |data|, begin;
    TailDigits(len);
    r := crc;
    if len / 16 % 2 == 1 {
      r := StepFour(p, start, r, data, i);
      i := i + 16;
    }
    assert i == len / 16 * 16;
    if len / 8 % 2 == 1 {
      r := Step(p, start, r, data, i);
      r := Step(p, start, r, data, i + 4);
      i := i + 8;
    }
    assert i == len / 8 * 8;
    if len / 4 % 2 == 1 {
      r := Step(p, start, r, data, i);
      i := i + 4;
    }
    assert i == len / 4 * 4;
    if len / 2 % 2 == 1 {
      r := StepByte(p, start, r, data, i);
      r := StepByte(p, start, r, data, i + 1);
      i := i + 2;
    }
    assert i == len / 2 * 2;
    if len % 2 == 1 {
      r := StepByte(p, start, r, data, i);
    }
  }
}

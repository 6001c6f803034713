/** Machine words as natural numbers: a W-bit unsigned register is a number below 2^W,
    `a >> 1` is a / 2, `a & 0xff` is a % 256, and exclusive or is defined on binary digits. */
module Bits {

  type Byte = b: nat | b < 256

  const W32: nat := 0x1_0000_0000
  const W64: nat := 0x1_0000_0000_0000_0000

  function Pow2(k: nat): (r: nat)
    ensures r > 0
  {
    if k == 0 then 1 else 2 * Pow2(k - 1)
  }

  lemma {:induction false} Pow2Add(j: nat, k: nat)
    ensures Pow2(j + k) == Pow2(j) * Pow2(k)
  {
    if j > 0 {
      Pow2Add(j - 1, k);
      Doubled(Pow2(j - 1), Pow2(k));
    }
  }

  lemma Doubled(a: nat, b: nat)
    ensures (2 * a) * b == 2 * (a * b)
  {
  }

  lemma {:induction false} Pow2Byte()
    ensures Pow2(8) == 256
  {
  }

  lemma {:induction false} Pow2Word()
    ensures Pow2(32) == W32
  {
    Pow2Byte();
    Pow2Add(8, 8);
    hide Pow2;
    Pow2Add(16, 16);
  }

  lemma {:induction false} Pow2Word64()
    ensures Pow2(64) == W64
  {
    hide Pow2;
    Pow2Word();
    Pow2Add(32, 32);
  }

  function Xor(a: nat, b: nat): nat
    decreases a + b
  {
    if a == 0 && b == 0 then 0 else 2 * Xor(a / 2, b / 2) + (a + b) % 2
  }

  lemma {:induction false} XorDigits(a: nat, b: nat)
    ensures Xor(a, b) / 2 == Xor(a / 2, b / 2)
    ensures Xor(a, b) % 2 == (a + b) % 2
  {
  }

  lemma SameDigits(x: nat, y: nat)
    requires x / 2 == y / 2 && x % 2 == y % 2
    ensures x == y
  {
  }

  lemma Parity(a: nat, b: nat, c: nat, u: nat, v: nat)
    requires u % 2 == (a + b) % 2 && v % 2 == (b + c) % 2
    ensures (u + c) % 2 == (a + v) % 2
  {
  }

  lemma {:induction false} XorStep(a: nat, s: nat, b: nat, t: nat)
    ensures Xor(a + 2 * s, b + 2 * t) == 2 * Xor(a / 2 + s, b / 2 + t) + (a + b) % 2
  {
    hide Xor;
    var u, v := a + 2 * s, b + 2 * t;
    Halved(a, s);
    Halved(b, t);
    SameParity(a + b, s + t);
    XorDigits(u, v);
  }

  lemma Halved(a: nat, s: nat)
    ensures (a + 2 * s) / 2 == a / 2 + s
  {
  }

  lemma SameParity(a: nat, s: nat)
    ensures (a + 2 * s) % 2 == a % 2
  {
  }

  lemma {:induction false} XorZero(a: nat)
    ensures Xor(a, 0) == a && Xor(0, a) == a
  {
    if a > 0 {
      XorZero(a / 2);
    }
  }

  lemma {:induction false} XorSelf(a: nat)
    ensures Xor(a, a) == 0
  {
    if a > 0 {
      XorSelf(a / 2);
    }
  }

  lemma {:induction false} XorComm(a: nat, b: nat)
    ensures Xor(a, b) == Xor(b, a)
    decreases a + b
  {
    if a + b > 0 {
      XorComm(a / 2, b / 2);
    }
  }

  lemma {:induction false} XorAssoc(a: nat, b: nat, c: nat)
    ensures Xor(Xor(a, b), c) == Xor(a, Xor(b, c))
    decreases a + b + c
  {
    if a + b + c > 0 {
      hide Xor;
      var u, v := Xor(a, b), Xor(b, c);
      XorDigits(a, b);
      XorDigits(b, c);
      XorDigits(u, c);
      XorDigits(a, v);
      XorAssoc(a / 2, b / 2, c / 2);
      Parity(a, b, c, u, v);
      SameDigits(Xor(u, c), Xor(a, v));
    }
  }

  /** Exchanging the inner two of four summands. */
  lemma {:induction false} XorSwap(a: nat, b: nat, c: nat, d: nat)
    ensures Xor(Xor(a, b), Xor(c, d)) == Xor(Xor(a, c), Xor(b, d))
  {
    hide Xor;
    XorAssoc(a, b, Xor(c, d));
    XorAssoc(b, c, d);
    XorComm(b, c);
    XorAssoc(c, b, d);
    XorAssoc(a, c, Xor(b, d));
  }

  /** Adding the same word twice changes nothing. */
  lemma {:induction false} XorCancel(a: nat, b: nat)
    ensures Xor(Xor(a, b), b) == a && Xor(b, Xor(b, a)) == a
  {
    hide Xor;
    XorAssoc(a, b, b);
    XorAssoc(b, b, a);
    XorSelf(b);
    XorZero(a);
  }

  lemma {:induction false} XorBound(a: nat, b: nat, k: nat)
    requires a < Pow2(k) && b < Pow2(k)
    ensures Xor(a, b) < Pow2(k)
  {
    if k > 0 {
      hide Xor;
      XorBound(a / 2, b / 2, k - 1);
      XorDigits(a, b);
    } else {
      XorZero(0);
    }
  }

  /** h << k. */
  function Shl(h: nat, k: nat): nat {
    if k == 0 then h else 2 * Shl(h, k - 1)
  }

  lemma {:induction false} ShlIs(h: nat, k: nat)
    ensures Shl(h, k) == Pow2(k) * h
  {
    if k > 0 {
      ShlIs(h, k - 1);
      Doubled(Pow2(k - 1), h);
    }
  }

  /** Exclusive or works separately on the low k bits and on the rest. */
  lemma {:induction false} XorSplit(a: nat, h: nat, b: nat, g: nat, k: nat)
    requires a < Pow2(k) && b < Pow2(k)
    ensures Xor(a + Shl(h, k), b + Shl(g, k)) == Xor(a, b) + Shl(Xor(h, g), k)
  {
    hide Xor;
    if k == 0 {
      XorZero(0);
    } else {
      XorSplit(a / 2, h, b / 2, g, k - 1);
      XorStep(a, Shl(h, k - 1), b, Shl(g, k - 1));
      XorStep(a, 0, b, 0);
    }
  }

  /** Joining two words with disjoint bits is addition. */
  lemma {:induction false} XorJoin(a: nat, h: nat, k: nat)
    requires a < Pow2(k)
    ensures Xor(a, Shl(h, k)) == a + Shl(h, k)
  {
    hide Xor;
    XorSplit(a, 0, 0, h, k);
    ShlIs(0, k);
    XorZero(a);
    XorZero(h);
  }

  /** a & b. */
  function And(a: nat, b: nat): nat
    decreases a + b
  {
    if a == 0 || b == 0 then 0 else 2 * And(a / 2, b / 2) + (if a % 2 == 1 && b % 2 == 1 then 1 else 0)
  }

  lemma {:induction false} AndSelf(a: nat)
    ensures And(a, a) == a
  {
    if a > 0 {
      AndSelf(a / 2);
    }
  }

  /** The test x & (x - 1) == 0 passes every power of two ... */
  lemma {:induction false} PowerOfTwoPasses(j: nat)
    ensures And(Pow2(j), Pow2(j) - 1) == 0
  {
    if j > 0 {
      var h := Pow2(j - 1);
      PowerOfTwoPasses(j - 1);
      assert (2 * h - 1) / 2 == h - 1;
    }
  }

  /** ... and nothing else but zero. */
  lemma {:induction false} PassesOnlyPowers(x: nat) returns (j: nat)
    requires x > 0 && And(x, x - 1) == 0
    ensures x == Pow2(j)
  {
    var h := x / 2;
    if x == 1 {
      return 0;
    } else if x % 2 == 1 {
      assert (x - 1) / 2 == h;
      AndSelf(h);
      assert false;
    } else {
      assert (x - 1) / 2 == h - 1;
      j := PassesOnlyPowers(h);
      j := j + 1;
    }
  }

  /** v >> k. */
  function Shr(v: nat, k: nat): nat
    decreases k
  {
    if k == 0 then v else Shr(v / 2, k - 1)
  }
}

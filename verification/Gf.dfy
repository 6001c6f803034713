/** Polynomials over GF(2) modulo a fixed polynomial, in the reflected representation the CRC
    code uses: the highest bit of a register is the coefficient of x^0. The reflected
    polynomial `p` is a parameter, so one theory serves CRC-32, CRC-32C and CRC-64. */
module Gf {
  import opened Bits

  const POLY32: nat := 0xedb88320
  const POLY32C: nat := 0x82F63B78
  const POLY64: nat := 0xc96c5795d7870f42

  /** x^0 in the field of w bits. */
  function One(w: nat): nat
    requires w > 0
  {
    Pow2(w - 1)
  }

  /** Multiplication by x. */
  function Mulx(p: nat, a: nat): nat {
    if a % 2 == 1 then Xor(a / 2, p) else a / 2
  }

  /** Multiplication by x^n. */
  function MulxN(p: nat, a: nat, n: nat): nat {
    if n == 0 then a else Mulx(p, MulxN(p, a, n - 1))
  }

  lemma {:induction false} MulxNZeroTimes(p: nat, a: nat)
    ensures MulxN(p, a, 0) == a
  {
  }

  lemma {:induction false} MulxNOnce(p: nat, x: nat)
    ensures MulxN(p, x, 1) == Mulx(p, x)
  {
    hide Mulx;
    MulxNZeroTimes(p, x);
  }

  // ----- Mulx is linear -----

  lemma {:induction false} MulxXor(p: nat, a: nat, b: nat)
    ensures Mulx(p, Xor(a, b)) == Xor(Mulx(p, a), Mulx(p, b))
  {
    hide Xor;
    XorDigits(a, b);
    XorWithPoly(a / 2, b / 2, p);
  }

  lemma {:induction false} XorWithPoly(u: nat, v: nat, p: nat)
    ensures Xor(Xor(u, p), Xor(v, p)) == Xor(u, v)
    ensures Xor(Xor(u, p), v) == Xor(Xor(u, v), p)
    ensures Xor(u, Xor(v, p)) == Xor(Xor(u, v), p)
  {
    hide Xor;
    XorSwap(u, p, v, p);
    XorSelf(p);
    XorZero(Xor(u, v));
    XorAssoc(u, p, v);
    XorComm(p, v);
    XorAssoc(u, v, p);
  }

  lemma {:induction false} MulxNXor(p: nat, a: nat, b: nat, n: nat)
    ensures MulxN(p, Xor(a, b), n) == Xor(MulxN(p, a, n), MulxN(p, b, n))
  {
    if n > 0 {
      hide Xor, Mulx;
      MulxNXor(p, a, b, n - 1);
      MulxXor(p, MulxN(p, a, n - 1), MulxN(p, b, n - 1));
    }
  }

  lemma {:induction false} MulxNZero(p: nat, n: nat)
    ensures MulxN(p, 0, n) == 0
  {
    if n > 0 {
      MulxNZero(p, n - 1);
    }
  }

  lemma {:induction false} MulxNAdd(p: nat, a: nat, m: nat, n: nat)
    ensures MulxN(p, a, m + n) == MulxN(p, MulxN(p, a, m), n)
  {
    if n > 0 {
      MulxNAdd(p, a, m, n - 1);
    }
  }

  lemma {:induction false} MulxNBound(p: nat, a: nat, n: nat, w: nat)
    requires p < Pow2(w) && a < Pow2(w)
    ensures MulxN(p, a, n) < Pow2(w)
  {
    if n > 0 {
      hide Xor;
      MulxNBound(p, a, n - 1, w);
      XorBound(MulxN(p, a, n - 1) / 2, p, w);
    }
  }

  // ----- Mulx is invertible when the top bit of p is set -----

  /** Among w-bit words, the image of Mulx determines its argument: an odd word is the one
      whose image has the top bit set. */
  lemma {:induction false} MulxInjective(p: nat, a: nat, b: nat, w: nat)
    requires w > 0 && One(w) <= p < Pow2(w)
    requires a < Pow2(w) && b < Pow2(w)
    requires Mulx(p, a) == Mulx(p, b)
    ensures a == b
  {
    hide Xor;
    TopBit(p, a / 2, w);
    TopBit(p, b / 2, w);
    XorCancel(a / 2, p);
    XorCancel(b / 2, p);
    SameDigits(a, b);
  }

  lemma {:induction false} TopBit(p: nat, a: nat, w: nat)
    requires w > 0 && One(w) <= p < Pow2(w) && a < One(w)
    ensures Xor(a, p) >= One(w)
  {
    hide Xor;
    var m := p - One(w);
    ShlIs(1, w - 1);
    ShlIs(0, w - 1);
    XorSplit(a, 0, m, 1, w - 1);
    XorZero(1);
  }

  lemma {:induction false} MulxNInjective(p: nat, a: nat, b: nat, n: nat, w: nat)
    requires w > 0 && One(w) <= p < Pow2(w)
    requires a < Pow2(w) && b < Pow2(w)
    requires MulxN(p, a, n) == MulxN(p, b, n)
    ensures a == b
  {
    if n > 0 {
      hide Xor, Mulx;
      MulxNBound(p, a, n - 1, w);
      MulxNBound(p, b, n - 1, w);
      MulxInjective(p, MulxN(p, a, n - 1), MulxN(p, b, n - 1), w);
      MulxNInjective(p, a, b, n - 1, w);
    }
  }

  // ----- low bits are reduced, high bits are shifted down -----

  lemma {:induction false} MulxNShl(p: nat, h: nat, k: nat, n: nat)
    requires k <= n
    ensures MulxN(p, Shl(h, k), n) == MulxN(p, h, n - k)
  {
    if k > 0 {
      hide Xor;
      MulxNAdd(p, Shl(h, k), 1, n - 1);
      assert MulxN(p, Shl(h, k), 1) == Mulx(p, Shl(h, k)) == Shl(h, k - 1);
      MulxNShl(p, h, k - 1, n - 1);
    }
  }

  /** The step every table-driven CRC takes: reduce the low k bits, shift the rest. */
  lemma {:induction false} MulxNLoad(p: nat, c: nat, lo: nat, h: nat, k: nat)
    requires lo < Pow2(k)
    ensures MulxN(p, Xor(c, lo + Shl(h, k)), k) == Xor(MulxN(p, Xor(c, lo), k), h)
  {
    assert MulxN(p, h, 0) == h;
    hide Xor, Mulx, MulxN;
    XorJoin(lo, h, k);
    XorAssoc(c, lo, Shl(h, k));
    MulxNXor(p, Xor(c, lo), Shl(h, k), k);
    MulxNShl(p, h, k, k);
  }

  // ----- multiplication -----

  /** `a` if the lowest bit of b is set, otherwise nothing. */
  function Pick(b: nat, a: nat): nat {
    if b % 2 == 1 then a else 0
  }

  lemma {:induction false} PickXor(b: nat, c: nat, a: nat, d: nat)
    ensures Pick(Xor(b, c), a) == Xor(Pick(b, a), Pick(c, a))
    ensures Pick(b, Xor(a, d)) == Xor(Pick(b, a), Pick(b, d))
  {
    hide Xor;
    XorDigits(b, c);
    XorZero(a);
    XorZero(0);
    XorSelf(a);
  }

  /** What is left to do of the product loop: n rounds with accumulator x and remaining multiplier b. */
  function Horner(p: nat, x: nat, a: nat, b: nat, n: nat): nat
    decreases n
  {
    if n == 0 then x else Horner(p, Xor(Mulx(p, x), Pick(b, a)), a, b / 2, n - 1)
  }

  /** The product of a and b in the field of w bits. */
  function Mul(p: nat, w: nat, a: nat, b: nat): nat {
    Horner(p, 0, a, b, w)
  }

  /** x^k in the field of w bits. */
  function X(p: nat, w: nat, k: nat): nat
    requires w > 0
  {
    MulxN(p, One(w), k)
  }

  lemma {:induction false} HornerXorLeft(p: nat, x: nat, y: nat, a: nat, c: nat, b: nat, n: nat)
    ensures Horner(p, Xor(x, y), Xor(a, c), b, n) == Xor(Horner(p, x, a, b, n), Horner(p, y, c, b, n))
    decreases n
  {
    if n > 0 {
      hide Xor, Mulx, Pick;
      MulxXor(p, x, y);
      PickXor(b, 0, a, c);
      XorSwap(Mulx(p, x), Mulx(p, y), Pick(b, a), Pick(b, c));
      HornerXorLeft(p, Xor(Mulx(p, x), Pick(b, a)), Xor(Mulx(p, y), Pick(b, c)), a, c, b / 2, n - 1);
    }
  }

  lemma {:induction false} HornerMulx(p: nat, x: nat, a: nat, b: nat, n: nat)
    ensures Horner(p, Mulx(p, x), Mulx(p, a), b, n) == Mulx(p, Horner(p, x, a, b, n))
    decreases n
  {
    if n > 0 {
      var a' := Pick(b, a);
      assert Mulx(p, 0) == 0;
      hide Xor, Mulx;
      MulxXor(p, Mulx(p, x), a');
      HornerMulx(p, Xor(Mulx(p, x), a'), a, b / 2, n - 1);
    }
  }

  lemma {:induction false} MulXorLeft(p: nat, w: nat, a: nat, c: nat, b: nat)
    ensures Mul(p, w, Xor(a, c), b) == Xor(Mul(p, w, a, b), Mul(p, w, c, b))
  {
    HornerXorLeft(p, 0, 0, a, c, b, w);
    XorZero(0);
  }

  lemma {:induction false} MulMulxN(p: nat, w: nat, a: nat, b: nat, n: nat)
    ensures Mul(p, w, MulxN(p, a, n), b) == MulxN(p, Mul(p, w, a, b), n)
  {
    if n > 0 {
      MulMulxN(p, w, a, b, n - 1);
      assert Mulx(p, 0) == 0;
      hide Xor, Mulx;
      HornerMulx(p, 0, MulxN(p, a, n - 1), b, w);
    }
  }

  /** Multiplying the running product by c is multiplying the accumulator and the multiplicand. */
  lemma {:induction false} HornerMul(p: nat, w: nat, x: nat, a: nat, b: nat, c: nat, n: nat)
    ensures Mul(p, w, Horner(p, x, a, b, n), c) == Horner(p, Mul(p, w, x, c), Mul(p, w, a, c), b, n)
    decreases n
  {
    if n > 0 {
      var a' := Pick(b, a);
      assert Mulx(p, x) == MulxN(p, x, 1);
      assert MulxN(p, Mul(p, w, x, c), 1) == Mulx(p, Mul(p, w, x, c));
      hide Xor, Mulx, MulxN, Mul;
      MulMulxN(p, w, x, c, 1);
      MulXorLeft(p, w, Mulx(p, x), a', c);
      MulZeroLeft(p, w, c);
      HornerMul(p, w, Xor(Mulx(p, x), a'), a, b / 2, c, n - 1);
    }
  }

  lemma {:induction false} MulZeroLeft(p: nat, w: nat, b: nat)
    ensures Mul(p, w, 0, b) == 0
  {
    hide Mul, Horner;
    XorSelf(0);
    MulXorLeft(p, w, 0, 0, b);
    XorSelf(Mul(p, w, 0, b));
  }

  /** 1 * b == b: the loop shifts the digits of b into the accumulator from the top. */
  lemma {:induction false} HornerOne(p: nat, w: nat, l: nat, b: nat, n: nat)
    requires 0 < w && n <= w && l < Pow2(w - n) && b < Pow2(n)
    ensures Horner(p, Shl(l, n), One(w), b, n) == l + Shl(b, w - n)
    decreases n
  {
    if n == 0 {
      ShlIs(0, w);
    } else {
      hide Xor, Mulx, Pick;
      var k := w - n;
      HornerOneStep(p, w, l, b, n);
      ShlIs(b % 2, k);
      HornerOne(p, w, l + Shl(b % 2, k), b / 2, n - 1);
      ShlDigit(b, k);
    }
  }

  lemma {:induction false} HornerOneStep(p: nat, w: nat, l: nat, b: nat, n: nat)
    requires 0 < n <= w && l < Pow2(w - n)
    ensures Xor(Mulx(p, Shl(l, n)), Pick(b, One(w))) == Shl(l + Shl(b % 2, w - n), n - 1)
  {
    hide Xor;
    var k := w - n;
    ShlIs(1, k);
    ShlIs(0, k);
    ShlIs(Pow2(k), n - 1);
    ShlIs(0, n - 1);
    Pow2Add(n - 1, k);
    XorJoin(l, b % 2, k);
    ShlXor(l, Shl(b % 2, k), n - 1);
    assert Mulx(p, Shl(l, n)) == Shl(l, n - 1);
  }

  lemma {:induction false} ShlDigit(b: nat, k: nat)
    ensures Shl(b, k) == Shl(b / 2, k + 1) + Shl(b % 2, k)
  {
    if k > 0 {
      ShlDigit(b, k - 1);
    }
  }

  lemma {:induction false} ShlXor(a: nat, b: nat, k: nat)
    ensures Shl(Xor(a, b), k) == Xor(Shl(a, k), Shl(b, k))
  {
    hide Xor;
    XorZero(0);
    XorSplit(0, a, 0, b, k);
  }

  lemma {:induction false} MulOne(p: nat, w: nat, b: nat)
    requires 0 < w && b < Pow2(w)
    ensures Mul(p, w, One(w), b) == b
  {
    ShlIs(0, w);
    HornerOne(p, w, 0, b, w);
  }

  lemma {:induction false} MulExchange(p: nat, w: nat, a: nat, b: nat, c: nat)
    ensures Mul(p, w, Mul(p, w, a, b), c) == Mul(p, w, Mul(p, w, a, c), b)
  {
    MulZeroLeft(p, w, c);
    HornerMul(p, w, 0, a, b, c, w);
  }

  lemma {:induction false} MulComm(p: nat, w: nat, a: nat, b: nat)
    requires 0 < w && a < Pow2(w) && b < Pow2(w)
    ensures Mul(p, w, a, b) == Mul(p, w, b, a)
  {
    MulOne(p, w, a);
    MulOne(p, w, b);
    MulExchange(p, w, One(w), a, b);
  }

  lemma {:induction false} MulBound(p: nat, w: nat, a: nat, b: nat)
    requires p < Pow2(w) && a < Pow2(w)
    ensures Mul(p, w, a, b) < Pow2(w)
  {
    HornerBound(p, 0, a, b, w, w);
  }

  lemma {:induction false} HornerBound(p: nat, x: nat, a: nat, b: nat, n: nat, w: nat)
    requires p < Pow2(w) && a < Pow2(w) && x < Pow2(w)
    ensures Horner(p, x, a, b, n) < Pow2(w)
    decreases n
  {
    if n > 0 {
      var a' := Pick(b, a);
      hide Xor;
      MulxNBound(p, x, 1, w);
      assert MulxN(p, x, 1) == Mulx(p, x);
      XorBound(Mulx(p, x), a', w);
      HornerBound(p, Xor(Mulx(p, x), a'), a, b / 2, n - 1, w);
    }
  }

  lemma {:induction false} MulAssoc(p: nat, w: nat, a: nat, b: nat, c: nat)
    requires 0 < w && p < Pow2(w) && a < Pow2(w) && b < Pow2(w) && c < Pow2(w)
    ensures Mul(p, w, Mul(p, w, a, b), c) == Mul(p, w, a, Mul(p, w, b, c))
  {
    hide Mul;
    MulComm(p, w, a, b);
    MulExchange(p, w, b, a, c);
    MulBound(p, w, b, c);
    MulComm(p, w, Mul(p, w, b, c), a);
  }

  /** Multiplying by x^k is k multiplications by x. */
  lemma {:induction false} MulX(p: nat, w: nat, a: nat, k: nat)
    requires 0 < w && p < Pow2(w) && a < Pow2(w)
    ensures Mul(p, w, a, X(p, w, k)) == MulxN(p, a, k)
    ensures X(p, w, k) < Pow2(w)
  {
    hide Mul;
    MulxNBound(p, One(w), k, w);
    MulComm(p, w, a, X(p, w, k));
    MulMulxN(p, w, One(w), a, k);
    MulOne(p, w, a);
  }

  lemma {:induction false} XNext(p: nat, w: nat, k: nat)
    requires w > 0
    ensures X(p, w, k + 1) == Mulx(p, X(p, w, k))
  {
  }

  lemma {:induction false} XAdd(p: nat, w: nat, j: nat, k: nat)
    requires 0 < w && p < Pow2(w)
    ensures Mul(p, w, X(p, w, j), X(p, w, k)) == X(p, w, j + k)
  {
    hide Mul, MulxN;
    MulX(p, w, One(w), j);
    MulxNBound(p, One(w), j, w);
    MulX(p, w, X(p, w, j), k);
    MulxNAdd(p, One(w), j, k);
  }

  /** The powers below x^w are the single-bit words. */
  lemma {:induction false} XSmall(p: nat, w: nat, k: nat)
    requires k < w
    ensures X(p, w, k) == Pow2(w - 1 - k)
  {
    hide Mulx, Xor;
    ShlIs(Pow2(w - 1 - k), k);
    Pow2Add(k, w - 1 - k);
    MulxNShl(p, Pow2(w - 1 - k), k, k);
  }

  /** The reflected polynomial is x^w itself. */
  lemma {:induction false} XPoly(p: nat, w: nat)
    requires w > 0
    ensures X(p, w, w) == p
  {
    hide Xor;
    XSmall(p, w, w - 1);
    XNext(p, w, w - 1);
    XorZero(p);
  }
}

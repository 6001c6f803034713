/** Exact division by a constant: multiplication by the inverse modulo 2^32, found by Newton's method. */
module ExactDivision {
  import opened Bits
  import opened Division

  /** The number of trailing zeros. */
  function Ctz(n: nat): nat
    requires n > 0
  {
    if n % 2 == 1 then 0 else 1 + Ctz(n / 2)
  }

  lemma {:induction false} OddPart(n: nat)
    requires n > 0
    ensures var odd := Shr(n, Ctz(n)); odd % 2 == 1 && odd <= n && n == Pow2(Ctz(n)) * odd
    decreases n
  {
    if n % 2 == 0 {
      OddPart(n / 2);
      var odd := Shr(n, Ctz(n));
      assert 2 * (Pow2(Ctz(n / 2)) * odd) == (2 * Pow2(Ctz(n / 2))) * odd;
    }
  }

  /** Shifting out the zeros of a multiple. */
  lemma {:induction false} ShrMultiple(odd: nat, q: nat, k: nat)
    ensures Shr(Pow2(k) * odd * q, k) == odd * q
    decreases k
  {
    if k > 0 {
      var x := Pow2(k - 1) * odd * q;
      assert Pow2(k) * odd * q == 2 * x;
      ShrMultiple(odd, q, k - 1);
    }
  }

  // ----- Newton's method -----

  lemma ModWitness(x: int, m: nat) returns (k: int)
    requires m > 0
    ensures x % m == x + m * k
  {
    k := -(x / m);
  }

  /** One update turns t = 1 + e into 1 - e^2, modulo 2^32. */
  lemma {:induction false} NewtonStep(d: nat, m: nat, t: nat) returns (z: int)
    requires t == d * m % W32
    ensures d * (m * ((2 - t) % W32) % W32) % W32 == 1 - (t - 1) * (t - 1) + W32 * z
  {
    var a := ModWitness(d * m, W32);
    var b := ModWitness(2 - t, W32);
    var u := (2 - t) % W32;
    var c := ModWitness(m * u, W32);
    var e := ModWitness(d * (m * u % W32), W32);
    z := t * b - a * u + d * c + e;
    calc {
      d * (m * u % W32) % W32;
      d * (m * u + W32 * c) + W32 * e;
      { Distribute(d, m * u, W32, c); }
      d * (m * u) + W32 * (d * c) + W32 * e;
      { Associate(d, m, u); }
      (t - W32 * a) * u + W32 * (d * c) + W32 * e;
      { Distribute(u, t, W32, -a); }
      t * u + W32 * (-a * u) + W32 * (d * c) + W32 * e;
      { Distribute(t, 2 - t, W32, b); }
      t * (2 - t) + W32 * (t * b) + W32 * (-a * u) + W32 * (d * c) + W32 * e;
      { Square(t); }
      1 - (t - 1) * (t - 1) + W32 * z;
    }
  }

  lemma Distribute(x: int, y: int, w: int, c: int)
    ensures x * (y + w * c) == x * y + w * (x * c)
  {
    assert x * (w * c) == w * (x * c);
  }

  lemma Associate(d: int, m: int, u: int)
    ensures d * (m * u) == (d * m) * u
  {
  }

  lemma Square(t: int)
    ensures t * (2 - t) == 1 - (t - 1) * (t - 1)
  {
  }

  /** The precision: t - 1 is a multiple of p after each number of updates. */
  function Precision(updates: nat): nat {
    if updates == 0 then 8 else if updates == 1 then 64 else if updates == 2 then 4096
    else if updates == 3 then 16777216 else W32
  }

  /** If p divides e and q divides both p^2 and 2^32, then q divides what is left after an update. */
  lemma {:induction false} PrecisionGrows(e: int, z: int, p: nat, q: nat, r: int, s: int)
    requires p > 0 && q > 0 && e % p == 0 && p * p == q * r && W32 == q * s
    ensures (W32 * z - e * e) % q == 0
  {
    var j := e / p;
    assert e == p * j;
    calc {
      W32 * z - e * e;
      q * s * z - (p * j) * (p * j);
      { assert (p * j) * (p * j) == (p * p) * (j * j); }
      q * s * z - (q * r) * (j * j);
      { assert q * s * z == q * (s * z) && (q * r) * (j * j) == q * (r * (j * j)); }
      q * (s * z) - q * (r * (j * j));
      q * (s * z - r * (j * j));
    }
    ModUnique(W32 * z - e * e, q, s * z - r * (j * j), 0);
  }

  /** The square of an odd number is 1 modulo 8. */
  lemma {:induction false} OddSquare(d: nat)
    requires d % 2 == 1
    ensures (d * d % W32 - 1) % 8 == 0
  {
    var k := d / 2;
    Consecutive(k);
    var n := k * (k + 1);
    assert d * d == 4 * n + 1 by {
      OddProduct(k);
    }
    EightDivides(n / 2);
  }

  lemma OddProduct(k: nat)
    ensures (2 * k + 1) * (2 * k + 1) == 4 * (k * (k + 1)) + 1
  {
  }

  lemma EightDivides(h: nat)
    ensures ((8 * h + 1) % W32 - 1) % 8 == 0
  {
  }

  lemma {:induction false} Consecutive(k: nat)
    ensures k * (k + 1) % 2 == 0
  {
    if k > 0 {
      Consecutive(k - 1);
      assert k * (k + 1) == (k - 1) * k + 2 * k;
    }
  }

  /** The shifted dividend times the inverse in 64 bits, cut to 32 bits. */
  function Product(dividend: nat, shift: nat, inverse: nat): (r: nat)
    ensures r < W32
  {
    Shr(dividend, shift) * inverse % W64 % W32
  }

  class Divider {
    var shift: nat
    var mulinv: nat

    ghost predicate Divides(divisor: nat)
      reads this
    {
      && divisor > 0 && shift == Ctz(divisor) && mulinv < W32
      && Shr(divisor, shift) * mulinv % W32 == 1
    }

    /** Finds the inverse of the odd part of the divisor, with at most four updates. */
    method Init(divisor: nat) returns (ghost updates: nat)
      requires 0 < divisor < W32
      modifies this
      ensures Divides(divisor) && updates <= 4
    {
      shift := Ctz(divisor);
      var odd := Shr(divisor, shift);
      OddPart(divisor);
      OddSquare(odd);
      mulinv := odd;
      updates := 0;
      while true
        invariant shift == Ctz(divisor) && mulinv < W32 && updates <= 4
        invariant (odd * mulinv % W32 - 1) % Precision(updates) == 0
        decreases 4 - updates
      {
        var t := odd * mulinv % W32;
        if t == 1 {
          return;
        }
        PrecisionStep(odd, mulinv, t, updates);
        mulinv := mulinv * ((2 - t) % W32) % W32;
        updates := updates + 1;
      }
    }

    /** A multiple of the divisor gives the quotient, cut to 32 bits. */
    method Divide(dividend: nat, ghost divisor: nat) returns (quotient: nat)
      requires Divides(divisor) && dividend < W64
      ensures quotient < W32
      ensures dividend % divisor == 0 ==> quotient == dividend / divisor % W32
    {
      hide Product, Shr;
      quotient := Product(dividend, shift, mulinv);
      if dividend % divisor == 0 {
        assert dividend == divisor * (dividend / divisor);
        QuotientIs(divisor, dividend / divisor, mulinv);
      }
    }
  }

  lemma {:induction false} PrecisionStep(d: nat, m: nat, t: nat, updates: nat)
    requires t == d * m % W32 && t != 1 && updates <= 4 && (t - 1) % Precision(updates) == 0
    ensures updates < 4
    ensures (d * (m * ((2 - t) % W32) % W32) % W32 - 1) % Precision(updates + 1) == 0
  {
    var z := NewtonStep(d, m, t);
    var e := t - 1;
    if updates == 0 {
      PrecisionGrows(e, z, 8, 64, 1, 67108864);
    } else if updates == 1 {
      PrecisionGrows(e, z, 64, 4096, 1, 1048576);
    } else if updates == 2 {
      PrecisionGrows(e, z, 4096, 16777216, 1, 256);
    } else if updates == 3 {
      PrecisionGrows(e, z, 16777216, W32, 65536, 1);
    }
  }

  lemma {:induction false} QuotientIs(divisor: nat, q: nat, inverse: nat)
    requires divisor > 0 && Shr(divisor, Ctz(divisor)) * inverse % W32 == 1
    ensures Product(divisor * q, Ctz(divisor), inverse) == q % W32
  {
    var odd := Shr(divisor, Ctz(divisor));
    OddPart(divisor);
    ShrMultiple(odd, q, Ctz(divisor));
    var k := odd * inverse / W32;
    assert odd * inverse == W32 * k + 1;
    calc {
      odd * q * inverse;
      { Associate(q, odd, inverse); }
      q * (odd * inverse);
      { Distribute(q, 1, W32, k); }
      q + W32 * (q * k);
    }
    LowWord(odd * q * inverse, q, q * k);
  }

  lemma LowWord(x: nat, q: nat, k: int)
    requires x == q + W32 * k
    ensures x % W64 % W32 == q % W32
  {
    assert x % W64 == x - W32 * (W32 * (x / W64));
  }
}

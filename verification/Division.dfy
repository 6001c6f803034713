/** Quotients and remainders are determined by their equation. */
module Division {

  lemma ModUnique(x: int, m: nat, q: int, t: nat)
    requires x == m * q + t && t < m
    ensures x % m == t && x / m == q
  {
    var d := x / m - q;
    assert m * d == t - x % m by {
      assert m * (x / m) + x % m == x;
    }
    SmallMultiple(m, d);
  }

  lemma SmallMultiple(m: int, d: int)
    requires m > 0 && -m < m * d < m
    ensures d == 0
  {
  }
}

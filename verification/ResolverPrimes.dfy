/** The sizes a table of host names takes are prime: trial division by 2, 3, 5, 7 and the numbers that
    have none of these factors, in blocks of 210. */
module ResolverPrimes {
  import opened Division
  import opened ResolverTable

  /** Neither 2, 3, 5, 7 nor any number below 210 without these factors divides p. */
  predicate First(p: nat) {
    && p % 2 != 0 && p % 3 != 0 && p % 5 != 0 && p % 7 != 0
    && p % 11 != 0 && p % 13 != 0 && p % 17 != 0 && p % 19 != 0 && p % 23 != 0
    && p % 29 != 0 && p % 31 != 0 && p % 37 != 0 && p % 41 != 0 && p % 43 != 0
    && p % 47 != 0 && p % 53 != 0 && p % 59 != 0 && p % 61 != 0 && p % 67 != 0
    && p % 71 != 0 && p % 73 != 0 && p % 79 != 0 && p % 83 != 0 && p % 89 != 0
    && p % 97 != 0 && p % 101 != 0 && p % 103 != 0 && p % 107 != 0 && p % 109 != 0
    && p % 113 != 0 && p % 121 != 0 && p % 127 != 0 && p % 131 != 0 && p % 137 != 0
    && p % 139 != 0 && p % 143 != 0 && p % 149 != 0 && p % 151 != 0 && p % 157 != 0
    && p % 163 != 0 && p % 167 != 0 && p % 169 != 0 && p % 173 != 0 && p % 179 != 0
    && p % 181 != 0 && p % 187 != 0 && p % 191 != 0 && p % 193 != 0 && p % 197 != 0
    && p % 199 != 0 && p % 209 != 0
  }

  /** The numbers from d to d + 210. */
  predicate Block(p: nat, d: nat) {
    && p % (d + 1) != 0 && p % (d + 11) != 0 && p % (d + 13) != 0 && p % (d + 17) != 0 && p % (d + 19) != 0
    && p % (d + 23) != 0 && p % (d + 29) != 0 && p % (d + 31) != 0 && p % (d + 37) != 0 && p % (d + 41) != 0
    && p % (d + 43) != 0 && p % (d + 47) != 0 && p % (d + 53) != 0 && p % (d + 59) != 0 && p % (d + 61) != 0
    && p % (d + 67) != 0 && p % (d + 71) != 0 && p % (d + 73) != 0 && p % (d + 79) != 0 && p % (d + 83) != 0
    && p % (d + 89) != 0 && p % (d + 97) != 0 && p % (d + 101) != 0 && p % (d + 103) != 0 && p % (d + 107) != 0
    && p % (d + 109) != 0 && p % (d + 113) != 0 && p % (d + 121) != 0 && p % (d + 127) != 0 && p % (d + 131) != 0
    && p % (d + 137) != 0 && p % (d + 139) != 0 && p % (d + 143) != 0 && p % (d + 149) != 0 && p % (d + 151) != 0
    && p % (d + 157) != 0 && p % (d + 163) != 0 && p % (d + 167) != 0 && p % (d + 169) != 0 && p % (d + 173) != 0
    && p % (d + 179) != 0 && p % (d + 181) != 0 && p % (d + 187) != 0 && p % (d + 191) != 0 && p % (d + 193) != 0
    && p % (d + 197) != 0 && p % (d + 199) != 0 && p % (d + 209) != 0
  }

  /** Tried so far: the first block, and three more n times. */
  predicate Tried(p: nat, n: nat) {
    if n == 0 then First(p)
    else Tried(p, n - 1) && Block(p, 630 * n - 420) && Block(p, 630 * n - 210) && Block(p, 630 * n)
  }

  // ----- what trial division shows -----

  /** A remainder by 210 without the factors 2, 3, 5 and 7. */
  predicate Wheel(x: nat) {
    x in {
      1, 11, 13, 17, 19, 23, 29, 31, 37, 41, 43, 47, 53, 59, 61, 67, 71, 73, 79, 83, 89, 97, 101, 103, 107, 109, 113,
      121, 127, 131, 137, 139, 143, 149, 151, 157, 163, 167, 169, 173, 179, 181, 187, 191, 193, 197, 199, 209
    }
  }

  /** The remainders by 30 without the factors 2, 3 and 5. */
  predicate Spoke(z: nat) {
    z in {1, 7, 11, 13, 17, 19, 23, 29}
  }

  lemma SpokeIs(z: nat)
    requires z < 30 && z % 2 != 0 && z % 3 != 0 && z % 5 != 0
    ensures Spoke(z)
  {
  }

  lemma WheelIs(y: nat, z: nat)
    requires y < 7 && Spoke(z) && (30 * y + z) % 7 != 0
    ensures Wheel(30 * y + z)
  {
    if y == 0 {
    } else if y == 1 {
    } else if y == 2 {
    } else if y == 3 {
    } else if y == 4 {
    } else if y == 5 {
    } else {
    }
  }

  lemma FirstAt(p: nat, x: nat)
    requires First(p) && Wheel(x) && x != 1
    ensures p % x != 0
  {
  }

  lemma BlockAt(p: nat, d: nat, x: nat)
    requires Block(p, d) && Wheel(x)
    ensures p % (d + x) != 0
  {
  }

  lemma {:induction false} TriedFirst(p: nat, n: nat)
    requires Tried(p, n)
    ensures First(p)
  {
    hide First, Block;
    if n > 0 {
      TriedFirst(p, n - 1);
    }
  }

  lemma {:induction false} TriedBlock(p: nat, n: nat, b: nat)
    requires Tried(p, n) && 1 <= b <= 3 * n
    ensures Block(p, 210 * b)
  {
    hide First, Block;
    if b <= 3 * (n - 1) {
      TriedBlock(p, n - 1, b);
    }
  }

  lemma {:induction false} Multiple(p: nat, m: nat, f: nat)
    requires f > 0 && m > 0 && p % m == 0 && m % f == 0
    ensures p % f == 0
  {
    var a, b := p / m, m / f;
    assert p == m * a && m == f * b;
    assert f * b * a == f * (b * a);
    ModUnique(p, f, b * a, 0);
  }

  lemma FirstFactors(p: nat)
    requires First(p)
    ensures p % 2 != 0 && p % 3 != 0 && p % 5 != 0 && p % 7 != 0
  {
  }

  lemma Rest(m: nat)
    requires m % 2 != 0 && m % 3 != 0 && m % 5 != 0 && m % 7 != 0
    ensures Wheel(m % 210)
  {
    hide Spoke, Wheel;
    var b, r := m / 210, m % 210;
    var y, z := r / 30, r % 30;
    SameFactors(m, b, y, z);
    SpokeIs(z);
    WheelIs(y, z);
  }

  lemma SameFactors(m: nat, b: nat, y: nat, z: nat)
    requires m == 210 * b + (30 * y + z)
    ensures z % 2 == m % 2 && z % 3 == m % 3 && z % 5 == m % 5 && (30 * y + z) % 7 == m % 7
  {
    SameRest(m, z, 2, 105 * b + 15 * y);
    SameRest(m, z, 3, 70 * b + 10 * y);
    SameRest(m, z, 5, 42 * b + 6 * y);
    SameRest(m, 30 * y + z, 7, 30 * b);
  }

  lemma {:induction false} SameRest(m: nat, r: nat, f: nat, k: nat)
    requires f > 0 && m == f * k + r
    ensures m % f == r % f
  {
    var q := r / f;
    assert f * k + f * q == f * (k + q);
    ModUnique(m, f, k + q, r % f);
  }

  lemma {:induction false} NoFactor(p: nat, m: nat, f: nat)
    requires f > 0 && m > 0 && p % f != 0 && p % m == 0
    ensures m % f != 0
  {
    if m % f == 0 {
      Multiple(p, m, f);
    }
  }

  lemma {:induction false} NotInBlock(p: nat, n: nat, b: nat, x: nat)
    requires Tried(p, n) && Wheel(x) && 210 * b + x <= 630 * n + 210 && (b > 0 || x > 1)
    ensures p % (210 * b + x) != 0
  {
    hide First, Block, Tried;
    TriedFirst(p, n);
    if b == 0 {
      FirstAt(p, x);
    } else {
      TriedBlock(p, n, b);
      BlockAt(p, 210 * b, x);
    }
  }

  /** No number up to the end of the blocks tried divides p. */
  lemma {:induction false} NoDivisor(p: nat, n: nat, m: nat)
    requires Tried(p, n) && 1 < m <= 630 * n + 210
    ensures p % m != 0
  {
    hide First, Block, Tried, Wheel;
    TriedFirst(p, n);
    FirstFactors(p);
    if p % m == 0 {
      NoFactor(p, m, 2);
      NoFactor(p, m, 3);
      NoFactor(p, m, 5);
      NoFactor(p, m, 7);
      Rest(m);
      NotInBlock(p, n, m / 210, m % 210);
    }
  }

  lemma SmallerFactor(p: nat, d: nat, c: nat, bound: nat)
    requires d * c == p < bound * bound && 1 < d < p
    ensures 1 < c && (d < bound || c < bound)
  {
    if d >= bound && c >= bound {
      Grows(bound, d, bound, c);
    }
  }

  lemma Grows(a: nat, b: nat, c: nat, d: nat)
    requires a <= b && c <= d
    ensures a * c <= b * d
  {
  }

  lemma Cofactor(p: nat, c: nat, d: nat)
    requires c > 0 && d * c == p
    ensures p % c == 0
  {
    ModUnique(p, c, d, 0);
  }

  /** Trial division up to the square root. */
  lemma {:induction false} PrimeTried(p: nat, n: nat)
    requires Tried(p, n) && 1 < p < (630 * n + 211) * (630 * n + 211)
    ensures Prime(p)
  {
    hide Tried;
    forall d | 1 < d < p ensures p % d != 0 {
      if p % d == 0 {
        var c := p / d;
        assert d * c == p;
        SmallerFactor(p, d, c, 630 * n + 211);
        Cofactor(p, c, d);
        NoDivisor(p, n, if d < c then d else c);
      }
    }
  }

  /** The smallest sizes. */
  predicate Few(p: nat) {
    p % 2 != 0 && p % 3 != 0 && p % 5 != 0 && p % 7 != 0 && p % 11 != 0 && p % 13 != 0
  }

  lemma SmallFactor(m: nat) returns (f: nat)
    requires 1 < m < 17
    ensures f in {2, 3, 5, 7, 11, 13} && m % f == 0
  {
    f := if m % 2 == 0 then 2 else if m % 3 == 0 then 3 else if m % 5 == 0 then 5 else m;
  }

  lemma {:induction false} FewDivisors(p: nat, m: nat)
    requires Few(p) && 1 < m < 17
    ensures p % m != 0
  {
    var f := SmallFactor(m);
    if p % m == 0 {
      Multiple(p, m, f);
    }
  }

  lemma {:induction false} PrimeFew(p: nat)
    requires Few(p) && 1 < p < 289
    ensures Prime(p)
  {
    hide Few;
    forall d | 1 < d < p ensures p % d != 0 {
      if p % d == 0 {
        var c := p / d;
        assert d * c == p;
        SmallerFactor(p, d, c, 17);
        Cofactor(p, c, d);
        FewDivisors(p, if d < c then d else c);
      }
    }
  }

  // ----- the sizes -----

  lemma PrimesFew()
    ensures Prime(29) && Prime(41) && Prime(59) && Prime(89) && Prime(131) && Prime(197)
  {
    hide Prime;
    PrimeFew(29);
    PrimeFew(41);
    PrimeFew(59);
    PrimeFew(89);
    PrimeFew(131);
    PrimeFew(197);
  }

  lemma FirstA()
    ensures First(293) && First(439) && First(659)
  {
  }

  lemma FirstB()
    ensures First(991) && First(1481) && First(2221)
  {
  }

  lemma FirstC()
    ensures First(3329) && First(4993) && First(7487)
  {
  }

  lemma FirstD()
    ensures First(11239) && First(16843) && First(25253)
  {
  }

  lemma FirstE()
    ensures First(37879) && First(56821) && First(85223)
  {
  }

  lemma FirstF()
    ensures First(127837) && First(191773) && First(287629)
  {
  }

  lemma FirstG()
    ensures First(431441) && First(647161) && First(970747)
  {
  }

  lemma FirstH()
    ensures First(1456121) && First(2184179) && First(3276253)
  {
  }

  lemma FirstI()
    ensures First(4914373) && First(7371571) && First(11057357)
  {
  }

  lemma FirstJ()
    ensures First(16586039) && First(24879017)
  {
  }

  lemma Blocks56821()
    ensures Block(56821, 210) && Block(56821, 420) && Block(56821, 630)
  {
  }

  lemma Blocks85223()
    ensures Block(85223, 210) && Block(85223, 420) && Block(85223, 630)
  {
  }

  lemma Blocks127837()
    ensures Block(127837, 210) && Block(127837, 420) && Block(127837, 630)
  {
  }

  lemma Blocks191773()
    ensures Block(191773, 210) && Block(191773, 420) && Block(191773, 630)
  {
  }

  lemma Blocks287629()
    ensures Block(287629, 210) && Block(287629, 420) && Block(287629, 630)
  {
  }

  lemma Blocks431441()
    ensures Block(431441, 210) && Block(431441, 420) && Block(431441, 630)
  {
  }

  lemma Blocks647161()
    ensures Block(647161, 210) && Block(647161, 420) && Block(647161, 630)
  {
  }

  lemma Blocks970747A()
    ensures Block(970747, 210) && Block(970747, 420) && Block(970747, 630)
  {
  }

  lemma Blocks970747B()
    ensures Block(970747, 840) && Block(970747, 1050) && Block(970747, 1260)
  {
  }

  lemma Blocks1456121A()
    ensures Block(1456121, 210) && Block(1456121, 420) && Block(1456121, 630)
  {
  }

  lemma Blocks1456121B()
    ensures Block(1456121, 840) && Block(1456121, 1050) && Block(1456121, 1260)
  {
  }

  lemma Blocks2184179A()
    ensures Block(2184179, 210) && Block(2184179, 420) && Block(2184179, 630)
  {
  }

  lemma Blocks2184179B()
    ensures Block(2184179, 840) && Block(2184179, 1050) && Block(2184179, 1260)
  {
  }

  lemma Blocks2184179C()
    ensures Block(2184179, 1470) && Block(2184179, 1680) && Block(2184179, 1890)
  {
  }

  lemma Blocks3276253A()
    ensures Block(3276253, 210) && Block(3276253, 420) && Block(3276253, 630)
  {
  }

  lemma Blocks3276253B()
    ensures Block(3276253, 840) && Block(3276253, 1050) && Block(3276253, 1260)
  {
  }

  lemma Blocks3276253C()
    ensures Block(3276253, 1470) && Block(3276253, 1680) && Block(3276253, 1890)
  {
  }

  lemma Blocks4914373A()
    ensures Block(4914373, 210) && Block(4914373, 420) && Block(4914373, 630)
  {
  }

  lemma Blocks4914373B()
    ensures Block(4914373, 840) && Block(4914373, 1050) && Block(4914373, 1260)
  {
  }

  lemma Blocks4914373C()
    ensures Block(4914373, 1470) && Block(4914373, 1680) && Block(4914373, 1890)
  {
  }

  lemma Blocks4914373D()
    ensures Block(4914373, 2100) && Block(4914373, 2310) && Block(4914373, 2520)
  {
  }

  lemma Blocks7371571A()
    ensures Block(7371571, 210) && Block(7371571, 420) && Block(7371571, 630)
  {
  }

  lemma Blocks7371571B()
    ensures Block(7371571, 840) && Block(7371571, 1050) && Block(7371571, 1260)
  {
  }

  lemma Blocks7371571C()
    ensures Block(7371571, 1470) && Block(7371571, 1680) && Block(7371571, 1890)
  {
  }

  lemma Blocks7371571D()
    ensures Block(7371571, 2100) && Block(7371571, 2310) && Block(7371571, 2520)
  {
  }

  lemma Blocks11057357A()
    ensures Block(11057357, 210) && Block(11057357, 420) && Block(11057357, 630)
  {
  }

  lemma Blocks11057357B()
    ensures Block(11057357, 840) && Block(11057357, 1050) && Block(11057357, 1260)
  {
  }

  lemma Blocks11057357C()
    ensures Block(11057357, 1470) && Block(11057357, 1680) && Block(11057357, 1890)
  {
  }

  lemma Blocks11057357D()
    ensures Block(11057357, 2100) && Block(11057357, 2310) && Block(11057357, 2520)
  {
  }

  lemma Blocks11057357E()
    ensures Block(11057357, 2730) && Block(11057357, 2940) && Block(11057357, 3150)
  {
  }

  lemma Blocks16586039A()
    ensures Block(16586039, 210) && Block(16586039, 420) && Block(16586039, 630)
  {
  }

  lemma Blocks16586039B()
    ensures Block(16586039, 840) && Block(16586039, 1050) && Block(16586039, 1260)
  {
  }

  lemma Blocks16586039C()
    ensures Block(16586039, 1470) && Block(16586039, 1680) && Block(16586039, 1890)
  {
  }

  lemma Blocks16586039D()
    ensures Block(16586039, 2100) && Block(16586039, 2310) && Block(16586039, 2520)
  {
  }

  lemma Blocks16586039E()
    ensures Block(16586039, 2730) && Block(16586039, 2940) && Block(16586039, 3150)
  {
  }

  lemma Blocks16586039F()
    ensures Block(16586039, 3360) && Block(16586039, 3570) && Block(16586039, 3780)
  {
  }

  lemma Blocks16586039G()
    ensures Block(16586039, 3990) && Block(16586039, 4200) && Block(16586039, 4410)
  {
  }

  lemma Blocks24879017A()
    ensures Block(24879017, 210) && Block(24879017, 420) && Block(24879017, 630)
  {
  }

  lemma Blocks24879017B()
    ensures Block(24879017, 840) && Block(24879017, 1050) && Block(24879017, 1260)
  {
  }

  lemma Blocks24879017C()
    ensures Block(24879017, 1470) && Block(24879017, 1680) && Block(24879017, 1890)
  {
  }

  lemma Blocks24879017D()
    ensures Block(24879017, 2100) && Block(24879017, 2310) && Block(24879017, 2520)
  {
  }

  lemma Blocks24879017E()
    ensures Block(24879017, 2730) && Block(24879017, 2940) && Block(24879017, 3150)
  {
  }

  lemma Blocks24879017F()
    ensures Block(24879017, 3360) && Block(24879017, 3570) && Block(24879017, 3780)
  {
  }

  lemma Blocks24879017G()
    ensures Block(24879017, 3990) && Block(24879017, 4200) && Block(24879017, 4410)
  {
  }

  lemma Blocks24879017H()
    ensures Block(24879017, 4620) && Block(24879017, 4830) && Block(24879017, 5040)
  {
  }

  lemma PrimesA()
    ensures Prime(293) && Prime(439) && Prime(659)
  {
    hide First, Block, Prime;
    FirstA();
    PrimeTried(293, 0);
    PrimeTried(439, 0);
    PrimeTried(659, 0);
  }

  lemma PrimesB()
    ensures Prime(991) && Prime(1481) && Prime(2221)
  {
    hide First, Block, Prime;
    FirstB();
    PrimeTried(991, 0);
    PrimeTried(1481, 0);
    PrimeTried(2221, 0);
  }

  lemma PrimesC()
    ensures Prime(3329) && Prime(4993) && Prime(7487)
  {
    hide First, Block, Prime;
    FirstC();
    PrimeTried(3329, 0);
    PrimeTried(4993, 0);
    PrimeTried(7487, 0);
  }

  lemma PrimesD()
    ensures Prime(11239) && Prime(16843) && Prime(25253)
  {
    hide First, Block, Prime;
    FirstD();
    PrimeTried(11239, 0);
    PrimeTried(16843, 0);
    PrimeTried(25253, 0);
  }

  lemma PrimesE()
    ensures Prime(37879) && Prime(56821) && Prime(85223)
  {
    hide First, Block, Prime;
    FirstE();
    PrimeTried(37879, 0);
    Blocks56821();
    PrimeTried(56821, 1);
    Blocks85223();
    PrimeTried(85223, 1);
  }

  lemma PrimesF()
    ensures Prime(127837) && Prime(191773) && Prime(287629)
  {
    hide First, Block, Prime;
    FirstF();
    Blocks127837();
    PrimeTried(127837, 1);
    Blocks191773();
    PrimeTried(191773, 1);
    Blocks287629();
    PrimeTried(287629, 1);
  }

  lemma PrimesG()
    ensures Prime(431441) && Prime(647161) && Prime(970747)
  {
    hide First, Block, Prime;
    FirstG();
    Blocks431441();
    PrimeTried(431441, 1);
    Blocks647161();
    PrimeTried(647161, 1);
    Blocks970747A();
    Blocks970747B();
    PrimeTried(970747, 2);
  }

  lemma PrimesH()
    ensures Prime(1456121) && Prime(2184179) && Prime(3276253)
  {
    hide First, Block, Prime;
    FirstH();
    Blocks1456121A();
    Blocks1456121B();
    PrimeTried(1456121, 2);
    Blocks2184179A();
    Blocks2184179B();
    Blocks2184179C();
    PrimeTried(2184179, 3);
    Blocks3276253A();
    Blocks3276253B();
    Blocks3276253C();
    PrimeTried(3276253, 3);
  }

  lemma PrimesI()
    ensures Prime(4914373) && Prime(7371571) && Prime(11057357)
  {
    hide First, Block, Prime;
    FirstI();
    Blocks4914373A();
    Blocks4914373B();
    Blocks4914373C();
    Blocks4914373D();
    PrimeTried(4914373, 4);
    Blocks7371571A();
    Blocks7371571B();
    Blocks7371571C();
    Blocks7371571D();
    PrimeTried(7371571, 4);
    Blocks11057357A();
    Blocks11057357B();
    Blocks11057357C();
    Blocks11057357D();
    Blocks11057357E();
    PrimeTried(11057357, 5);
  }

  lemma PrimesJ()
    ensures Prime(16586039) && Prime(24879017)
  {
    hide First, Block, Prime;
    FirstJ();
    Blocks16586039A();
    Blocks16586039B();
    Blocks16586039C();
    Blocks16586039D();
    Blocks16586039E();
    Blocks16586039F();
    Blocks16586039G();
    PrimeTried(16586039, 7);
    Blocks24879017A();
    Blocks24879017B();
    Blocks24879017C();
    Blocks24879017D();
    Blocks24879017E();
    Blocks24879017F();
    Blocks24879017G();
    Blocks24879017H();
    PrimeTried(24879017, 8);
  }

  /** All sizes but the largest, which no file needs, are prime and small enough to add two places. */
  lemma SizesPrime(i: nat)
    requires i < 35
    ensures i < |SIZES| && Size(SIZES[i])
  {
    hide Prime;
    PrimesFew();
    PrimesA();
    PrimesB();
    PrimesC();
    PrimesD();
    PrimesE();
    PrimesF();
    PrimesG();
    PrimesH();
    PrimesI();
    PrimesJ();
  }
}

/** The constants of MD5 are the sines of 1 to 64 radians, scaled by 2^32 and cut to integers, as section
    3.4 of RFC 1321 says. The sine and the cosine of 1 are any numbers between the partial sums of their
    series; the others follow by the addition theorem. */
module Md5Sine {
  import opened Md5

  /** Twelve terms of the series, which are below the sine of 1; one more term is above it. */
  const SINE: real :=
    1.0 - 1.0 / 6.0 + 1.0 / 120.0 - 1.0 / 5040.0 + 1.0 / 362880.0 - 1.0 / 39916800.0 + 1.0 / 6227020800.0
    - 1.0 / 1307674368000.0 + 1.0 / 355687428096000.0 - 1.0 / 121645100408832000.0
    + 1.0 / 51090942171709440000.0 - 1.0 / 25852016738884976640000.0

  const COSINE: real :=
    1.0 - 1.0 / 2.0 + 1.0 / 24.0 - 1.0 / 720.0 + 1.0 / 40320.0 - 1.0 / 3628800.0 + 1.0 / 479001600.0
    - 1.0 / 87178291200.0 + 1.0 / 20922789888000.0 - 1.0 / 6402373705728000.0 + 1.0 / 2432902008176640000.0
    - 1.0 / 1124000727777607680000.0

  predicate SineOfOne(s: real) {
    SINE <= s <= SINE + 1.0 / 15511210043330985984000000.0
  }

  predicate CosineOfOne(c: real) {
    COSINE <= c <= COSINE + 1.0 / 620448401733239439360000.0
  }

  /** The sine and the cosine of n radians. */
  function Turn(n: nat, s1: real, c1: real): (real, real) {
    if n == 0 then (0.0, 1.0) else Rotated(Turn(n - 1, s1, c1), s1, c1)
  }

  /** The addition theorem. */
  function Rotated(p: (real, real), s1: real, c1: real): (real, real) {
    (p.0 * c1 + p.1 * s1, p.1 * c1 - p.0 * s1)
  }

  function Abs(x: real): real {
    if x < 0.0 then -x else x
  }

  predicate Near(x: real, a: real, e: real) {
    a - e <= x <= a + e
  }

  const S1: real := 0.841470984807896506652502289487
  const C1: real := 0.540302305868139717400935804051
  const E1: real := 0.000000000000000000000002
  const D: real := 0.000000000000000000000000000001

  lemma {:induction false} OneIs(s1: real, c1: real)
    requires SineOfOne(s1) && CosineOfOne(c1)
    ensures Near(s1, S1, E1) && Near(c1, C1, E1)
  {
  }

  lemma Product(x: real, y: real, a: real, b: real)
    requires -a <= x <= a && -b <= y <= b
    ensures -(a * b) <= x * y <= a * b
  {
    if x < 0.0 {
      ProductUp(-x, y, a, b);
    } else {
      ProductUp(x, y, a, b);
    }
  }

  lemma ProductUp(x: real, y: real, a: real, b: real)
    requires 0.0 <= x <= a && -b <= y <= b
    ensures -(a * b) <= x * y <= a * b
  {
    assert x * y <= x * b <= a * b;
    assert x * -b <= x * y;
    assert x * -b == -(x * b);
  }

  lemma Expand(x: real, y: real, a: real, k: real)
    ensures x * y == a * k + (x - a) * y + (y - k) * a
  {
    assert (x - a) * y == x * y - a * y;
    assert (y - k) * a == y * a - k * a;
  }

  lemma {:induction false} ProductNear(x: real, y: real, a: real, k: real, e: real, m: real, f: real, n: real)
    requires Near(x, a, e) && Near(y, k, f) && -m <= y <= m && -n <= a <= n
    ensures Near(x * y, a * k, e * m + f * n)
  {
    Expand(x, y, a, k);
    Product(x - a, y, e, m);
    Product(y - k, a, f, n);
  }

  lemma NearThen(x: real, y: real, z: real, e: real, f: real, g: real)
    requires Near(x, y, e) && Near(y, z, f) && e + f <= g
    ensures Near(x, z, g)
  {
  }

  /** One more radian, computed with numbers near the true ones. */
  lemma {:induction false} TurnNear(s: real, c: real, s1: real, c1: real, a: real, b: real, e: real)
    requires Near(s1, S1, E1) && Near(c1, C1, E1) && Near(s, a, e) && Near(c, b, e) && e >= 0.0
    requires Abs(a) + Abs(b) <= 1.5
    ensures Near(s * c1 + c * s1, a * C1 + b * S1, 1.4 * e + 1.5 * E1)
    ensures Near(c * c1 - s * s1, b * C1 - a * S1, 1.4 * e + 1.5 * E1)
  {
    hide Near, Abs;
    OneBound(s1, c1);
    E1Positive();
    AbsBound(a);
    AbsBound(b);
    PairNear(s, c1, c, s1, a, C1, b, S1, e, E1, Abs(a), Abs(b));
    PairNear(c, c1, s, s1, b, C1, a, S1, e, E1, Abs(b), Abs(a));
  }

  lemma AbsBound(x: real)
    ensures -Abs(x) <= x <= Abs(x)
  {
  }

  lemma {:induction false} PairNear(
    x: real, y: real, z: real, w: real, a: real, k: real, b: real, l: real, e: real, f: real, m: real, n: real)
    requires Near(x, a, e) && Near(y, k, f) && Near(z, b, e) && Near(w, l, f) && e >= 0.0 && f >= 0.0
    requires -0.5404 <= y <= 0.5404 && -0.8415 <= w <= 0.8415 && -m <= a <= m && -n <= b <= n && m + n <= 1.5
    ensures Near(x * y + z * w, a * k + b * l, 1.4 * e + 1.5 * f)
    ensures Near(x * y - z * w, a * k - b * l, 1.4 * e + 1.5 * f)
  {
    hide Near;
    SumBound(f, m, n);
    Weights(e);
    Totals(e * 0.5404, e * 0.8415, f * m, f * n, 1.4 * e, 1.5 * f);
    ProductNear(x, y, a, k, e, 0.5404, f, m);
    ProductNear(z, w, b, l, e, 0.8415, f, n);
    SumWider(x * y, z * w, a * k, b * l, e * 0.5404 + f * m, e * 0.8415 + f * n, 1.4 * e + 1.5 * f);
  }

  lemma SumWider(x: real, y: real, a: real, b: real, e: real, f: real, g: real)
    requires Near(x, a, e) && Near(y, b, f) && e + f <= g
    ensures Near(x + y, a + b, g) && Near(x - y, a - b, g)
  {
  }

  lemma OneBound(s1: real, c1: real)
    requires Near(s1, S1, E1) && Near(c1, C1, E1)
    ensures -0.8415 <= s1 <= 0.8415 && -0.5404 <= c1 <= 0.5404
  {
  }

  lemma E1Positive()
    ensures E1 >= 0.0
  {
  }

  lemma Totals(p: real, q: real, u: real, v: real, a: real, b: real)
    requires p + q <= a && u + v <= b
    ensures p + u + (q + v) <= a + b
  {
  }

  lemma Weights(e: real)
    requires e >= 0.0
    ensures e * 0.5404 + e * 0.8415 <= 1.4 * e
  {
  }

  lemma SumBound(e: real, a: real, b: real)
    requires e >= 0.0 && a + b <= 1.5
    ensures e * a + e * b <= 1.5 * e
  {
    assert e * a + e * b == e * (a + b);
  }

  /** The two coordinates of p are a and b up to e. */
  ghost predicate PairAt(p: (real, real), a: real, b: real, e: real) {
    Near(p.0, a, e) && Near(p.1, b, e)
  }

  ghost predicate TurnAt(n: nat, s1: real, c1: real, a: real, b: real, e: real) {
    PairAt(Turn(n, s1, c1), a, b, e)
  }

  lemma {:induction false} Next(
      p: (real, real), s1: real, c1: real, a: real, b: real, e: real, a': real, b': real, e': real)
    requires Near(s1, S1, E1) && Near(c1, C1, E1) && PairAt(p, a, b, e) && e >= 0.0
    requires Abs(a) + Abs(b) <= 1.5
    requires Near(a * C1 + b * S1, a', D) && Near(b * C1 - a * S1, b', D) && 1.4 * e + 1.5 * E1 + D <= e'
    ensures PairAt(Rotated(p, s1, c1), a', b', e')
  {
    hide Near, S1, C1, E1, D, Abs;
    var s, c := p.0, p.1;
    TurnNear(s, c, s1, c1, a, b, e);
    NearThen(s * c1 + c * s1, a * C1 + b * S1, a', 1.4 * e + 1.5 * E1, D, e');
    NearThen(c * c1 - s * s1, b * C1 - a * S1, b', 1.4 * e + 1.5 * E1, D, e');
    var q := Rotated(p, s1, c1);
    assert q.0 == s * c1 + c * s1 && q.1 == c * c1 - s * s1;
  }

  lemma TurnOne(n: nat, s1: real, c1: real)
    requires n > 0
    ensures Turn(n, s1, c1) == Rotated(Turn(n - 1, s1, c1), s1, c1)
  {
    hide Rotated;
  }

  /** k is the sine of n radians times 2^32, cut to an integer. */
  ghost predicate Constant(n: nat, s1: real, c1: real, k: nat) {
    k as real <= 4294967296.0 * Abs(Turn(n, s1, c1).0) < k as real + 1.0
  }

  lemma {:induction false} Cut(n: nat, s1: real, c1: real, a: real, b: real, e: real, k: nat)
    requires TurnAt(n, s1, c1, a, b, e) && k as real <= 4294967296.0 * (Abs(a) - e)
    requires 4294967296.0 * (Abs(a) + e) < k as real + 1.0
    ensures Constant(n, s1, c1, k)
  {
    hide Turn;
  }

  lemma {:induction false} Turns8(s1: real, c1: real)
    requires Near(s1, S1, E1) && Near(c1, C1, E1)
    ensures TurnAt(8, s1, c1,
                   0.989358246623381777808119181839, -0.145500033808613525868846058322, 0.00000000000000000000010341)
    ensures forall i :: 0 <= i < 8 ==> Constant(i + 1, s1, c1, T[i])
  {
    hide Turn, T, PairAt, Rotated, Constant;
    Constants8();
    TurnNone(s1, c1);
    TurnOne(1, s1, c1);
    Next(Turn(0, s1, c1), s1, c1,
         0.000000000000000000000000000000, 1.000000000000000000000000000000, 0.00000000000000000000000000,
         0.841470984807896506652502289487, 0.540302305868139717400935804051, 0.00000000000000000000000301);
    Cut(1, s1, c1, 0.841470984807896506652502289487, 0.540302305868139717400935804051, 0.00000000000000000000000301,
        3614090360);
    TurnOne(2, s1, c1);
    Next(Turn(1, s1, c1), s1, c1,
         0.841470984807896506652502289487, 0.540302305868139717400935804051, 0.00000000000000000000000301,
         0.909297426825681695396018479115, -0.416146836547142386997569043555, 0.00000000000000000000000722);
    Cut(2, s1, c1, 0.909297426825681695396018479115, -0.416146836547142386997569043555, 0.00000000000000000000000722,
        3905402710);
    TurnOne(3, s1, c1);
    Next(Turn(2, s1, c1), s1, c1,
         0.909297426825681695396018479115, -0.416146836547142386997569043555, 0.00000000000000000000000722,
         0.141120008059867222100742651370, -0.989992496600445457271571704061, 0.00000000000000000000001311);
    Cut(3, s1, c1, 0.141120008059867222100742651370, -0.989992496600445457271571704061, 0.00000000000000000000001311,
        606105819);
    TurnOne(4, s1, c1);
    Next(Turn(3, s1, c1), s1, c1,
         0.141120008059867222100742651370, -0.989992496600445457271571704061, 0.00000000000000000000001311,
         -0.756802495307928251372639420724, -0.653643620863611914639164983545, 0.00000000000000000000002136);
    Cut(4, s1, c1, -0.756802495307928251372639420724, -0.653643620863611914639164983545, 0.00000000000000000000002136,
        3250441966);
    TurnOne(5, s1, c1);
    Next(Turn(4, s1, c1), s1, c1,
         -0.756802495307928251372639420724, -0.653643620863611914639164983545, 0.00000000000000000000002136,
         -0.958924274663138468893151261059, 0.283662185463226264466641675543, 0.00000000000000000000003291);
    Cut(5, s1, c1, -0.958924274663138468893151261059, 0.283662185463226264466641675543, 0.00000000000000000000003291,
        4118548399);
    TurnOne(6, s1, c1);
    Next(Turn(5, s1, c1), s1, c1,
         -0.958924274663138468893151261059, 0.283662185463226264466641675543, 0.00000000000000000000003291,
         -0.279415498198925872811550878966, 0.960170286650366020545650745633, 0.00000000000000000000004908);
    Cut(6, s1, c1, -0.279415498198925872811550878966, 0.960170286650366020545650745633, 0.00000000000000000000004908,
        1200080426);
    TurnOne(7, s1, c1);
    Next(Turn(6, s1, c1), s1, c1,
         -0.279415498198925872811550878966, 0.960170286650366020545650745633, 0.00000000000000000000004908,
         0.656986598718789090397000446913, 0.753902254343304638141192059097, 0.00000000000000000000007172);
    Cut(7, s1, c1, 0.656986598718789090397000446913, 0.753902254343304638141192059097, 0.00000000000000000000007172,
        2821735955);
    TurnOne(8, s1, c1);
    Next(Turn(7, s1, c1), s1, c1,
         0.656986598718789090397000446913, 0.753902254343304638141192059097, 0.00000000000000000000007172,
         0.989358246623381777808119181839, -0.145500033808613525868846058322, 0.00000000000000000000010341);
    Cut(8, s1, c1, 0.989358246623381777808119181839, -0.145500033808613525868846058322, 0.00000000000000000000010341,
        4249261313);
  }

  lemma Constants8()
    ensures T[0] == 3614090360 && T[1] == 3905402710 && T[2] == 606105819 && T[3] == 3250441966
    ensures T[4] == 4118548399 && T[5] == 1200080426 && T[6] == 2821735955 && T[7] == 4249261313
  {
  }

  lemma {:induction false} Turns16(s1: real, c1: real)
    requires Near(s1, S1, E1) && Near(c1, C1, E1)
    ensures TurnAt(16, s1, c1,
                   -0.287903316665065294784464216493, -0.957659480323384641899627132976, 0.00000000000000000000162951)
    ensures forall i :: 8 <= i < 16 ==> Constant(i + 1, s1, c1, T[i])
  {
    hide Turn, T, PairAt, Rotated, Constant;
    Constants16();
    Turns8(s1, c1);
    TurnOne(9, s1, c1);
    Next(Turn(8, s1, c1), s1, c1,
         0.989358246623381777808119181839, -0.145500033808613525868846058322, 0.00000000000000000000010341,
         0.412118485241756569756265454861, -0.911130261884676988368293372927, 0.00000000000000000000014778);
    Cut(9, s1, c1, 0.412118485241756569756265454861, -0.911130261884676988368293372927, 0.00000000000000000000014778,
        1770035416);
    TurnOne(10, s1, c1);
    Next(Turn(9, s1, c1), s1, c1,
         0.412118485241756569756265454861, -0.911130261884676988368293372927, 0.00000000000000000000014778,
         -0.544021110889369813404750679910, -0.839071529076452452258856495407, 0.00000000000000000000020990);
    Cut(10, s1, c1, -0.544021110889369813404750679910, -0.839071529076452452258856495407, 0.00000000000000000000020990,
        2336552879);
    TurnOne(11, s1, c1);
    Next(Turn(10, s1, c1), s1, c1,
         -0.544021110889369813404750679910, -0.839071529076452452258856495407, 0.00000000000000000000020990,
         -0.999990206550703457051559794664, 0.004425697988050785748362247508, 0.00000000000000000000029687);
    Cut(11, s1, c1, -0.999990206550703457051559794664, 0.004425697988050785748362247508, 0.00000000000000000000029687,
        4294925233);
    TurnOne(12, s1, c1);
    Next(Turn(11, s1, c1), s1, c1,
         -0.999990206550703457051559794664, 0.004425697988050785748362247508, 0.00000000000000000000029687,
         -0.536572918000434971665364589339, 0.843853958732492104653954864790, 0.00000000000000000000041862);
    Cut(12, s1, c1, -0.536572918000434971665364589339, 0.843853958732492104653954864790, 0.00000000000000000000041862,
        2304563134);
    TurnOne(13, s1, c1);
    Next(Turn(12, s1, c1), s1, c1,
         -0.536572918000434971665364589339, 0.843853958732492104653954864790, 0.00000000000000000000041862,
         0.420167036826640921868960286880, 0.907446781450196213852677117968, 0.00000000000000000000058907);
    Cut(13, s1, c1, 0.420167036826640921868960286880, 0.907446781450196213852677117968, 0.00000000000000000000058907,
        1804603682);
    TurnOne(14, s1, c1);
    Next(Turn(13, s1, c1), s1, c1,
         0.420167036826640921868960286880, 0.907446781450196213852677117968, 0.00000000000000000000058907,
         0.990607355694870307875349669833, 0.136737218207833594248918859253, 0.00000000000000000000082770);
    Cut(14, s1, c1, 0.990607355694870307875349669833, 0.136737218207833594248918859253, 0.00000000000000000000082770,
        4254626195);
    TurnOne(15, s1, c1);
    Next(Turn(14, s1, c1), s1, c1,
         0.990607355694870307875349669833, 0.136737218207833594248918859253, 0.00000000000000000000082770,
         0.650287840157116865829728267370, -0.759687912858821273848147573815, 0.00000000000000000000116179);
    Cut(15, s1, c1, 0.650287840157116865829728267370, -0.759687912858821273848147573815, 0.00000000000000000000116179,
        2792965006);
    TurnOne(16, s1, c1);
    Next(Turn(15, s1, c1), s1, c1,
         0.650287840157116865829728267370, -0.759687912858821273848147573815, 0.00000000000000000000116179,
         -0.287903316665065294784464216493, -0.957659480323384641899627132976, 0.00000000000000000000162951);
    Cut(16, s1, c1, -0.287903316665065294784464216493, -0.957659480323384641899627132976, 0.00000000000000000000162951,
        1236535329);
  }

  lemma Constants16()
    ensures T[8] == 1770035416 && T[9] == 2336552879 && T[10] == 4294925233 && T[11] == 2304563134
    ensures T[12] == 1804603682 && T[13] == 4254626195 && T[14] == 2792965006 && T[15] == 1236535329
  {
  }

  lemma {:induction false} Turns24(s1: real, c1: real)
    requires Near(s1, S1, E1) && Near(c1, C1, E1)
    ensures TurnAt(24, s1, c1,
                   -0.905578362006623845135776631156, 0.424179007336996975937060565720, 0.00000000000000000002415154)
    ensures forall i :: 16 <= i < 24 ==> Constant(i + 1, s1, c1, T[i])
  {
    hide Turn, T, PairAt, Rotated, Constant;
    Constants24();
    Turns16(s1, c1);
    TurnOne(17, s1, c1);
    Next(Turn(16, s1, c1), s1, c1,
         -0.287903316665065294784464216493, -0.957659480323384641899627132976, 0.00000000000000000000162951,
         -0.961397491879556857261632489481, -0.275163338051596922220329734481, 0.00000000000000000000228432);
    Cut(17, s1, c1, -0.961397491879556857261632489481, -0.275163338051596922220329734481, 0.00000000000000000000228432,
        4129170786);
    TurnOne(18, s1, c1);
    Next(Turn(17, s1, c1), s1, c1,
         -0.961397491879556857261632489481, -0.275163338051596922220329734481, 0.00000000000000000000228432,
         -0.750987246771676103750142022419, 0.660316708244080144816103467697, 0.00000000000000000000320105);
    Cut(18, s1, c1, -0.750987246771676103750142022419, 0.660316708244080144816103467697, 0.00000000000000000000320105,
        3225465664);
    TurnOne(19, s1, c1);
    Next(Turn(18, s1, c1), s1, c1,
         -0.750987246771676103750142022419, 0.660316708244080144816103467697, 0.00000000000000000000320105,
         0.149877209662952329754250381373, 0.988704618186669252898342318531, 0.00000000000000000000448448);
    Cut(19, s1, c1, 0.149877209662952329754250381373, 0.988704618186669252898342318531, 0.00000000000000000000448448,
        643717713);
    TurnOne(20, s1, c1);
    Next(Turn(19, s1, c1), s1, c1,
         0.149877209662952329754250381373, 0.988704618186669252898342318531, 0.00000000000000000000448448,
         0.912945250727627654376096940036, 0.408082061813391986062252070930, 0.00000000000000000000628128);
    Cut(20, s1, c1, 0.912945250727627654376096940036, 0.408082061813391986062252070930, 0.00000000000000000000628128,
        3921069994);
    TurnOne(21, s1, c1);
    Next(Turn(20, s1, c1), s1, c1,
         0.912945250727627654376096940036, 0.408082061813391986062252070930, 0.00000000000000000000628128,
         0.836655638536056031866465092273, -0.547729260224268421384277401550, 0.00000000000000000000879680);
    Cut(21, s1, c1, 0.836655638536056031866465092273, -0.547729260224268421384277401550, 0.00000000000000000000879680,
        3593408605);
    TurnOne(22, s1, c1);
    Next(Turn(21, s1, c1), s1, c1,
         0.836655638536056031866465092273, -0.547729260224268421384277401550, 0.00000000000000000000879680,
         -0.008851309290403875921704657061, -0.999960826394637126454164466658, 0.00000000000000000001231853);
    Cut(22, s1, c1, -0.008851309290403875921704657061, -0.999960826394637126454164466658, 0.00000000000000000001231853,
        38016083);
    TurnOne(23, s1, c1);
    Next(Turn(22, s1, c1), s1, c1,
         -0.008851309290403875921704657061, -0.999960826394637126454164466658, 0.00000000000000000001231853,
         -0.846220404175170635241325369081, -0.532833020333397555215739186415, 0.00000000000000000001724895);
    Cut(23, s1, c1, -0.846220404175170635241325369081, -0.532833020333397555215739186415, 0.00000000000000000001724895,
        3634488961);
    TurnOne(24, s1, c1);
    Next(Turn(23, s1, c1), s1, c1,
         -0.846220404175170635241325369081, -0.532833020333397555215739186415, 0.00000000000000000001724895,
         -0.905578362006623845135776631156, 0.424179007336996975937060565720, 0.00000000000000000002415154);
    Cut(24, s1, c1, -0.905578362006623845135776631156, 0.424179007336996975937060565720, 0.00000000000000000002415154,
        3889429448);
  }

  lemma Constants24()
    ensures T[16] == 4129170786 && T[17] == 3225465664 && T[18] == 643717713 && T[19] == 3921069994
    ensures T[20] == 3593408605 && T[21] == 38016083 && T[22] == 3634488961 && T[23] == 3889429448
  {
  }

  lemma {:induction false} Turns32(s1: real, c1: real)
    requires Near(s1, S1, E1) && Near(c1, C1, E1)
    ensures TurnAt(32, s1, c1,
                   0.551426681241690550661567613171, 0.834223360506510272215502538587, 0.00000000000000000035652918)
    ensures forall i :: 24 <= i < 32 ==> Constant(i + 1, s1, c1, T[i])
  {
    hide Turn, T, PairAt, Rotated, Constant;
    Constants32();
    Turns24(s1, c1);
    TurnOne(25, s1, c1);
    Next(Turn(24, s1, c1), s1, c1,
         -0.905578362006623845135776631156, 0.424179007336996975937060565720, 0.00000000000000000002415154,
         -0.132351750097773028901987246387, 0.991202811863473598083285471555, 0.00000000000000000003381516);
    Cut(25, s1, c1, -0.132351750097773028901987246387, 0.991202811863473598083285471555, 0.00000000000000000003381516,
        568446438);
    TurnOne(26, s1, c1);
    Next(Turn(25, s1, c1), s1, c1,
         -0.132351750097773028901987246387, 0.991202811863473598083285471555, 0.00000000000000000003381516,
         0.762558450479602737515825229416, 0.646919322328640342721363086843, 0.00000000000000000004734423);
    Cut(26, s1, c1, 0.762558450479602737515825229416, 0.646919322328640342721363086843, 0.00000000000000000004734423,
        3275163606);
    TurnOne(27, s1, c1);
    Next(Turn(26, s1, c1), s1, c1,
         0.762558450479602737515825229416, 0.646919322328640342721363086843, 0.00000000000000000004734423,
         0.956375928404503013432323455784, -0.292138808733836193371418206739, 0.00000000000000000006628493);
    Cut(27, s1, c1, 0.956375928404503013432323455784, -0.292138808733836193371418206739, 0.00000000000000000006628493,
        4107603335);
    TurnOne(28, s1, c1);
    Next(Turn(27, s1, c1), s1, c1,
         0.956375928404503013432323455784, -0.292138808733836193371418206739, 0.00000000000000000006628493,
         0.270905788307869019986321842054, -0.962605866313566601975445625490, 0.00000000000000000009280191);
    Cut(28, s1, c1, 0.270905788307869019986321842054, -0.962605866313566601975445625490, 0.00000000000000000009280191,
        1163531501);
    TurnOne(29, s1, c1);
    Next(Turn(28, s1, c1), s1, c1,
         0.270905788307869019986321842054, -0.962605866313566601975445625490, 0.00000000000000000009280191,
         -0.663633884212967502151178754422, -0.748057529689000351765169112581, 0.00000000000000000012992568);
    Cut(29, s1, c1, -0.663633884212967502151178754422, -0.748057529689000351765169112581, 0.00000000000000000012992568,
        2850285829);
    TurnOne(30, s1, c1);
    Next(Turn(29, s1, c1), s1, c1,
         -0.663633884212967502151178754422, -0.748057529689000351765169112581, 0.00000000000000000012992568,
         -0.988031624092861789987732191195, 0.154251449887584050718679536174, 0.00000000000000000018189896);
    Cut(30, s1, c1, -0.988031624092861789987732191195, 0.154251449887584050718679536174, 0.00000000000000000018189896,
        4243563512);
    TurnOne(31, s1, c1);
    Next(Turn(30, s1, c1), s1, c1,
         -0.988031624092861789987732191195, 0.154251449887584050718679536174, 0.00000000000000000018189896,
         -0.404037645323065006048746446289, 0.914742357804531278962430999974, 0.00000000000000000025466155);
    Cut(31, s1, c1, -0.404037645323065006048746446289, 0.914742357804531278962430999974, 0.00000000000000000025466155,
        1735328473);
    TurnOne(32, s1, c1);
    Next(Turn(31, s1, c1), s1, c1,
         -0.404037645323065006048746446289, 0.914742357804531278962430999974, 0.00000000000000000025466155,
         0.551426681241690550661567613171, 0.834223360506510272215502538587, 0.00000000000000000035652918);
    Cut(32, s1, c1, 0.551426681241690550661567613171, 0.834223360506510272215502538587, 0.00000000000000000035652918,
        2368359562);
  }

  lemma Constants32()
    ensures T[24] == 568446438 && T[25] == 3275163606 && T[26] == 4107603335 && T[27] == 1163531501
    ensures T[28] == 2850285829 && T[29] == 4243563512 && T[30] == 1735328473 && T[31] == 2368359562
  {
  }

  lemma {:induction false} Turns40(s1: real, c1: real)
    requires Near(s1, S1, E1) && Near(c1, C1, E1)
    ensures TurnAt(40, s1, c1,
                   0.745113160479348786987678087584, -0.666938061652261844384100111498, 0.00000000000000000526172204)
    ensures forall i :: 32 <= i < 40 ==> Constant(i + 1, s1, c1, T[i])
  {
    hide Turn, T, PairAt, Rotated, Constant;
    Constants40();
    Turns32(s1, c1);
    TurnOne(33, s1, c1);
    Next(Turn(32, s1, c1), s1, c1,
         0.551426681241690550661567613171, 0.834223360506510272215502538587, 0.00000000000000000035652918,
         0.999911860107267145728068872431, -0.013276747223059478915241563331, 0.00000000000000000049914386);
    Cut(33, s1, c1, 0.999911860107267145728068872431, -0.013276747223059478915241563331, 0.00000000000000000049914386,
        4294588738);
    TurnOne(34, s1, c1);
    Next(Turn(33, s1, c1), s1, c1,
         0.999911860107267145728068872431, -0.013276747223059478915241563331, 0.00000000000000000049914386,
         0.529082686120023820832459835622, -0.848570274784605186599970632274, 0.00000000000000000069880441);
    Cut(34, s1, c1, 0.529082686120023820832459835622, -0.848570274784605186599970632274, 0.00000000000000000069880441,
        2272392833);
    TurnOne(35, s1, c1);
    Next(Turn(34, s1, c1), s1, c1,
         0.529082686120023820832459835622, -0.848570274784605186599970632274, 0.00000000000000000069880441,
         -0.428182669496151004406766814216, -0.903692205091506759847280116146, 0.00000000000000000097832918);
    Cut(35, s1, c1, -0.428182669496151004406766814216, -0.903692205091506759847280116146, 0.00000000000000000097832918,
        1839030562);
    TurnOne(36, s1, c1);
    Next(Turn(35, s1, c1), s1, c1,
         -0.428182669496151004406766814216, -0.903692205091506759847280116146, 0.00000000000000000097832918,
         -0.991778853443115736835275539175, -0.127963689627404681028302336704, 0.00000000000000000136966386);
    Cut(36, s1, c1, -0.991778853443115736835275539175, -0.127963689627404681028302336704, 0.00000000000000000136966386,
        4259657740);
    TurnOne(37, s1, c1);
    Next(Turn(36, s1, c1), s1, c1,
         -0.991778853443115736835275539175, -0.127963689627404681028302336704, 0.00000000000000000136966386,
         -0.643538133356999460685640385766, 0.765414051945343356491083917159, 0.00000000000000000191753241);
    Cut(37, s1, c1, -0.643538133356999460685640385766, 0.765414051945343356491083917159, 0.00000000000000000191753241,
        2763975236);
    TurnOne(38, s1, c1);
    Next(Turn(37, s1, c1), s1, c1,
         -0.643538133356999460685640385766, 0.765414051945343356491083917159, 0.00000000000000000191753241,
         0.296368578709385317392315361443, 0.955073644047294857586512082110, 0.00000000000000000268454838);
    Cut(38, s1, c1, 0.296368578709385317392315361443, 0.955073644047294857586512082110, 0.00000000000000000268454838,
        1272893353);
    TurnOne(39, s1, c1);
    Next(Turn(38, s1, c1), s1, c1,
         0.296368578709385317392315361443, 0.955073644047294857586512082110, 0.00000000000000000268454838,
         0.963795386284087753260654488586, 0.266642932359937251526796241859, 0.00000000000000000375837074);
    Cut(39, s1, c1, 0.963795386284087753260654488586, 0.266642932359937251526796241859, 0.00000000000000000375837074,
        4139469664);
    TurnOne(40, s1, c1);
    Next(Turn(39, s1, c1), s1, c1,
         0.963795386284087753260654488586, 0.266642932359937251526796241859, 0.00000000000000000375837074,
         0.745113160479348786987678087584, -0.666938061652261844384100111498, 0.00000000000000000526172204);
    Cut(40, s1, c1, 0.745113160479348786987678087584, -0.666938061652261844384100111498, 0.00000000000000000526172204,
        3200236656);
  }

  lemma Constants40()
    ensures T[32] == 4294588738 && T[33] == 2272392833 && T[34] == 1839030562 && T[35] == 4259657740
    ensures T[36] == 2763975236 && T[37] == 1272893353 && T[38] == 4139469664 && T[39] == 3200236656
  {
  }

  lemma {:induction false} Turns48(s1: real, c1: real)
    requires Near(s1, S1, E1) && Near(c1, C1, E1)
    ensures TurnAt(48, s1, c1,
                   -0.768254661323666799044968899115, -0.640144339469199731312902961485, 0.00000000000000007765202139)
    ensures forall i :: 40 <= i < 48 ==> Constant(i + 1, s1, c1, T[i])
  {
    hide Turn, T, PairAt, Rotated, Constant;
    Constants48();
    Turns40(s1, c1);
    TurnOne(41, s1, c1);
    Next(Turn(40, s1, c1), s1, c1,
         0.745113160479348786987678087584, -0.666938061652261844384100111498, 0.00000000000000000526172204,
         -0.158622668804708987103340676321, -0.987339277523826458228802183124, 0.00000000000000000736641386);
    Cut(41, s1, c1, -0.158622668804708987103340676321, -0.987339277523826458228802183124, 0.00000000000000000736641386,
        681279174);
    TurnOne(42, s1, c1);
    Next(Turn(41, s1, c1), s1, c1,
         -0.158622668804708987103340676321, -0.987339277523826458228802183124, 0.00000000000000000736641386,
         -0.916521547915633785898982472819, -0.399985314988351293954674236062, 0.00000000000000001031298241);
    Cut(42, s1, c1, -0.916521547915633785898982472819, -0.399985314988351293954674236062, 0.00000000000000001031298241,
        3936430074);
    TurnOne(43, s1, c1);
    Next(Turn(42, s1, c1), s1, c1,
         -0.916521547915633785898982472819, -0.399985314988351293954674236062, 0.00000000000000001031298241,
         -0.831774742628598288209546041424, 0.555113301520625677044891993012, 0.00000000000000001443817838);
    Cut(43, s1, c1, -0.831774742628598288209546041424, 0.555113301520625677044891993012, 0.00000000000000001443817838,
        3572445317);
    TurnOne(44, s1, c1);
    Next(Turn(43, s1, c1), s1, c1,
         -0.831774742628598288209546041424, 0.555113301520625677044891993012, 0.00000000000000001443817838,
         0.017701925105413577807982670676, 0.999843308647691220068988217413, 0.00000000000000002021345274);
    Cut(44, s1, c1, 0.017701925105413577807982670676, 0.999843308647691220068988217413, 0.00000000000000002021345274,
        76029189);
    TurnOne(45, s1, c1);
    Next(Turn(44, s1, c1), s1, c1,
         0.017701925105413577807982670676, 0.999843308647691220068988217413, 0.00000000000000002021345274,
         0.850903524534118424862377591420, 0.525321988817729696047428283454, 0.00000000000000002829883684);
    Cut(45, s1, c1, 0.850903524534118424862377591420, 0.525321988817729696047428283454, 0.00000000000000002829883684,
        3654602809);
    TurnOne(46, s1, c1);
    Next(Turn(45, s1, c1), s1, c1,
         0.850903524534118424862377591420, 0.525321988817729696047428283454, 0.00000000000000002829883684,
         0.901788347648809185033260816466, -0.432177944884778294952794679806, 0.00000000000000003961837458);
    Cut(46, s1, c1, 0.901788347648809185033260816466, -0.432177944884778294952794679806, 0.00000000000000003961837458,
        3873151461);
    TurnOne(47, s1, c1);
    Next(Turn(46, s1, c1), s1, c1,
         0.901788347648809185033260816466, -0.432177944884778294952794679806, 0.00000000000000003961837458,
         0.123573122745224004061495949987, -0.992335469150928718279734739187, 0.00000000000000005546572742);
    Cut(47, s1, c1, 0.123573122745224004061495949987, -0.992335469150928718279734739187, 0.00000000000000005546572742,
        530742520);
    TurnOne(48, s1, c1);
    Next(Turn(47, s1, c1), s1, c1,
         0.123573122745224004061495949987, -0.992335469150928718279734739187, 0.00000000000000005546572742,
         -0.768254661323666799044968899115, -0.640144339469199731312902961485, 0.00000000000000007765202139);
    Cut(48, s1, c1, -0.768254661323666799044968899115, -0.640144339469199731312902961485, 0.00000000000000007765202139,
        3299628645);
  }

  lemma Constants48()
    ensures T[40] == 681279174 && T[41] == 3936430074 && T[42] == 3572445317 && T[43] == 76029189
    ensures T[44] == 3654602809 && T[45] == 3873151461 && T[46] == 530742520 && T[47] == 3299628645
  {
  }

  lemma {:induction false} Turns56(s1: real, c1: real)
    requires Near(s1, S1, E1) && Near(c1, C1, E1)
    ensures TurnAt(56, s1, c1,
                   -0.521551002086911880187365082404, 0.853220107722584113969678438844, 0.00000000000000114598013685)
    ensures forall i :: 48 <= i < 56 ==> Constant(i + 1, s1, c1, T[i])
  {
    hide Turn, T, PairAt, Rotated, Constant;
    Constants56();
    Turns48(s1, c1);
    TurnOne(49, s1, c1);
    Next(Turn(48, s1, c1), s1, c1,
         -0.768254661323666799044968899115, -0.640144339469199731312902961485, 0.00000000000000007765202139,
         -0.953752652759471818360392307071, 0.300592543743637083687049990523, 0.00000000000000010871283295);
    Cut(49, s1, c1, -0.953752652759471818360392307071, 0.300592543743637083687049990523, 0.00000000000000010871283295,
        4096336452);
    TurnOne(50, s1, c1);
    Next(Turn(49, s1, c1), s1, c1,
         -0.953752652759471818360392307071, 0.300592543743637083687049990523, 0.00000000000000010871283295,
         -0.262374853703928785914355818155, 0.964966028492113274068943451376, 0.00000000000000015219796914);
    Cut(50, s1, c1, -0.262374853703928785914355818155, 0.964966028492113274068943451376, 0.00000000000000015219796914,
        1126891415);
    TurnOne(51, s1, c1);
    Next(Turn(50, s1, c1), s1, c1,
         -0.262374853703928785914355818155, 0.964966028492113274068943451376, 0.00000000000000015219796914,
         0.670229175843374734494354243351, 0.742154196813782539467337208078, 0.00000000000000021307715980);
    Cut(51, s1, c1, 0.670229175843374734494354243351, 0.742154196813782539467337208078, 0.00000000000000021307715980,
        2878612391);
    TurnOne(52, s1, c1);
    Next(Turn(51, s1, c1), s1, c1,
         0.670229175843374734494354243351, 0.742154196813782539467337208078, 0.00000000000000021307715980,
         0.986627592040485296587539694207, -0.162990780795705481003359699684, 0.00000000000000029830802673);
    Cut(52, s1, c1, 0.986627592040485296587539694207, -0.162990780795705481003359699684, 0.00000000000000029830802673,
        4237533241);
    TurnOne(53, s1, c1);
    Next(Turn(52, s1, c1), s1, c1,
         0.986627592040485296587539694207, -0.162990780795705481003359699684, 0.00000000000000029830802673,
         0.395925150181834181503344406554, -0.918282786212118891199717702287, 0.00000000000000041763124043);
    Cut(53, s1, c1, 0.395925150181834181503344406554, -0.918282786212118891199717702287, 0.00000000000000041763124043,
        1700485571);
    TurnOne(54, s1, c1);
    Next(Turn(53, s1, c1), s1, c1,
         0.395925150181834181503344406554, -0.918282786212118891199717702287, 0.00000000000000041763124043,
         -0.558789048851616245817886901549, -0.829309832863150147727809517249, 0.00000000000000058468373961);
    Cut(54, s1, c1, -0.558789048851616245817886901549, -0.829309832863150147727809517249, 0.00000000000000058468373961,
        2399980690);
    TurnOne(55, s1, c1);
    Next(Turn(54, s1, c1), s1, c1,
         -0.558789048851616245817886901549, -0.829309832863150147727809517249, 0.00000000000000058468373961,
         -0.999755173358619836598605526153, 0.022126756261955734563599918618, 0.00000000000000081855723846);
    Cut(55, s1, c1, -0.999755173358619836598605526153, 0.022126756261955734563599918618, 0.00000000000000081855723846,
        4293915773);
    TurnOne(56, s1, c1);
    Next(Turn(55, s1, c1), s1, c1,
         -0.999755173358619836598605526153, 0.022126756261955734563599918618, 0.00000000000000081855723846,
         -0.521551002086911880187365082404, 0.853220107722584113969678438844, 0.00000000000000114598013685);
    Cut(56, s1, c1, -0.521551002086911880187365082404, 0.853220107722584113969678438844, 0.00000000000000114598013685,
        2240044497);
  }

  lemma Constants56()
    ensures T[48] == 4096336452 && T[49] == 1126891415 && T[50] == 2878612391 && T[51] == 4237533241
    ensures T[52] == 1700485571 && T[53] == 2399980690 && T[54] == 4293915773 && T[55] == 2240044497
  {
  }

  lemma {:induction false} Turns64(s1: real, c1: real)
    requires Near(s1, S1, E1) && Near(c1, C1, E1)
    ensures TurnAt(64, s1, c1,
                   0.920026038196790683351525970672, 0.391857230429550005161659510864, 0.00000000000001691224954706)
    ensures forall i :: 56 <= i < 64 ==> Constant(i + 1, s1, c1, T[i])
  {
    hide Turn, T, PairAt, Rotated, Constant;
    Constants64();
    Turns56(s1, c1);
    TurnOne(57, s1, c1);
    Next(Turn(56, s1, c1), s1, c1,
         -0.521551002086911880187365082404, 0.853220107722584113969678438844, 0.00000000000000114598013685,
         0.436164755247824959080557113446, 0.899866826969193786502960377286, 0.00000000000000160437219460);
    Cut(57, s1, c1, 0.436164755247824959080557113446, 0.899866826969193786502960377286, 0.00000000000000160437219460,
        1873313359);
    TurnOne(58, s1, c1);
    Next(Turn(57, s1, c1), s1, c1,
         0.436164755247824959080557113446, 0.899866826969193786502960377286, 0.00000000000000160437219460,
         0.992872648084537118165066162936, 0.119180135448819285435802493061, 0.00000000000000224612107545);
    Cut(58, s1, c1, 0.992872648084537118165066162936, 0.119180135448819285435802493061, 0.00000000000000224612107545,
        4264355552);
    TurnOne(59, s1, c1);
    Next(Turn(58, s1, c1), s1, c1,
         0.992872648084537118165066162936, 0.119180135448819285435802493061, 0.00000000000000224612107545,
         0.636738007139137880771186204068, -0.771080222975845229387439062587, 0.00000000000000314456950864);
    Cut(59, s1, c1, 0.636738007139137880771186204068, -0.771080222975845229387439062587, 0.00000000000000314456950864,
        2734768916);
    TurnOne(60, s1, c1);
    Next(Turn(59, s1, c1), s1, c1,
         0.636738007139137880771186204068, -0.771080222975845229387439062587, 0.00000000000000314456950864,
         -0.304810621102216705625678671383, -0.952412980415156292693778199199, 0.00000000000000440239731510);
    Cut(60, s1, c1, -0.304810621102216705625678671383, -0.952412980415156292693778199199, 0.00000000000000440239731510,
        1309151649);
    TurnOne(61, s1, c1);
    Next(Turn(60, s1, c1), s1, c1,
         -0.304810621102216705625678671383, -0.952412980415156292693778199199, 0.00000000000000440239731510,
         -0.966117770008392947018271184214, -0.258101635938267445701161269992, 0.00000000000000616335624415);
    Cut(61, s1, c1, -0.966117770008392947018271184214, -0.258101635938267445701161269992, 0.00000000000000616335624415,
        4149444226);
    TurnOne(62, s1, c1);
    Next(Turn(61, s1, c1), s1, c1,
         -0.966117770008392947018271184214, -0.258101635938267445701161269992, 0.00000000000000616335624415,
         -0.739180696649222867275968296770, 0.673507162323586252887844336709, 0.00000000000000862869874482);
    Cut(62, s1, c1, -0.739180696649222867275968296770, 0.673507162323586252887844336709, 0.00000000000000862869874482,
        3174756917);
    TurnOne(63, s1, c1);
    Next(Turn(62, s1, c1), s1, c1,
         -0.739180696649222867275968296770, 0.673507162323586252887844336709, 0.00000000000000862869874482,
         0.167355700302806921527874419080, 0.985896581582549697438600170504, 0.00000000000001208017824575);
    Cut(63, s1, c1, 0.167355700302806921527874419080, 0.985896581582549697438600170504, 0.00000000000001208017824575,
        718787259);
    TurnOne(64, s1, c1);
    Next(Turn(63, s1, c1), s1, c1,
         0.167355700302806921527874419080, 0.985896581582549697438600170504, 0.00000000000001208017824575,
         0.920026038196790683351525970672, 0.391857230429550005161659510864, 0.00000000000001691224954706);
    Cut(64, s1, c1, 0.920026038196790683351525970672, 0.391857230429550005161659510864, 0.00000000000001691224954706,
        3951481745);
  }

  lemma Constants64()
    ensures T[56] == 1873313359 && T[57] == 4264355552 && T[58] == 2734768916 && T[59] == 1309151649
    ensures T[60] == 4149444226 && T[61] == 3174756917 && T[62] == 718787259 && T[63] == 3951481745
  {
  }

  lemma TurnNone(s1: real, c1: real)
    ensures TurnAt(0, s1, c1,
                   0.000000000000000000000000000000, 1.000000000000000000000000000000, 0.00000000000000000000000000)
  {
  }

  /** The 64 constants. */
  lemma {:induction false} ConstantsAreSines(s1: real, c1: real)
    requires SineOfOne(s1) && CosineOfOne(c1)
    ensures forall i :: 0 <= i < 64 ==> Constant(i + 1, s1, c1, T[i])
  {
    hide Turn, TurnAt, Constant, Near;
    OneIs(s1, c1);
    Turns8(s1, c1);
    Turns16(s1, c1);
    Turns24(s1, c1);
    Turns32(s1, c1);
    Turns40(s1, c1);
    Turns48(s1, c1);
    Turns56(s1, c1);
    Turns64(s1, c1);
  }

  /** The registers begin with the bytes 01 23 45 67 89 ab cd ef fe dc ba 98 76 54 32 10. */
  lemma InitialIs()
    ensures Output(INITIAL)
         == [0x01, 0x23, 0x45, 0x67, 0x89, 0xAB, 0xCD, 0xEF, 0xFE, 0xDC, 0xBA, 0x98, 0x76, 0x54, 0x32, 0x10]
  {
  }

  /** Words are bytes with the low one first. */
  lemma WordOfBytes(n: nat)
    requires n < 0x1_0000_0000
    ensures Word(Bytes(n)) == n
  {
    var a := n / 256;
    var b := a / 256;
    Quotients(n, a, b);
    assert n == 256 * (256 * (256 * (b / 256) + b % 256) + a % 256) + n % 256;
    assert (b / 256) % 256 == b / 256;
  }

  lemma Quotients(n: nat, a: nat, b: nat)
    requires a == n / 256 && b == a / 256
    ensures n / 65536 == b && n / 16777216 == b / 256
  {
  }
}

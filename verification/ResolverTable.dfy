/** The table of host names: open addressing with double hashing in an array of prime size. */
module ResolverTable {
  import opened Bits
  import opened Division
  import opened Wrappers

  datatype Host = Host(ip: nat, name: seq<Byte>)

  // ----- the two hashes, in the arithmetic of a 32-bit int -----

  /** A byte as a signed char. */
  function Signed(b: Byte): int {
    if b < 128 then b else b - 256
  }

  function Int32(x: int): int {
    var r := x % 0x1_0000_0000;
    if r < 0x8000_0000 then r else r - 0x1_0000_0000
  }

  /** The remainder of C, which has the sign of the dividend. */
  function CRem(a: int, b: int): int
    requires b > 0
  {
    if a >= 0 then a % b else -(-a % b)
  }

  function Hash(name: seq<Byte>, factor: int, m: int): int
    requires m > 0
  {
    if name == [] then 0
    else CRem(Int32(Hash(name[..|name| - 1], factor, m) * factor + Signed(name[|name| - 1])), m)
  }

  predicate Ascii(s: seq<Byte>) {
    forall i :: 0 <= i < |s| ==> s[i] < 128
  }

  /** The largest size for which the second hash cannot overflow. */
  const SAFE := 8985288

  lemma {:induction false} HashInRange(name: seq<Byte>, factor: int, m: int)
    requires Ascii(name) && 0 < m && 0 < factor && (m - 1) * factor + 127 < 0x8000_0000
    ensures 0 <= Hash(name, factor, m) < m
  {
    if name != [] {
      HashInRange(name[..|name| - 1], factor, m);
      var h := Hash(name[..|name| - 1], factor, m);
      Product(h, factor, m - 1);
      hide CRem, Int32, Hash;
      NoWrap(h * factor + Signed(name[|name| - 1]), m);
      HashLast(name, factor, m);
    }
  }

  lemma HashLast(name: seq<Byte>, factor: int, m: int)
    requires name != [] && m > 0
    ensures Hash(name, factor, m)
         == CRem(Int32(Hash(name[..|name| - 1], factor, m) * factor + Signed(name[|name| - 1])), m)
  {
    hide CRem, Int32;
  }

  lemma Product(h: int, factor: int, bound: int)
    requires 0 <= h <= bound && 0 < factor
    ensures 0 <= h * factor <= bound * factor
  {
  }

  lemma NoWrap(x: int, m: int)
    requires 0 <= x < 0x8000_0000 && m > 0
    ensures 0 <= CRem(Int32(x), m) < m
  {
  }

  function Next(h: int, c: Byte, factor: int, m: int): int
    requires m > 0
  {
    CRem(Int32(h * factor + Signed(c)), m)
  }

  lemma HashNone(factor: int, m: int)
    requires m > 0
    ensures Hash([], factor, m) == 0
  {
  }

  /** A hash followed byte by byte. */
  lemma {:induction false} HashTrace(name: seq<Byte>, factor: int, m: int, trace: seq<int>)
    requires m > 0 && |name| == |trace| > 0 && Next(0, name[0], factor, m) == trace[0]
    requires forall i :: 0 < i < |name| ==> Next(trace[i - 1], name[i], factor, m) == trace[i]
    ensures Hash(name, factor, m) == trace[|trace| - 1]
    decreases |name|
  {
    hide CRem, Int32, Hash;
    var n := |name| - 1;
    HashLast(name, factor, m);
    if n == 0 {
      assert name[..0] == [];
      HashNone(factor, m);
    } else {
      HashTrace(name[..n], factor, m, trace[..n]);
    }
  }

  lemma NextIs(h: int, c: Byte, factor: int, m: nat, w: int, q: int, r: int)
    requires c < 128 && m > 0
    requires var y := h * factor + c - 0x1_0000_0000 * w;
             && -0x8000_0000 <= y < 0x8000_0000 && y == m * q + r
             && if y >= 0 then 0 <= r < m else r <= 0 && -r < m
    ensures Next(h, c, factor, m) == r
  {
    var x := h * factor + c;
    var y := x - 0x1_0000_0000 * w;
    Wraps(x, y, w);
    hide Int32;
    if y >= 0 {
      ModUnique(y, m, q, r);
    } else {
      Negated(y, m, q, r);
      ModUnique(-y, m, -q, -r);
    }
  }

  lemma Wraps(x: int, y: int, w: int)
    requires x == y + 0x1_0000_0000 * w && -0x8000_0000 <= y < 0x8000_0000
    ensures Int32(x) == y
  {
  }

  lemma Negated(y: int, m: int, q: int, r: int)
    requires y == m * q + r
    ensures -y == m * -q + -r
  {
  }

  // ----- when the hashes are in range -----

  /** Both hashes of a name are places in a table of this size. */
  predicate InRange(name: seq<Byte>, p: nat)
    requires p > 2
  {
    0 <= Hash(name, 17, p) && 0 <= Hash(name, 239, p - 1)
  }

  /** A hash is smaller than its modulus, whatever its sign. */
  lemma {:induction false} HashBound(name: seq<Byte>, factor: int, m: int)
    requires m > 0
    ensures -m < Hash(name, factor, m) < m
  {
    if name != [] {
      hide Int32;
      HashLast(name, factor, m);
    }
  }

  lemma {:induction false} AsciiInRange(name: seq<Byte>, p: nat)
    requires Ascii(name) && 2 < p <= SAFE
    ensures InRange(name, p)
  {
    hide Hash;
    HashInRange(name, 17, p);
    HashInRange(name, 239, p - 1);
  }

  /** The sizes a table may have. */
  const SIZES: seq<nat> := [
    29, 41, 59, 89, 131, 197, 293, 439, 659, 991, 1481, 2221,
    3329, 4993, 7487, 11239, 16843, 25253, 37879, 56821, 85223, 127837, 191773, 287629,
    431441, 647161, 970747, 1456121, 2184179, 3276253, 4914373, 7371571, 11057357, 16586039, 24879017, 37318507]

  // ----- names at the sizes above SAFE -----

  // At each of three sizes the second name leads to the same place as the first, which is in range,
  // and its second hash is negative. At the largest size there is a name with a negative hash.
  const DXSUMQ: seq<Byte> := [100, 120, 115, 117, 109, 113]
  const CSAAA: seq<Byte> := [99, 115, 97, 97, 97]
  const BRRAV: seq<Byte> := [98, 114, 114, 97, 118]
  const CBAAV: seq<Byte> := [99, 98, 97, 97, 118]
  const BAACZ: seq<Byte> := [98, 97, 97, 99, 122]
  const ARACZ: seq<Byte> := [97, 114, 97, 99, 122]
  const ZAAAA: seq<Byte> := [122, 97, 97, 97, 97]

  lemma {:induction false} DxsumqStart()
    ensures Hash(DXSUMQ, 17, 11057357) == 8863353
  {
    hide Hash, Next;
    NextIs(0, 100, 17, 11057357, 0, 0, 100);
    NextIs(100, 120, 17, 11057357, 0, 0, 1820);
    NextIs(1820, 115, 17, 11057357, 0, 0, 31055);
    NextIs(31055, 117, 17, 11057357, 0, 0, 528052);
    NextIs(528052, 109, 17, 11057357, 0, 0, 8976993);
    NextIs(8976993, 113, 17, 11057357, 0, 13, 8863353);
    HashTrace(DXSUMQ, 17, 11057357, [100, 1820, 31055, 528052, 8976993, 8863353]);
  }

  lemma {:induction false} DxsumqStep()
    ensures Hash(DXSUMQ, 239, 11057356) == 10514794
  {
    hide Hash, Next;
    NextIs(0, 100, 239, 11057356, 0, 0, 100);
    NextIs(100, 120, 239, 11057356, 0, 0, 24020);
    NextIs(24020, 115, 239, 11057356, 0, 0, 5740895);
    NextIs(5740895, 117, 239, 11057356, 0, 124, 961878);
    NextIs(961878, 109, 239, 11057356, 0, 20, 8741831);
    NextIs(8741831, 113, 239, 11057356, 0, 188, 10514794);
    HashTrace(DXSUMQ, 239, 11057356, [100, 24020, 5740895, 961878, 8741831, 10514794]);
  }

  lemma {:induction false} CsaaaStart()
    ensures Hash(CSAAA, 17, 11057357) == 8863353
  {
    hide Hash, Next;
    NextIs(0, 99, 17, 11057357, 0, 0, 99);
    NextIs(99, 115, 17, 11057357, 0, 0, 1798);
    NextIs(1798, 97, 17, 11057357, 0, 0, 30663);
    NextIs(30663, 97, 17, 11057357, 0, 0, 521368);
    NextIs(521368, 97, 17, 11057357, 0, 0, 8863353);
    HashTrace(CSAAA, 17, 11057357, [99, 1798, 30663, 521368, 8863353]);
  }

  lemma {:induction false} CsaaaStep()
    ensures Hash(CSAAA, 239, 11057356) == -10865743
  {
    hide Hash, Next;
    NextIs(0, 99, 239, 11057356, 0, 0, 99);
    NextIs(99, 115, 239, 11057356, 0, 0, 23776);
    NextIs(23776, 97, 239, 11057356, 0, 0, 5682561);
    NextIs(5682561, 97, 239, 11057356, 0, 122, 9134744);
    NextIs(9134744, 97, 239, 11057356, 1, -190, -10865743);
    HashTrace(CSAAA, 239, 11057356, [99, 23776, 5682561, 9134744, -10865743]);
  }

  lemma {:induction false} BrravStart()
    ensures Hash(BRRAV, 17, 16586039) == 8779853
  {
    hide Hash, Next;
    NextIs(0, 98, 17, 16586039, 0, 0, 98);
    NextIs(98, 114, 17, 16586039, 0, 0, 1780);
    NextIs(1780, 114, 17, 16586039, 0, 0, 30374);
    NextIs(30374, 97, 17, 16586039, 0, 0, 516455);
    NextIs(516455, 118, 17, 16586039, 0, 0, 8779853);
    HashTrace(BRRAV, 17, 16586039, [98, 1780, 30374, 516455, 8779853]);
  }

  lemma {:induction false} BrravStep()
    ensures Hash(BRRAV, 239, 16586038) == 13372543
  {
    hide Hash, Next;
    NextIs(0, 98, 239, 16586038, 0, 0, 98);
    NextIs(98, 114, 239, 16586038, 0, 0, 23536);
    NextIs(23536, 114, 239, 16586038, 0, 0, 5625218);
    NextIs(5625218, 97, 239, 16586038, 0, 81, 958121);
    NextIs(958121, 118, 239, 16586038, 0, 13, 13372543);
    HashTrace(BRRAV, 239, 16586038, [98, 23536, 5625218, 958121, 13372543]);
  }

  lemma {:induction false} CbaavStart()
    ensures Hash(CBAAV, 17, 16586039) == 8779853
  {
    hide Hash, Next;
    NextIs(0, 99, 17, 16586039, 0, 0, 99);
    NextIs(99, 98, 17, 16586039, 0, 0, 1781);
    NextIs(1781, 97, 17, 16586039, 0, 0, 30374);
    NextIs(30374, 97, 17, 16586039, 0, 0, 516455);
    NextIs(516455, 118, 17, 16586039, 0, 0, 8779853);
    HashTrace(CBAAV, 17, 16586039, [99, 1781, 30374, 516455, 8779853]);
  }

  lemma {:induction false} CbaavStep()
    ensures Hash(CBAAV, 239, 16586038) == -10821061
  {
    hide Hash, Next;
    NextIs(0, 99, 239, 16586038, 0, 0, 99);
    NextIs(99, 98, 239, 16586038, 0, 0, 23759);
    NextIs(23759, 97, 239, 16586038, 0, 0, 5678498);
    NextIs(5678498, 97, 239, 16586038, 0, 81, 13692041);
    NextIs(13692041, 118, 239, 16586038, 1, -61, -10821061);
    HashTrace(CBAAV, 239, 16586038, [99, 23759, 5678498, 13692041, -10821061]);
  }

  lemma {:induction false} BaaczStart()
    ensures Hash(BAACZ, 17, 24879017) == 8691457
  {
    hide Hash, Next;
    NextIs(0, 98, 17, 24879017, 0, 0, 98);
    NextIs(98, 97, 17, 24879017, 0, 0, 1763);
    NextIs(1763, 97, 17, 24879017, 0, 0, 30068);
    NextIs(30068, 99, 17, 24879017, 0, 0, 511255);
    NextIs(511255, 122, 17, 24879017, 0, 0, 8691457);
    HashTrace(BAACZ, 17, 24879017, [98, 1763, 30068, 511255, 8691457]);
  }

  lemma {:induction false} BaaczStep()
    ensures Hash(BAACZ, 239, 24879016) == 5569457
  {
    hide Hash, Next;
    NextIs(0, 98, 239, 24879016, 0, 0, 98);
    NextIs(98, 97, 239, 24879016, 0, 0, 23519);
    NextIs(23519, 97, 239, 24879016, 0, 0, 5621138);
    NextIs(5621138, 99, 239, 24879016, 0, 53, 24864233);
    NextIs(24864233, 122, 239, 24879016, 1, 66, 5569457);
    HashTrace(BAACZ, 239, 24879016, [98, 23519, 5621138, 24864233, 5569457]);
  }

  lemma {:induction false} AraczStart()
    ensures Hash(ARACZ, 17, 24879017) == 8691457
  {
    hide Hash, Next;
    NextIs(0, 97, 17, 24879017, 0, 0, 97);
    NextIs(97, 114, 17, 24879017, 0, 0, 1763);
    NextIs(1763, 97, 17, 24879017, 0, 0, 30068);
    NextIs(30068, 99, 17, 24879017, 0, 0, 511255);
    NextIs(511255, 122, 17, 24879017, 0, 0, 8691457);
    HashTrace(ARACZ, 17, 24879017, [97, 1763, 30068, 511255, 8691457]);
  }

  lemma {:induction false} AraczStep()
    ensures Hash(ARACZ, 239, 24879016) == -14795625
  {
    hide Hash, Next;
    NextIs(0, 97, 239, 24879016, 0, 0, 97);
    NextIs(97, 114, 239, 24879016, 0, 0, 23297);
    NextIs(23297, 97, 239, 24879016, 0, 0, 5568080);
    NextIs(5568080, 99, 239, 24879016, 0, 53, 12183371);
    NextIs(12183371, 122, 239, 24879016, 1, -55, -14795625);
    HashTrace(ARACZ, 239, 24879016, [97, 23297, 5568080, 12183371, -14795625]);
  }

  lemma {:induction false} ZaaaaStep()
    ensures Hash(ZAAAA, 239, 37318506) == -34193568
  {
    hide Hash, Next;
    NextIs(0, 122, 239, 37318506, 0, 0, 122);
    NextIs(122, 97, 239, 37318506, 0, 0, 29255);
    NextIs(29255, 97, 239, 37318506, 0, 0, 6992042);
    NextIs(6992042, 97, 239, 37318506, 0, 44, 29083871);
    NextIs(29083871, 97, 239, 37318506, 2, -43, -34193568);
    HashTrace(ZAAAA, 239, 37318506, [122, 29255, 6992042, 29083871, -34193568]);
  }

  /** With each of the four sizes above SAFE there is a name of five letters whose second hash is negative. */
  lemma {:induction false} HashOverflows(size: nat) returns (name: seq<Byte>)
    requires size == 11057357 || size == 16586039 || size == 24879017 || size == 37318507
    ensures Ascii(name) && |name| == 5 && Hash(name, 239, size - 1) < 0
  {
    hide Hash;
    if size == 11057357 {
      name := CSAAA;
      CsaaaStep();
    } else if size == 16586039 {
      name := CBAAV;
      CbaavStep();
    } else if size == 24879017 {
      name := ARACZ;
      AraczStep();
    } else {
      name := ZAAAA;
      ZaaaaStep();
    }
  }

  lemma SizesBelowLast()
    ensures |SIZES| == 36 && SIZES[34] == 24879017 && forall j :: 0 <= j <= 34 ==> SIZES[j] < 37318507
  {
  }

  lemma LargeSizes(size: nat)
    requires size in SIZES
    ensures size > 2
    ensures size > SAFE ==> size == 11057357 || size == 16586039 || size == 24879017 || size == 37318507
  {
  }

  /** For the sizes a table may have, every ASCII name is in range if and only if the size is at most SAFE. */
  lemma {:induction false} AsciiIff(size: nat)
    requires size in SIZES && size > 2
    ensures (forall name :: Ascii(name) && |name| < 128 ==> InRange(name, size)) <==> size <= SAFE
  {
    hide Ascii, SIZES, Hash;
    LargeSizes(size);
    if size <= SAFE {
      forall name | Ascii(name) && |name| < 128 ensures InRange(name, size) {
        AsciiInRange(name, size);
      }
    } else {
      var name := HashOverflows(size);
      assert !InRange(name, size);
    }
  }

  /** The place after h1 on the way of a name. */
  function Advance(h1: int, h2: int, p: int): int {
    if h1 + h2 >= p then h1 + h2 - p else h1 + h2
  }

  /** A byte above 127 makes the first hash negative. */
  lemma {:induction false} HighByteIsNegative()
    ensures Hash([200], 17, 29) == -27
  {
    assert [200][..0] == [];
  }

  // ----- probing -----

  predicate Prime(p: nat) {
    p >= 2 && forall d :: 1 < d < p ==> p % d != 0
  }

  lemma {:induction false} PrimeDividesNoProduct(p: nat, d: nat, s: nat)
    requires Prime(p) && 0 < d < p && 0 < s < p
    ensures d * s % p != 0
    decreases s
  {
    if s == 1 {
      assert d * s == d;
    } else {
      var q, r := p / s, p % s;
      assert p == q * s + r && 0 < r < s;
      PrimeDividesNoProduct(p, d, r);
      if d * s % p == 0 {
        var k := d * s / p;
        assert d * s == p * k;
        RemainderMultiple(p, d, s, q, r, k);
      }
    }
  }

  lemma {:induction false} RemainderMultiple(p: nat, d: nat, s: nat, q: nat, r: nat, k: nat)
    requires p > 0 && p == q * s + r && d * s == p * k
    ensures d * r % p == 0
  {
    assert d * r == d * p - q * (d * s) == p * (d - q * k) by {
      assert d * p == d * (q * s) + d * r;
      assert d * (q * s) == q * (d * s);
      assert q * (p * k) == p * (q * k);
    }
    Factor(p, d - q * k);
    ModUnique(d * r, p, d - q * k, 0);
  }

  lemma Factor(p: int, k: int)
    requires p > 0 && p * k >= 0
    ensures k >= 0
  {
  }

  /** The k-th slot looked at. */
  function Probe(a: nat, s: nat, p: nat, k: nat): (r: nat)
    requires p > 0
    ensures r < p
  {
    (a + k * s) % p
  }

  lemma {:induction false} ProbeNext(a: nat, s: nat, p: nat, k: nat)
    requires 0 < s < p
    ensures Probe(a, s, p, k + 1)
         == if Probe(a, s, p, k) + s >= p then Probe(a, s, p, k) + s - p else Probe(a, s, p, k) + s
  {
    var x := a + k * s;
    assert a + (k + 1) * s == x + s;
    AddMod(x, s, p);
  }

  lemma AddMod(x: nat, s: nat, p: nat)
    requires 0 < s < p
    ensures (x + s) % p == if x % p + s >= p then x % p + s - p else x % p + s
  {
    var q, r := x / p, x % p;
    assert x == p * q + r;
    if r + s >= p {
      assert x + s == p * (q + 1) + (r + s - p);
      ModUnique(x + s, p, q + 1, r + s - p);
    } else {
      ModUnique(x + s, p, q, r + s);
    }
  }

  /** In a table of prime size the first p probes are p different slots. */
  lemma {:induction false} ProbesDiffer(a: nat, s: nat, p: nat, j: nat, k: nat)
    requires Prime(p) && 0 < s < p && j < k < p
    ensures Probe(a, s, p, j) != Probe(a, s, p, k)
  {
    var x, y := a + j * s, a + k * s;
    if x % p == y % p {
      PrimeDividesNoProduct(p, k - j, s);
      assert (k - j) * s == y - x == p * (y / p - x / p);
      Factor(p, y / p - x / p);
      ModUnique((k - j) * s, p, y / p - x / p, 0);
    }
  }

  // ----- what a table holds -----

  /** The address a list of entries gives to a name: the first one wins. */
  function FirstOf(entries: seq<Host>, name: seq<Byte>): Option<nat> {
    if entries == [] then None
    else if entries[0].name == name then Some(entries[0].ip)
    else FirstOf(entries[1..], name)
  }

  lemma {:induction false} FirstOfAppend(entries: seq<Host>, e: Host, name: seq<Byte>)
    ensures FirstOf(entries + [e], name) ==
            if FirstOf(entries, name).Some? then FirstOf(entries, name)
            else if e.name == name then Some(e.ip) else None
  {
    if entries != [] {
      assert (entries + [e])[1..] == entries[1..] + [e];
      FirstOfAppend(entries[1..], e, name);
    }
  }

  type Slots = seq<Option<Host>>

  /** Sizes whose places can be added without overflow. */
  predicate Size(p: nat) {
    2 < p < 0x4000_0000 && Prime(p)
  }

  function Start(name: seq<Byte>, p: nat): (a: nat)
    requires Size(p) && InRange(name, p)
    ensures a < p
  {
    HashBound(name, 17, p);
    Hash(name, 17, p)
  }

  function Step(name: seq<Byte>, p: nat): (s: nat)
    requires Size(p) && InRange(name, p)
    ensures 0 < s < p
  {
    HashBound(name, 239, p - 1);
    Hash(name, 239, p - 1) + 1
  }

  function Slot(name: seq<Byte>, p: nat, k: nat): (r: nat)
    requires Size(p) && InRange(name, p)
    ensures r < p
  {
    Probe(Start(name, p), Step(name, p), p, k)
  }

  /** The first k slots on the way of a name are taken. */
  predicate Passed(t: Slots, name: seq<Byte>, k: nat)
    requires Size(|t|) && InRange(name, |t|)
  {
    forall j :: 0 <= j < k ==> t[Slot(name, |t|, j)].Some?
  }

  ghost predicate Reached(t: Slots, i: nat)
    requires Size(|t|) && i < |t| && t[i].Some? && InRange(t[i].value.name, |t|)
  {
    exists k: nat :: Slot(t[i].value.name, |t|, k) == i && Passed(t, t[i].value.name, k)
  }

  function Taken(t: Slots): set<nat> {
    set i: nat | i < |t| && t[i].Some?
  }

  /** A table filled with the entries, in this order. */
  ghost predicate Filled(t: Slots, entries: seq<Host>) {
    && Size(|t|)
    && |Taken(t)| <= |entries|
    && (forall i :: 0 <= i < |t| && t[i].Some? ==>
          InRange(t[i].value.name, |t|) && Reached(t, i) && FirstOf(entries, t[i].value.name) == Some(t[i].value.ip))
    && (forall e :: 0 <= e < |entries| ==> exists i :: 0 <= i < |t| && t[i].Some? && t[i].value.name == entries[e].name)
  }

  lemma {:induction false} FirstOfListed(entries: seq<Host>, name: seq<Byte>) returns (e: nat)
    requires FirstOf(entries, name).Some?
    ensures e < |entries| && entries[e].name == name
  {
    if entries[0].name == name {
      e := 0;
    } else {
      e := FirstOfListed(entries[1..], name);
      e := e + 1;
    }
  }

  /** A name that is not met before a free slot is not in the table. */
  lemma {:induction false} NotFound(t: Slots, entries: seq<Host>, name: seq<Byte>, k: nat)
    requires Filled(t, entries) && InRange(name, |t|) && Passed(t, name, k)
    requires forall j :: 0 <= j < k ==> t[Slot(name, |t|, j)].value.name != name
    requires t[Slot(name, |t|, k)] == None
    ensures FirstOf(entries, name) == None
  {
    hide Slot, InRange, FirstOf;
    forall i | 0 <= i < |t| && t[i].Some?
      ensures t[i].value.name != name
    {
      assert Reached(t, i);
      var j: nat :| Slot(t[i].value.name, |t|, j) == i && Passed(t, t[i].value.name, j);
    }
    if FirstOf(entries, name).Some? {
      var e := FirstOfListed(entries, name);
    }
  }

  /** Putting a new name into the free slot it leads to. */
  lemma {:induction false} Stored(t: Slots, entries: seq<Host>, h: Host, k: nat)
    requires Filled(t, entries) && InRange(h.name, |t|) && Passed(t, h.name, k)
    requires t[Slot(h.name, |t|, k)] == None && FirstOf(entries, h.name) == None
    ensures Filled(t[Slot(h.name, |t|, k) := Some(h)], entries + [h])
  {
    assert |t| > 2;
    hide Slot, InRange, FirstOf, Size;
    var i := Slot(h.name, |t|, k);
    var u := t[i := Some(h)];
    assert Taken(u) == Taken(t) + {i};
    forall x | 0 <= x < |u| && u[x].Some?
      ensures InRange(u[x].value.name, |u|) && Reached(u, x)
      ensures FirstOf(entries + [h], u[x].value.name) == Some(u[x].value.ip)
    {
      FirstOfAppend(entries, h, u[x].value.name);
      if x == i {
        assert Slot(h.name, |u|, k) == x && Passed(u, h.name, k);
      } else {
        assert Reached(t, x);
        var j: nat :| Slot(t[x].value.name, |t|, j) == x && Passed(t, t[x].value.name, j);
        assert Slot(u[x].value.name, |u|, j) == x && Passed(u, u[x].value.name, j);
      }
    }
    forall e | 0 <= e < |entries + [h]|
      ensures exists x :: 0 <= x < |u| && u[x].Some? && u[x].value.name == (entries + [h])[e].name
    {
      if e < |entries| {
        var x :| 0 <= x < |t| && t[x].Some? && t[x].value.name == entries[e].name;
        assert u[x].Some? && u[x].value.name == (entries + [h])[e].name;
      } else {
        assert u[i].Some? && u[i].value.name == (entries + [h])[e].name;
      }
    }
  }

  /** An entry whose name is already there changes nothing. */
  lemma {:induction false} Repeated(t: Slots, entries: seq<Host>, h: Host, i: nat)
    requires Filled(t, entries) && i < |t| && t[i].Some? && t[i].value.name == h.name
    ensures Filled(t, entries + [h])
  {
    forall x | 0 <= x < |t| && t[x].Some?
      ensures FirstOf(entries + [h], t[x].value.name) == Some(t[x].value.ip)
    {
      FirstOfAppend(entries, h, t[x].value.name);
    }
    forall e | 0 <= e < |entries + [h]|
      ensures exists x :: 0 <= x < |t| && t[x].Some? && t[x].value.name == (entries + [h])[e].name
    {
      if e == |entries| {
        assert t[i].Some? && t[i].value.name == (entries + [h])[e].name;
      }
    }
  }

  lemma {:induction false} EmptyFilled(p: nat)
    requires Size(p)
    ensures Filled(seq(p, _ => None), [])
  {
    var t: Slots := seq(p, _ => None);
    assert Taken(t) == {};
  }
}

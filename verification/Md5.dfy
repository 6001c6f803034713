/** MD5 as sections 3.1 to 3.5 of RFC 1321 define it, on 32-bit words, and the block function
    of the repository, which computes with 64-bit words and lets the upper halves run wild. */
module Md5 {
  import opened Bits
  import opened Division

  // ----- bitwise functions -----

  /** Applies f to each of the low n bits of three words. */
  function Map3(f: (bool, bool, bool) -> bool, x: nat, y: nat, z: nat, n: nat): nat
    decreases n
  {
    if n == 0 then 0
    else (if f(x % 2 == 1, y % 2 == 1, z % 2 == 1) then 1 else 0) + 2 * Map3(f, x / 2, y / 2, z / 2, n - 1)
  }

  lemma {:induction false} Map3Bound(f: (bool, bool, bool) -> bool, x: nat, y: nat, z: nat, n: nat)
    ensures Map3(f, x, y, z, n) < Pow2(n)
    decreases n
  {
    if n > 0 {
      Map3Bound(f, x / 2, y / 2, z / 2, n - 1);
    }
  }

  /** The low bit and the other bits of a remainder by 2m. */
  lemma HalfMod(x: nat, b: nat, r: nat, m: nat)
    requires m > 0 && b < 2 && x == b + 2 * r
    ensures x % (2 * m) == b + 2 * (r % m)
  {
    var q, t := r / m, r % m;
    assert r == m * q + t;
    assert x == (2 * m) * q + (b + 2 * t) by {
      assert (2 * m) * q == 2 * (m * q);
    }
    ModUnique(x, 2 * m, q, b + 2 * t);
  }

  lemma HalfParts(x: nat, m: nat)
    requires m > 0
    ensures (x % (2 * m)) % 2 == x % 2 && (x % (2 * m)) / 2 == (x / 2) % m
  {
    HalfMod(x, x % 2, x / 2, m);
  }

  /** Bitwise functions do not mix bits: the low k bits depend on the low k bits only, and two
      formulas that agree on bits agree on words. */
  lemma {:induction false} Map3Low(
    f: (bool, bool, bool) -> bool, g: (bool, bool, bool) -> bool, x: nat, y: nat, z: nat, n: nat, k: nat)
    requires k <= n && forall a, b, c :: f(a, b, c) == g(a, b, c)
    ensures Map3(f, x, y, z, n) % Pow2(k) == Map3(g, x % Pow2(k), y % Pow2(k), z % Pow2(k), k)
    decreases n
  {
    if k > 0 {
      var m := Pow2(k - 1);
      HalfParts(x, m);
      HalfParts(y, m);
      HalfParts(z, m);
      var r := Map3(f, x / 2, y / 2, z / 2, n - 1);
      var b := if f(x % 2 == 1, y % 2 == 1, z % 2 == 1) then 1 else 0;
      HalfMod(b + 2 * r, b, r, m);
      Map3Low(f, g, x / 2, y / 2, z / 2, n - 1, k - 1);
    }
  }

  // ----- the algorithm of the RFC -----

  /** The auxiliary functions F, G, H and I of section 3.4. */
  function Aux(round: nat): (bool, bool, bool) -> bool {
    if round == 0 then (x, y, z) => (x && y) || (!x && z)
    else if round == 1 then (x, y, z) => (x && z) || (y && !z)
    else if round == 2 then (x, y, z) => x != (y != z)
    else (x, y, z) => y != (x || !z)
  }

  /** The message word used by operation i. */
  function WordIndex(i: nat): (k: nat)
    ensures k < 16
  {
    if i / 16 == 0 then i % 16
    else if i / 16 == 1 then (5 * i + 1) % 16
    else if i / 16 == 2 then (3 * i + 5) % 16
    else 7 * i % 16
  }

  /** The rotation of operation i. */
  function Rotation(i: nat): (s: nat)
    ensures 0 < s < 32
  {
    if i / 16 == 0 then [7, 12, 17, 22][i % 4]
    else if i / 16 == 1 then [5, 9, 14, 20][i % 4]
    else if i / 16 == 2 then [4, 11, 16, 23][i % 4]
    else [6, 10, 15, 21][i % 4]
  }

  /** The constants floor(2^32 |sin(i + 1)|). */
  const T: seq<nat> :=
    [0xD76AA478, 0xE8C7B756, 0x242070DB, 0xC1BDCEEE, 0xF57C0FAF, 0x4787C62A, 0xA8304613, 0xFD469501]
    + [0x698098D8, 0x8B44F7AF, 0xFFFF5BB1, 0x895CD7BE, 0x6B901122, 0xFD987193, 0xA679438E, 0x49B40821]
    + [0xF61E2562, 0xC040B340, 0x265E5A51, 0xE9B6C7AA, 0xD62F105D, 0x02441453, 0xD8A1E681, 0xE7D3FBC8]
    + [0x21E1CDE6, 0xC33707D6, 0xF4D50D87, 0x455A14ED, 0xA9E3E905, 0xFCEFA3F8, 0x676F02D9, 0x8D2A4C8A]
    + [0xFFFA3942, 0x8771F681, 0x6D9D6122, 0xFDE5380C, 0xA4BEEA44, 0x4BDECFA9, 0xF6BB4B60, 0xBEBFBC70]
    + [0x289B7EC6, 0xEAA127FA, 0xD4EF3085, 0x04881D05, 0xD9D4D039, 0xE6DB99E5, 0x1FA27CF8, 0xC4AC5665]
    + [0xF4292244, 0x432AFF97, 0xAB9423A7, 0xFC93A039, 0x655B59C3, 0x8F0CCC92, 0xFFEFF47D, 0x85845DD1]
    + [0x6FA87E4F, 0xFE2CE6E0, 0xA3014314, 0x4E0811A1, 0xF7537E82, 0xBD3AF235, 0x2AD7D2BB, 0xEB86D391]

  datatype State = State(a: nat, b: nat, c: nat, d: nat)

  const INITIAL: State := State(0x67452301, 0xEFCDAB89, 0x98BADCFE, 0x10325476)

  /** v <<< s on 32-bit words. */
  function Rotate(v: nat, s: nat): nat
    requires s <= 32
  {
    Shl(v, s) % W32 + Shr(v, 32 - s)
  }

  /** Operation i: a = b + ((a + F(b, c, d) + X[k] + T[i]) <<< s); then the registers turn. */
  function Operation(st: State, x: seq<nat>, i: nat): State
    requires |x| == 16 && i < 64
  {
    var sum := (st.a + Map3(Aux(i / 16), st.b, st.c, st.d, 32) + x[WordIndex(i)] + T[i]) % W32;
    State(st.d, (st.b + Rotate(sum, Rotation(i))) % W32, st.b, st.c)
  }

  function Operations(st: State, x: seq<nat>, n: nat): State
    requires |x| == 16 && n <= 64
  {
    if n == 0 then st else Operation(Operations(st, x, n - 1), x, n - 1)
  }

  /** Four bytes as a word, low-order byte first. */
  function Word(b: seq<Byte>): nat
    requires |b| == 4
  {
    var b0: nat, b1: nat, b2: nat, b3: nat := b[0], b[1], b[2], b[3];
    b0 + 256 * b1 + 65536 * b2 + 16777216 * b3
  }

  function Words(block: seq<Byte>): (x: seq<nat>)
    requires |block| == 64
    ensures |x| == 16
  {
    seq(16, i requires 0 <= i < 16 => Word(block[4 * i..4 * i + 4]))
  }

  function Block(st: State, block: seq<Byte>): State
    requires |block| == 64
  {
    var r := Operations(st, Words(block), 64);
    State((st.a + r.a) % W32, (st.b + r.b) % W32, (st.c + r.c) % W32, (st.d + r.d) % W32)
  }

  /** The state after as many whole blocks as there are. */
  function Blocks(st: State, data: seq<Byte>): State
    decreases |data|
  {
    if |data| < 64 then st else Blocks(Block(st, data[..64]), data[64..])
  }

  /** The four bytes of the low half of a word. */
  function Bytes(n: nat): (b: seq<Byte>)
    ensures |b| == 4
  {
    [n % 256, n / 256 % 256, n / 65536 % 256, n / 16777216 % 256]
  }

  /** One bit, then zeros to 56 modulo 64, then the length in bits as two words. */
  function Padding(n: nat): (p: seq<Byte>)
    ensures |p| == PadLength(n) + 8
  {
    [0x80] + seq(PadLength(n) - 1, _ => 0) + Bytes(8 * n) + Bytes(8 * n / W32)
  }

  /** Between 1 and 64 bytes bring the length to 56 modulo 64. */
  function PadLength(n: nat): (k: nat)
    ensures 1 <= k <= 64 && (n + k) % 64 == 56
  {
    if n % 64 < 56 then 56 - n % 64 else 120 - n % 64
  }

  function Output(st: State): (r: seq<Byte>)
    ensures |r| == 16
  {
    Bytes(st.a) + Bytes(st.b) + Bytes(st.c) + Bytes(st.d)
  }

  /** The MD5 digest of a message. */
  function Digest(message: seq<Byte>): (r: seq<Byte>)
    ensures |r| == 16
  {
    Output(Blocks(INITIAL, message + Padding(|message|)))
  }

  // ----- the block function on 64-bit words -----

  /** The macros F of the four rounds, bit by bit. */
  function MacroF(round: nat): (bool, bool, bool) -> bool {
    if round == 0 then (x, y, z) => z != (x && (y != z))
    else if round == 1 then (x, y, z) => y != (z && (x != y))
    else if round == 2 then (x, y, z) => (x != y) != z
    else (x, y, z) => y != (x || !z)
  }

  function OrBit(): (bool, bool, bool) -> bool {
    (p, q, _) => p || q
  }

  function Or64(a: nat, b: nat): nat {
    Map3(OrBit(), a, b, 0, 64)
  }

  /** The macro S: the upper half of x is shifted along, only the lower half is rotated. */
  function MacroS(x: nat, s: nat): nat
    requires s <= 32
  {
    Or64(Shl(x, s) % W64, Shr(x % W32, 32 - s))
  }

  /** The word index and the rotation in the i-th of the 64 macro calls. */
  function MacroCall(i: nat): (nat, nat)
    requires i < 64
  {
    match i
    case 0 => (0, 7) case 1 => (1, 12) case 2 => (2, 17) case 3 => (3, 22)
    case 4 => (4, 7) case 5 => (5, 12) case 6 => (6, 17) case 7 => (7, 22)
    case 8 => (8, 7) case 9 => (9, 12) case 10 => (10, 17) case 11 => (11, 22)
    case 12 => (12, 7) case 13 => (13, 12) case 14 => (14, 17) case 15 => (15, 22)
    case 16 => (1, 5) case 17 => (6, 9) case 18 => (11, 14) case 19 => (0, 20)
    case 20 => (5, 5) case 21 => (10, 9) case 22 => (15, 14) case 23 => (4, 20)
    case 24 => (9, 5) case 25 => (14, 9) case 26 => (3, 14) case 27 => (8, 20)
    case 28 => (13, 5) case 29 => (2, 9) case 30 => (7, 14) case 31 => (12, 20)
    case 32 => (5, 4) case 33 => (8, 11) case 34 => (11, 16) case 35 => (14, 23)
    case 36 => (1, 4) case 37 => (4, 11) case 38 => (7, 16) case 39 => (10, 23)
    case 40 => (13, 4) case 41 => (0, 11) case 42 => (3, 16) case 43 => (6, 23)
    case 44 => (9, 4) case 45 => (12, 11) case 46 => (15, 16) case 47 => (2, 23)
    case 48 => (0, 6) case 49 => (7, 10) case 50 => (14, 15) case 51 => (5, 21)
    case 52 => (12, 6) case 53 => (3, 10) case 54 => (10, 15) case 55 => (1, 21)
    case 56 => (8, 6) case 57 => (15, 10) case 58 => (6, 15) case 59 => (13, 21)
    case 60 => (4, 6) case 61 => (11, 10) case 62 => (2, 15) case 63 => (9, 21)
  }

  lemma {:induction false} MacroCallIs(i: nat)
    requires i < 64
    ensures MacroCall(i) == (WordIndex(i), Rotation(i))
  {
    if i < 16 {
      FirstRound(i);
    } else if i < 32 {
      SecondRound(i);
    } else if i < 48 {
      ThirdRound(i);
    } else {
      FourthRound(i);
    }
  }

  lemma {:induction false} FirstRound(i: nat)
    requires 0 <= i < 16
    ensures MacroCall(i) == (WordIndex(i), Rotation(i))
  {
  }

  lemma {:induction false} SecondRound(i: nat)
    requires 16 <= i < 32
    ensures MacroCall(i) == (WordIndex(i), Rotation(i))
  {
  }

  lemma {:induction false} ThirdRound(i: nat)
    requires 32 <= i < 48
    ensures MacroCall(i) == (WordIndex(i), Rotation(i))
  {
  }

  lemma {:induction false} FourthRound(i: nat)
    requires 48 <= i < 64
    ensures MacroCall(i) == (WordIndex(i), Rotation(i))
  {
  }

  /** The macro P on 64-bit words. */
  function MacroP(a: nat, b: nat, c: nat, d: nat, round: nat, x: nat, s: nat, t: nat): nat
    requires s <= 32
  {
    var sum := (a + Map3(MacroF(round), b, c, d, 64) + x + t) % W64;
    (MacroS(sum, s) + b) % W64
  }

  // ----- the low halves compute the RFC's words -----

  lemma ModMod(x: nat)
    ensures x % W64 % W32 == x % W32
  {
    assert x == W64 * (x / W64) + x % W64;
    assert W64 * (x / W64) == W32 * (W32 * (x / W64));
  }

  lemma ModAdd(x: nat, y: nat)
    ensures (x + y) % W32 == (x % W32 + y) % W32 == (x % W32 + y % W32) % W32
  {
  }

  lemma {:induction false} LowLow(x: nat, j: nat, k: nat)
    requires k <= j
    ensures x % Pow2(j) % Pow2(k) == x % Pow2(k)
  {
    if k > 0 {
      HalfParts(x, Pow2(j - 1));
      HalfParts(x, Pow2(k - 1));
      HalfParts(x % Pow2(j), Pow2(k - 1));
      LowLow(x / 2, j - 1, k - 1);
      SameDigits(x % Pow2(j) % Pow2(k), x % Pow2(k));
    }
  }

  /** A shifted word with something added below: the remainder keeps the lower part. */
  lemma {:induction false} ShlAddMod(h: nat, v: nat, s: nat, n: nat)
    requires s <= n && v < Pow2(s)
    ensures (Shl(h, s) + v) % Pow2(n) == Shl(h % Pow2(n - s), s) + v
  {
    if s > 0 {
      ShlAddMod(h, v / 2, s - 1, n - 1);
      HalfMod(Shl(h, s) + v, v % 2, Shl(h, s - 1) + v / 2, Pow2(n - 1));
    }
  }

  lemma {:induction false} ShrBound(x: nat, j: nat, k: nat)
    requires x < Pow2(j + k)
    ensures Shr(x, k) < Pow2(j)
    decreases k
  {
    if k > 0 {
      ShrBound(x / 2, j, k - 1);
    }
  }

  /** Joining words without common bits is addition. */
  lemma {:induction false} OrJoin(h: nat, v: nat, s: nat, n: nat)
    requires s <= n && v < Pow2(s) && Shl(h, s) + v < Pow2(n)
    ensures Map3(OrBit(), Shl(h, s), v, 0, n) == Shl(h, s) + v
    decreases n
  {
    if n > 0 {
      if s > 0 {
        OrJoin(h, v / 2, s - 1, n - 1);
      } else {
        OrJoin(h / 2, 0, 0, n - 1);
      }
    }
  }

  /** On the low half, S is the rotation of the RFC. */
  lemma {:induction false} MacroSLow(x: nat, s: nat)
    requires s <= 32
    ensures MacroS(x, s) % W32 == Rotate(x % W32, s)
  {
    hide Map3, Pow2, Shl, Shr, OrBit;
    Pow2Word();
    Pow2Word64();
    var v := Shr(x % W32, 32 - s);
    var h := x % Pow2(64 - s);
    ShrBound(x % W32, s, 32 - s);
    ZeroBelow(s);
    ShlAddMod(x, 0, s, 64);
    ShlAddMod(x, v, s, 64);
    OrJoin(h, v, s, 64);
    ShlAddMod(h, v, s, 32);
    LowLow(x, 64 - s, 32 - s);
    LowLow(x, 32, 32 - s);
    ShlAddMod(x % W32, 0, s, 32);
  }

  lemma ZeroBelow(s: nat)
    ensures 0 < Pow2(s)
  {
  }

  function MacroStep(st: State, x: seq<nat>, i: nat): State
    requires |x| == 16 && i < 64
  {
    MacroCallIs(i);
    State(st.d, MacroP(st.a, st.b, st.c, st.d, i / 16, x[MacroCall(i).0], MacroCall(i).1, T[i]), st.b, st.c)
  }

  function Low(st: State): State {
    State(st.a % W32, st.b % W32, st.c % W32, st.d % W32)
  }

  /** The formulas of the macros are those of the RFC, on every bit. */
  lemma {:induction false} FormulasAgree(round: nat, x: bool, y: bool, z: bool)
    ensures MacroF(round)(x, y, z) == Aux(round)(x, y, z)
  {
  }

  lemma {:induction false} FLow(round: nat, b: nat, c: nat, d: nat)
    ensures Map3(MacroF(round), b, c, d, 64) % W32 == Map3(Aux(round), b % W32, c % W32, d % W32, 32)
  {
    hide Map3, Pow2, MacroF, Aux;
    Pow2Word();
    Pow2Word64();
    forall x, y, z ensures MacroF(round)(x, y, z) == Aux(round)(x, y, z) {
      FormulasAgree(round, x, y, z);
    }
    Map3Low(MacroF(round), Aux(round), b, c, d, 64, 32);
  }

  lemma {:induction false} StepLow(st: State, x: seq<nat>, i: nat)
    requires |x| == 16 && i < 64
    ensures Low(MacroStep(st, x, i)) == Operation(Low(st), x, i)
  {
    hide Map3, MacroF, Aux, MacroCall, WordIndex, Rotation, MacroS, Rotate;
    MacroCallIs(i);
    var f64 := Map3(MacroF(i / 16), st.b, st.c, st.d, 64);
    var f32 := Map3(Aux(i / 16), st.b % W32, st.c % W32, st.d % W32, 32);
    FLow(i / 16, st.b, st.c, st.d);
    var more := x[WordIndex(i)] + T[i];
    var sum := st.a + f64 + more;
    ModMod(sum);
    SumLow(st.a, f64, f32, more);
    MacroSLow(sum % W64, Rotation(i));
    ModMod(MacroS(sum % W64, Rotation(i)) + st.b);
    ModAdd(MacroS(sum % W64, Rotation(i)), st.b);
    ModAdd(Rotate(sum % W32, Rotation(i)), st.b % W32);
  }

  lemma SumLow(a: nat, f: nat, g: nat, more: nat)
    requires f % W32 == g
    ensures (a + f + more) % W32 == (a % W32 + g + more) % W32
  {
    ModAdd(a, f + more);
    ModAdd(f, a % W32 + more);
  }

  // ----- whole blocks -----

  lemma {:induction false} BlocksAppend(st: State, a: seq<Byte>, b: seq<Byte>)
    requires |a| % 64 == 0
    ensures Blocks(st, a + b) == Blocks(Blocks(st, a), b)
    decreases |a|
  {
    hide Block;
    if a == [] {
      assert a + b == b;
    } else {
      assert (a + b)[..64] == a[..64] && (a + b)[64..] == a[64..] + b;
      BlocksAppend(Block(st, a[..64]), a[64..], b);
    }
  }

  /** The bytes after the last whole block. */
  function Rest(m: seq<Byte>): (r: seq<Byte>)
    ensures |r| == |m| % 64
  {
    m[|m| - |m| % 64..]
  }

  /** Bytes that complete the block in progress add that block to the state. */
  lemma {:induction false} BlockCompleted(m: seq<Byte>, piece: seq<Byte>)
    requires |m| % 64 + |piece| == 64
    ensures Blocks(INITIAL, m + piece) == Block(Blocks(INITIAL, m), Rest(m) + piece) && Rest(m + piece) == []
  {
    hide Block;
    var whole := m[..|m| - |m| % 64];
    assert m == whole + Rest(m) && m + piece == whole + (Rest(m) + piece);
    BlocksAppend(INITIAL, whole, Rest(m));
    BlocksAppend(INITIAL, whole, Rest(m) + piece);
    var block := Rest(m) + piece;
    assert block[..64] == block && block[64..] == [];
  }

  /** Bytes that do not complete a block leave the state as it is. */
  lemma {:induction false} BlockContinued(m: seq<Byte>, piece: seq<Byte>)
    requires |m| % 64 + |piece| < 64
    ensures Blocks(INITIAL, m + piece) == Blocks(INITIAL, m) && Rest(m + piece) == Rest(m) + piece
  {
    hide Block;
    var whole := m[..|m| - |m| % 64];
    assert m == whole + Rest(m) && m + piece == whole + (Rest(m) + piece);
    BlocksAppend(INITIAL, whole, Rest(m));
    BlocksAppend(INITIAL, whole, Rest(m) + piece);
  }

  /** A byte of a word does not depend on what lies 256 and more times above it. */
  lemma {:induction false} ByteLow(q: nat, t: nat, k: nat, c: nat)
    requires k > 0
    ensures (k * (256 * c) * q + t) / k % 256 == t / k % 256
  {
    Regroup(k, c, q, t / k);
    ModUnique(k * (256 * c) * q + t, k, 256 * (c * q) + t / k, t % k);
    HighByteDrops(c * q, t / k);
  }

  lemma Regroup(k: nat, c: nat, q: nat, u: nat)
    ensures k * (256 * c) * q + k * u == k * (256 * (c * q) + u)
  {
    var p := c * q;
    assert k * (256 * c) * q == (k * (256 * c)) * q == k * ((256 * c) * q) == k * (256 * p);
  }

  lemma HighByteDrops(p: nat, u: nat)
    ensures (256 * p + u) % 256 == u % 256
  {
  }

  lemma {:induction false} BytesLow(n: nat)
    ensures Bytes(n % W32) == Bytes(n)
  {
    var q, t := n / W32, n % W32;
    ByteLow(q, t, 1, 16777216);
    ByteLow(q, t, 256, 65536);
    ByteLow(q, t, 65536, 256);
    ByteLow(q, t, 16777216, 1);
  }
}

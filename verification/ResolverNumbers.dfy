/** The numbers and addresses of a hosts file, stated on the bytes of its text: which texts are numbers,
    what they are worth, and which lines begin with an address. */
module ResolverNumbers {
  import opened Bits
  import opened Wrappers
  import opened ResolverTable
  import opened Resolver
  import opened ResolverText
  import opened ResolverLines

  /** Blanks, tabs, and the other characters the library counts as white space. */
  predicate White(s: seq<Byte>) {
    forall k :: 0 <= k < |s| ==> s[k] == 32 || 9 <= s[k] <= 13
  }

  predicate Figures(s: seq<Byte>) {
    forall k :: 0 <= k < |s| ==> 48 <= s[k] <= 57
  }

  function Amount(s: seq<Byte>): nat
    requires Figures(s)
  {
    if s == [] then 0
    else
      assert 48 <= s[|s| - 1] <= 57;
      10 * Amount(s[..|s| - 1]) + (s[|s| - 1] - 48)
  }

  predicate Sign(s: seq<Byte>) {
    s == [] || s == [43] || s == [45]
  }

  /** A number too large for 64 bits becomes the largest, a negative one wraps around. */
  function Clipped(minus: bool, v: nat): nat {
    if v >= 18446744073709551616 then 18446744073709551615 else if minus && v > 0 then 18446744073709551616 - v else v
  }

  predicate NoFigure(d: Data, i: nat) {
    i <= |d| && !(48 <= At(d, i) <= 57)
  }

  lemma {:induction false} WhiteRead(d: Data, i: nat, ws: seq<Byte>)
    requires White(ws) && Stands(d, i, ws) && !White([At(d, i + |ws|)])
    ensures SkipSpaces(d, i) == i + |ws|
    decreases |ws|
  {
    assert [At(d, i + |ws|)][0] == At(d, i + |ws|);
    if ws != [] {
      StandsAt(d, i, ws, 0);
      assert ws == [ws[0]] + ws[1..];
      StandsSplit(d, i, [ws[0]], ws[1..]);
      WhiteRead(d, i + 1, ws[1..]);
    }
  }

  lemma {:induction false} AmountIs(s: seq<Byte>)
    requires Figures(s)
    ensures (forall k :: 0 <= k < |s| ==> IsDigit(s[k])) && Value(s, 0) == Amount(s)
  {
    if s != [] {
      AmountIs(s[..|s| - 1]);
    }
  }

  /** White space, a sign and figures are read as far as the figures go. */
  lemma {:induction false} NumberReads(d: Data, i: nat, ws: seq<Byte>, sign: seq<Byte>, figures: seq<Byte>)
    requires White(ws) && Sign(sign) && Figures(figures) && figures != []
    requires Stands(d, i, ws + (sign + figures)) && NoFigure(d, i + |ws| + |sign| + |figures|)
    ensures Strtoul(d, i) == (Clipped(sign == [45], Amount(figures)), i + |ws| + |sign| + |figures|)
  {
    hide Digits, Amount, Value, SkipSpaces, Stands;
    var p, q := i + |ws|, i + |ws| + |sign|;
    StandsSplit(d, i, ws, sign + figures);
    StandsSplit(d, p, sign, figures);
    StandsAt(d, q, figures, 0);
    if sign != [] {
      StandsAt(d, p, sign, 0);
    }
    FirstNotWhite(d, p, sign);
    WhiteRead(d, i, ws);
    AmountIs(figures);
    StandsFits(d, q, figures);
    DigitsRead(d, q, figures, 0);
  }

  lemma StandsFits(d: Data, i: nat, s: seq<Byte>)
    requires Stands(d, i, s)
    ensures i + |s| <= |d|
  {
  }

  lemma FirstNotWhite(d: Data, p: nat, sign: seq<Byte>)
    requires p <= |d| && (sign == [] ==> 48 <= At(d, p) <= 57) && (sign != [] ==> At(d, p) == 43 || At(d, p) == 45)
    ensures !White([At(d, p)])
  {
    assert [At(d, p)][0] == At(d, p);
  }

  /** Where white space is followed by something else, nothing is read. */
  lemma {:induction false} NothingReads(d: Data, i: nat, ws: seq<Byte>)
    requires White(ws) && Stands(d, i, ws) && !White([At(d, i + |ws|)]) && NoFigure(d, i + |ws|)
    requires At(d, i + |ws|) == 43 || At(d, i + |ws|) == 45 ==> NoFigure(d, i + |ws| + 1)
    ensures Strtoul(d, i) == (0, i)
  {
    hide SkipSpaces, Stands;
    WhiteRead(d, i, ws);
  }

  /** A number counts if its low 32 bits are at most 255. */
  lemma {:induction false} ByteReads(d: Data, i: nat, ws: seq<Byte>, sign: seq<Byte>, figures: seq<Byte>)
    requires White(ws) && Sign(sign) && Figures(figures) && figures != []
    requires Stands(d, i, ws + (sign + figures)) && NoFigure(d, i + |ws| + |sign| + |figures|)
    ensures var v := Clipped(sign == [45], Amount(figures)) % 4294967296;
            ReadByte(d, i) == if v <= 255 then Some((v, i + |ws| + |sign| + |figures|)) else None
  {
    hide Strtoul, Clipped, Amount, Stands;
    NumberReads(d, i, ws, sign, figures);
  }

  lemma {:induction false} NoByteReads(d: Data, i: nat, ws: seq<Byte>)
    requires White(ws) && Stands(d, i, ws) && !White([At(d, i + |ws|)]) && NoFigure(d, i + |ws|)
    requires At(d, i + |ws|) == 43 || At(d, i + |ws|) == 45 ==> NoFigure(d, i + |ws| + 1)
    ensures ReadByte(d, i) == None
  {
    hide Strtoul, Stands;
    NothingReads(d, i, ws);
  }

  // ----- addresses -----

  /** Four numbers with dots between them, and where each ends. */
  datatype Quad = Quad(v0: nat, e0: nat, v1: nat, e1: nat, v2: nat, e2: nat, v3: nat, e3: nat)

  predicate QuadAt(d: Data, i: nat, q: Quad) {
    && i <= |d| && ReadByte(d, i) == Some((q.v0, q.e0))
    && q.e0 < |d| && d[q.e0] == 46 && ReadByte(d, q.e0 + 1) == Some((q.v1, q.e1))
    && q.e1 < |d| && d[q.e1] == 46 && ReadByte(d, q.e1 + 1) == Some((q.v2, q.e2))
    && q.e2 < |d| && d[q.e2] == 46 && ReadByte(d, q.e2 + 1) == Some((q.v3, q.e3))
  }

  function Ip(q: Quad): nat {
    q.v0 * 16777216 + q.v1 * 65536 + q.v2 * 256 + q.v3
  }

  /** Such an address is read, from the highest byte to the lowest. */
  lemma {:induction false} QuadRead(d: Data, i: nat, q: Quad)
    requires QuadAt(d, i, q)
    ensures Octets(d, i, 0, 0) == Address(4, Ip(q), q.e3)
  {
    hide ReadByte, Octets;
    BytesBound(d, i, q);
    OctetsNext(d, i, 0, 0, q.v0, q.e0);
    OctetsNext(d, q.e0 + 1, 1, q.v0, q.v1, q.e1);
    OctetsNext(d, q.e1 + 1, 2, q.v0 * 256 + q.v1, q.v2, q.e2);
    OctetsLast(d, q.e2 + 1, (q.v0 * 256 + q.v1) * 256 + q.v2, q.v3, q.e3);
  }

  lemma BytesBound(d: Data, i: nat, q: Quad)
    requires QuadAt(d, i, q)
    ensures q.v0 < 256 && q.v1 < 256 && q.v2 < 256 && q.v3 < 256
  {
    hide Strtoul;
  }

  /** Only such a text is an address. */
  lemma {:induction false} QuadOnly(d: Data, i: nat) returns (q: Quad)
    requires i <= |d| && Octets(d, i, 0, 0).count == 4
    ensures QuadAt(d, i, q)
  {
    hide ReadByte, Octets;
    OctetsStep(d, i, 0, 0);
    var (v0, e0) := ReadByte(d, i).value;
    OctetsStep(d, e0 + 1, 1, (0 * 256 + v0) % W32);
    var (v1, e1) := ReadByte(d, e0 + 1).value;
    OctetsStep(d, e1 + 1, 2, ((0 * 256 + v0) % W32 * 256 + v1) % W32);
    var (v2, e2) := ReadByte(d, e1 + 1).value;
    OctetsStep(d, e2 + 1, 3, (((0 * 256 + v0) % W32 * 256 + v1) % W32 * 256 + v2) % W32);
    var (v3, e3) := ReadByte(d, e2 + 1).value;
    q := Quad(v0, e0, v1, e1, v2, e2, v3, e3);
  }

  /** A line gives names if and only if it begins, after blanks, with an address that is not zero and a
      blank behind it; they are the words after that address. */
  lemma {:induction false} LineExactly(d: Data, i: nat)
    requires i <= |d|
    ensures forall q :: QuadAt(d, SkipSpc(d, i), q) && q.e3 < |d| && (d[q.e3] == 32 || d[q.e3] == 9) && Ip(q) != 0 ==>
              Line(d, i) == Words(d, q.e3, Ip(q))
    ensures (forall q :: QuadAt(d, SkipSpc(d, i), q) ==> !(q.e3 < |d| && (d[q.e3] == 32 || d[q.e3] == 9) && Ip(q) != 0))
            ==> Line(d, i).0 == []
  {
    hide ReadByte, Octets, Words, QuadAt, Ip, SkipSpc;
    var start := SkipSpc(d, i);
    var a := Octets(d, start, 0, 0);
    forall q | QuadAt(d, start, q) ensures a == Address(4, Ip(q), q.e3) {
      QuadRead(d, start, q);
    }
    if a.count == 4 {
      var q := QuadOnly(d, start);
    }
  }
}

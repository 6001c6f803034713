/** When the scan of a line of a hosts file ends with that line. Numbers are sought past white space,
    new lines included, and a number that is not followed by its dot is passed with one more byte: in
    both ways the scan can run over into the next line. */
module ResolverLines {
  import opened Bits
  import opened Wrappers
  import opened ResolverTable
  import opened Resolver
  import opened ResolverText

  /** The line that begins at i ends with the newline at n. */
  predicate LineAt(d: Data, i: nat, n: nat) {
    i <= n < |d| && d[n] == NEWLINE && Flat(d[i..n])
  }

  /** Nothing but white space is left of the line. */
  predicate BlankTo(d: Data, j: nat, n: nat)
    requires j <= n <= |d|
  {
    forall x :: j <= x < n ==> IsSpace(d[x])
  }

  /** The place where the k-th number of a line is sought, counted from 0: each number before it is
      followed by a dot. */
  function Place(d: Data, i: nat, k: nat): (r: Option<nat>)
    requires i <= |d|
    ensures r.Some? ==> i <= r.value <= |d|
  {
    if k == 0 then Some(SkipSpc(d, i))
    else
      match Place(d, i, k - 1)
      case None => None
      case Some(j) => AfterDot(d, j)
  }

  /** The place behind the number at j and its dot. */
  function AfterDot(d: Data, j: nat): (r: Option<nat>)
    requires j <= |d|
    ensures r.Some? ==> j < r.value <= |d|
  {
    match ReadByte(d, j)
    case None => None
    case Some((_, e)) => if At(d, e) == DOT then Some(e + 1) else None
  }

  /** The k-th number is sought on the line that ends at n. */
  predicate SoughtBy(d: Data, i: nat, n: nat, k: nat)
    requires i <= |d|
  {
    Place(d, i, k).Some? && Place(d, i, k).value <= n
  }

  /** A number is sought where only white space is left of the line, and there is one below. */
  predicate FoundBelow(d: Data, i: nat, n: nat, k: nat)
    requires LineAt(d, i, n)
  {
    SoughtBy(d, i, n, k) && BlankTo(d, Place(d, i, k).value, n) && ReadByte(d, n + 1).Some?
  }

  /** A number before the fourth is the last thing on the line, and the text goes on. */
  predicate EndsAtNewline(d: Data, i: nat, n: nat, k: nat)
    requires LineAt(d, i, n)
  {
    && k < 3 && SoughtBy(d, i, n, k) && !BlankTo(d, Place(d, i, k).value, n)
    && var number := ReadByte(d, Place(d, i, k).value);
       number.Some? && number.value.1 == n && At(d, n + 1) != 0
  }

  predicate RunsOverAt(d: Data, i: nat, n: nat, k: nat)
    requires LineAt(d, i, n)
  {
    FoundBelow(d, i, n, k) || EndsAtNewline(d, i, n, k)
  }

  predicate RunsOver(d: Data, i: nat, n: nat)
    requires LineAt(d, i, n)
  {
    exists k :: 0 <= k < 4 && RunsOverAt(d, i, n, k)
  }

  // ----- scanning inside the line -----

  lemma {:induction false} BlanksInLine(d: Data, i: nat, n: nat)
    requires i <= n < |d| && d[n] == NEWLINE
    ensures SkipSpc(d, i) <= n
    decreases n - i
  {
    if At(d, i) == SPACE || At(d, i) == TAB {
      BlanksInLine(d, i + 1, n);
    }
  }

  lemma {:induction false} WordInLine(d: Data, i: nat, n: nat)
    requires i <= n < |d| && d[n] == NEWLINE
    ensures WordEnd(d, i) <= n
    decreases n - i
  {
    if InWord(At(d, i)) {
      WordInLine(d, i + 1, n);
    }
  }

  lemma {:induction false} WordsInLine(d: Data, i: nat, ip: nat, n: nat)
    requires i <= n < |d| && d[n] == NEWLINE
    ensures Words(d, i, ip).1 <= n
    decreases |d| - i
  {
    WordsStep(d, i, ip);
    BlanksInLine(d, i, n);
    WordInLine(d, SkipSpc(d, i), n);
    if WordEnd(d, SkipSpc(d, i)) != SkipSpc(d, i) {
      WordsInLine(d, WordEnd(d, SkipSpc(d, i)), ip, n);
    }
  }

  /** White space that ends on the line, or is skipped with its newline. */
  lemma {:induction false} SpacesInLine(d: Data, j: nat, n: nat)
    requires j <= n < |d| && d[n] == NEWLINE
    ensures BlankTo(d, j, n) ==> SkipSpaces(d, j) == SkipSpaces(d, n + 1)
    ensures !BlankTo(d, j, n) ==> SkipSpaces(d, j) < n
    decreases n - j
  {
    if j == n {
      SpacesOverNewline(d, n);
    } else if IsSpace(d[j]) {
      SpacesInLine(d, j + 1, n);
      assert BlankTo(d, j, n) == BlankTo(d, j + 1, n);
    }
  }

  lemma {:induction false} DigitsInLine(d: Data, j: nat, n: nat, v: nat)
    requires j <= n < |d| && d[n] == NEWLINE
    ensures Digits(d, j, v).1 <= n
    decreases n - j
  {
    if IsDigit(At(d, j)) {
      DigitsInLine(d, j + 1, n, 10 * v + At(d, j) - 48);
    }
  }

  /** A number sought before the white space at the end of the line ends on the line. */
  lemma {:induction false} NumberInLine(d: Data, j: nat, n: nat)
    requires j <= n < |d| && d[n] == NEWLINE && !BlankTo(d, j, n) && ReadByte(d, j).Some?
    ensures ReadByte(d, j).value.1 <= n
  {
    SpacesInLine(d, j, n);
    var p := SkipSpaces(d, j);
    DigitsInLine(d, p, n, 0);
    DigitsInLine(d, p + 1, n, 0);
    hide SkipSpaces, Digits, BlankTo;
  }

  /** A number sought in that white space is one of the text below. */
  lemma {:induction false} NumberBelow(d: Data, j: nat, n: nat)
    requires j <= n < |d| && d[n] == NEWLINE && BlankTo(d, j, n)
    ensures ReadByte(d, j) == ReadByte(d, n + 1)
  {
    hide ReadByte;
    SpacesInLine(d, j, n);
    ReadPast(d, j, n + 1);
  }

  // ----- the four numbers -----

  /** Whether the loop over the numbers, at place j with k numbers read, runs over. */
  predicate Over(d: Data, n: nat, j: nat, k: nat)
    requires j <= n < |d| && d[n] == NEWLINE && k < 4
    decreases 4 - k
  {
    if BlankTo(d, j, n) then ReadByte(d, n + 1).Some?
    else if ReadByte(d, j) == None then false
    else
      NumberInLine(d, j, n);
      var e := ReadByte(d, j).value.1;
      k < 3 && (if e == n then At(d, n + 1) != 0 else d[e] == DOT && Over(d, n, e + 1, k + 1))
  }

  lemma {:induction false} OctetsOver(d: Data, n: nat, j: nat, k: nat, ip: nat)
    requires j <= n < |d| && d[n] == NEWLINE && k < 4
    ensures var a := Octets(d, j, k, ip);
            if Over(d, n, j, k) then a.next > n + 1 || (a.next == n + 1 && At(d, n + 1) != 0 && a.count < 4)
            else a.next <= n || (a.next == n + 1 && At(d, n + 1) == 0 && a.count < 4)
    decreases 4 - k
  {
    hide ReadByte, BlankTo, Octets;
    OctetsStep(d, j, k, ip);
    if BlankTo(d, j, n) {
      NumberBelow(d, j, n);
      if ReadByte(d, j).Some? {
        BelowIsBelow(d, n);
      }
    } else if ReadByte(d, j).Some? {
      NumberInLine(d, j, n);
      var (v, e) := ReadByte(d, j).value;
      if k < 3 && e < n && d[e] == DOT {
        OctetsOver(d, n, e + 1, k + 1, (ip * 256 + v) % W32);
      }
    }
  }

  lemma BelowIsBelow(d: Data, n: nat)
    requires n < |d|
    ensures ReadByte(d, n + 1).Some? ==> ReadByte(d, n + 1).value.1 > n + 1
  {
    hide Strtoul;
  }

  /** One turn of the loop over the numbers. */
  lemma {:induction false} OctetsStep(d: Data, j: nat, k: nat, ip: nat)
    requires k < 4 && j <= |d|
    ensures match ReadByte(d, j)
            case None => Octets(d, j, k, ip) == Address(k, ip, j)
            case Some((v, e)) =>
              var next := (ip * 256 + v) % W32;
              if k == 3 then Octets(d, j, k, ip) == Address(4, next, e)
              else if At(d, e) == DOT then Octets(d, j, k, ip) == Octets(d, e + 1, k + 1, next)
              else Octets(d, j, k, ip) == Address(k, next, e + 1)
  {
    hide ReadByte;
    if ReadByte(d, j).Some? && k == 3 {
      OctetsLast(d, j, ip, ReadByte(d, j).value.0, ReadByte(d, j).value.1);
    }
  }

  lemma {:induction false} OverStep(d: Data, i: nat, n: nat, k: nat)
    requires LineAt(d, i, n) && k < 4 && SoughtBy(d, i, n, k)
    ensures Over(d, n, Place(d, i, k).value, k) <==>
            || RunsOverAt(d, i, n, k)
            || (k < 3 && SoughtBy(d, i, n, k + 1) && Over(d, n, Place(d, i, k + 1).value, k + 1))
  {
    hide ReadByte, BlankTo, Flat;
    var j := Place(d, i, k).value;
    if BlankTo(d, j, n) {
      NumberBelow(d, j, n);
      BelowIsBelow(d, n);
    } else if ReadByte(d, j).Some? {
      NumberInLine(d, j, n);
    }
  }

  lemma {:induction false} SoughtBefore(d: Data, i: nat, n: nat, k: nat, l: nat)
    requires i <= |d| && k <= l && SoughtBy(d, i, n, l)
    ensures SoughtBy(d, i, n, k)
    decreases l
  {
    hide AfterDot;
    if k < l {
      SoughtBefore(d, i, n, k, l - 1);
    }
  }

  /** The condition, unfolded along the places of the numbers. */
  lemma {:induction false} OverIff(d: Data, i: nat, n: nat, k: nat)
    requires LineAt(d, i, n) && k < 4 && SoughtBy(d, i, n, k)
    ensures Over(d, n, Place(d, i, k).value, k) <==> exists l :: k <= l < 4 && RunsOverAt(d, i, n, l)
    decreases 4 - k
  {
    hide Over, Place, LineAt, BlankTo;
    OverStep(d, i, n, k);
    if k < 3 && SoughtBy(d, i, n, k + 1) {
      OverIff(d, i, n, k + 1);
    } else {
      forall l | k < l < 4 ensures !RunsOverAt(d, i, n, l) {
        if SoughtBy(d, i, n, l) {
          SoughtBefore(d, i, n, k + 1, l);
        }
      }
    }
  }

  // ----- the theorem -----

  lemma {:induction false} EolnInLine(d: Data, i: nat, n: nat, e: nat)
    requires LineAt(d, i, n) && i <= e <= n
    ensures SkipToEoln(d, e) == n + 1
  {
    var s := d[e..n];
    assert s == d[i..n][e - i..];
    EolnRead(d, e, s);
  }

  /** The scan of a line goes on at the next line if and only if it does not run over: no number is
      found below from the white space at its end, and none before the fourth ends right at its
      newline with more text to come. */
  lemma {:induction false} LineKept(d: Data, i: nat, n: nat)
    requires LineAt(d, i, n)
    ensures Line(d, i).1 <= |d| && SkipToEoln(d, Line(d, i).1) == n + 1 <==> !RunsOver(d, i, n)
  {
    hide Octets, Words, SkipToEoln, Over;
    var start := SkipSpc(d, i);
    BlanksInLine(d, i, n);
    var a := Octets(d, start, 0, 0);
    OctetsOver(d, n, start, 0, 0);
    OverIff(d, i, n, 0);
    var e := Line(d, i).1;
    if a.next <= n {
      WordsInLine(d, a.next, a.ip, n);
      EolnInLine(d, i, n, e);
    } else if e <= |d| {
      EolnBeyond(d, n + 1);
    }
  }

  /** A line that does not run over gives its entries, and the file goes on after it. */
  lemma {:induction false} LineThenRest(d: Data, i: nat, n: nat)
    requires LineAt(d, i, n) && !RunsOver(d, i, n)
    ensures Entries(d, i) == Line(d, i).0 + Entries(d, n + 1) && Stays(d, i) == Stays(d, n + 1)
  {
    hide Line, Entries, Stays, RunsOver, SkipToEoln;
    LineKept(d, i, n);
    EntriesStep(d, i);
    if i < n {
      assert d[i..n][0] == d[i];
    }
  }

  lemma EolnBeyond(d: Data, i: nat)
    requires i <= |d|
    ensures SkipToEoln(d, i) == i <==> At(d, i) == 0
  {
  }

  // ----- two ways to run over -----

  /** A line that is one number loses the line after it: the newline is passed for the dot, and the
      rest of the line the scan is on then is skipped. */
  lemma {:induction false} LineLost(d: Data, i: nat, v: nat, text: seq<Byte>)
    requires v < 256 && text != [] && Flat(text) && Stands(d, i, Decimal(v) + ([NEWLINE] + (text + [NEWLINE])))
    ensures Entries(d, i) == Entries(d, i + |Decimal(v)| + |text| + 2)
  {
    hide Decimal, ReadByte, SkipSpc, SkipToEoln, Entries, Stands, At, Octets, Line, Flat;
    var n := i + |Decimal(v)|;
    StandsSplit(d, i, Decimal(v), [NEWLINE] + (text + [NEWLINE]));
    StandsSplit(d, n, [NEWLINE], text + [NEWLINE]);
    StandsSplit(d, n + 1, text, [NEWLINE]);
    StandsOne(d, n, NEWLINE);
    StandsOne(d, n + 1 + |text|, NEWLINE);
    StandsAt(d, i, Decimal(v), 0);
    NoBlanks(d, i);
    NothingSkipped(d, i);
    ByteRead(d, i, v);
    OctetsStep(d, i, 0, 0);
    NoAddress(d, i, i);
    EolnRead(d, n + 1, text);
    EntriesStep(d, i);
  }

  lemma NoAddress(d: Data, i: nat, start: nat)
    requires i <= |d| && SkipSpc(d, i) == start && Octets(d, start, 0, 0).count < 4
    ensures Line(d, i) == ([], Octets(d, start, 0, 0).next)
  {
    hide Octets, Words, SkipSpc;
  }

  lemma NothingSkipped(d: Data, i: nat)
    requires i <= |d| && At(d, i) != SPACE && At(d, i) != TAB
    ensures SkipSpc(d, i) == i
  {
  }

  /** "1\n2.2.2.2 a\n" has no entry. */
  lemma {:induction false} LineLostIn(d: Data)
    requires d == [49, 10, 50, 46, 50, 46, 50, 46, 50, 32, 97, 10]
    ensures Entries(d, 0) == []
  {
    hide Entries, Decimal, Flat;
    var text := [50, 46, 50, 46, 50, 46, 50, 32, 97];
    DecimalDigit(1);
    FlatText(text);
    assert d == [49] + ([NEWLINE] + (text + [NEWLINE])) && d[0..12] == d;
    LineLost(d, 0, 1, text);
    EntriesStep(d, 12);
  }

  lemma DecimalDigit(v: nat)
    requires v < 10
    ensures Decimal(v) == [48 + v]
  {
  }

  lemma FlatText(text: seq<Byte>)
    requires text == [50, 46, 50, 46, 50, 46, 50, 32, 97]
    ensures Flat(text)
  {
  }

  lemma {:induction false} AddressJoined(d: Data)
    requires d == [49, 46, 50, 46, 51, 46, 10, 52, 32, 120, 10]
    ensures Octets(d, 0, 0, 0) == Address(4, 0x01020304, 8)
  {
    hide ReadByte, Octets;
    OneDigit(d, 0, 1);
    OneDigit(d, 2, 2);
    OneDigit(d, 4, 3);
    OneDigit(d, 7, 4);
    NumberBelow(d, 6, 6);
    OctetsNext(d, 0, 0, 0, 1, 1);
    OctetsNext(d, 2, 1, 1, 2, 3);
    OctetsNext(d, 4, 2, 0x0102, 3, 5);
    OctetsLast(d, 6, 0x010203, 4, 8);
  }

  /** "1.2.3.\n4 x\n": the fourth number is found on the second line, and x gets the address 1.2.3.4. */
  lemma {:induction false} LinesJoined(d: Data)
    requires d == [49, 46, 50, 46, 51, 46, 10, 52, 32, 120, 10]
    ensures Entries(d, 0) == [Host(0x01020304, [120])]
  {
    hide ReadByte, Octets, Words, SkipSpc, SkipToEoln, Entries, SkipSpaces, Line;
    AddressJoined(d);
    NothingSkipped(d, 0);
    var words := [Word([SPACE], [120])];
    assert words[1..] == [] && WordsText([]) == [] && WordsText(words) + [] == [SPACE, 120];
    assert d[8..10] == [SPACE, 120];
    WordsRead(d, 8, 0x01020304, words, []);
    assert Kept(0x01020304, words) == [Host(0x01020304, [120])] + Kept(0x01020304, []);
    LineIs(d, 0, 0x01020304, 8, 0);
    EolnAt(d, 10);
    EntriesStep(d, 0);
    EntriesStep(d, 11);
  }

  lemma {:induction false} OneDigit(d: Data, i: nat, v: nat)
    requires v < 10 && i < |d| && d[i] == 48 + v && !IsDigit(At(d, i + 1))
    ensures ReadByte(d, i) == Some((v, i + 1))
  {
    hide ReadByte;
    assert Decimal(v) == [48 + v] && d[i..i + 1] == [48 + v];
    ByteRead(d, i, v);
  }
}

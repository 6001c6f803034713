/** Searches in a table filled from a file: at the sizes up to SAFE every search for an ASCII name stays
    in the table, and at the larger ones there are files and names for which it does not. */
module ResolverSearch {
  import opened Bits
  import opened Wrappers
  import opened ResolverTable
  import opened Resolver
  import opened ResolverText
  import opened ResolverBuffer

  /** The k-th place that the search for a name looks at, if it comes that far. */
  function Visited(t: Slots, name: seq<Byte>, k: nat): Option<int>
    requires |t| > 2
  {
    if k == 0 then Some(Hash(name, 17, |t|))
    else
      match Visited(t, name, k - 1)
      case None => None
      case Some(h) =>
        if 0 <= h < |t| && t[h].Some? && t[h].value.name != name
        then Some(Advance(h, Hash(name, 239, |t| - 1) + 1, |t|)) else None
  }

  ghost predicate SearchStays(t: Slots, name: seq<Byte>)
    requires |t| > 2
  {
    forall k: nat :: Visited(t, name, k).Some? ==> 0 <= Visited(t, name, k).value < |t|
  }

  /** A name in range is sought along its slots. */
  lemma {:induction false} VisitedIs(t: Slots, name: seq<Byte>, k: nat)
    requires Size(|t|) && InRange(name, |t|)
    ensures Visited(t, name, k).Some? ==> Visited(t, name, k).value == Slot(name, |t|, k)
  {
    hide Hash, InRange, Probe;
    if k == 0 {
      ProbeZero(Start(name, |t|), Step(name, |t|), |t|);
    } else {
      VisitedIs(t, name, k - 1);
      ProbeNext(Start(name, |t|), Step(name, |t|), |t|, k - 1);
    }
  }

  lemma {:induction false} InRangeStays(t: Slots, name: seq<Byte>)
    requires Size(|t|) && InRange(name, |t|)
    ensures SearchStays(t, name)
  {
    hide Visited, Slot, InRange;
    forall k: nat | Visited(t, name, k).Some? ensures 0 <= Visited(t, name, k).value < |t| {
      VisitedIs(t, name, k);
    }
  }

  // ----- searches that leave the table -----

  /** Two names that lead to one place of a table of size p; the first is in range, and the step of
      the second leads from there to a negative place. */
  predicate Astray(p: nat, stored: seq<Byte>, sought: seq<Byte>)
    requires p > 2
  {
    && Ascii(stored) && 1 < |stored| < 128 && InRange(stored, p)
    && (forall k :: 0 <= k < |stored| ==> InWord(stored[k]))
    && Ascii(sought) && |sought| < 128 && !InRange(sought, p)
    && Hash(sought, 17, p) == Hash(stored, 17, p) != 97
    && Advance(Hash(sought, 17, p), Hash(sought, 239, p - 1) + 1, p) < 0
  }

  lemma {:induction false} AstrayAt(p: nat) returns (stored: seq<Byte>, sought: seq<Byte>)
    requires p == 11057357 || p == 16586039 || p == 24879017
    ensures Astray(p, stored, sought)
  {
    hide Hash;
    if p == 11057357 {
      stored, sought := DXSUMQ, CSAAA;
      DxsumqStart();
      DxsumqStep();
      CsaaaStart();
      CsaaaStep();
    } else if p == 16586039 {
      stored, sought := BRRAV, CBAAV;
      BrravStart();
      BrravStep();
      CbaavStart();
      CbaavStep();
    } else {
      stored, sought := BAACZ, ARACZ;
      BaaczStart();
      BaaczStep();
      AraczStart();
      AraczStep();
    }
  }

  /** The place of a name that is in the table is taken. */
  lemma {:induction false} StartTaken(t: Slots, entries: seq<Host>, name: seq<Byte>)
    requires Filled(t, entries) && InRange(name, |t|) && exists e :: 0 <= e < |entries| && entries[e].name == name
    ensures t[Start(name, |t|)].Some?
  {
    hide InRange, FirstOf, Start, Step, Probe;
    var e :| 0 <= e < |entries| && entries[e].name == name;
    var i :| 0 <= i < |t| && t[i].Some? && t[i].value.name == entries[e].name;
    assert Reached(t, i);
    var k: nat :| Slot(t[i].value.name, |t|, k) == i && Passed(t, t[i].value.name, k);
    ProbeZero(Start(name, |t|), Step(name, |t|), |t|);
    assert Slot(name, |t|, 0) == Start(name, |t|);
  }

  /** In every table that holds the first of two such names, the search for the second leaves it. */
  lemma {:induction false} SearchLeavesTable(t: Slots, entries: seq<Host>, stored: seq<Byte>, sought: seq<Byte>)
    requires Filled(t, entries) && |t| > 2 && Astray(|t|, stored, sought)
    requires exists e :: 0 <= e < |entries| && entries[e].name == stored
    ensures !SearchStays(t, sought)
  {
    StartTaken(t, entries, stored);
    var h := Start(stored, |t|);
    assert InRange(t[h].value.name, |t|);
    hide Hash, Filled;
    assert Visited(t, sought, 0) == Some(h);
    assert Visited(t, sought, 1) == Some(Advance(h, Hash(sought, 239, |t| - 1) + 1, |t|));
  }

  // ----- a file for each of the three sizes -----

  const A: seq<Byte> := [97]

  lemma {:induction false} LetterHash(factor: int, m: nat)
    requires m > 97
    ensures Hash(A, factor, m) == 97
  {
    hide Hash, Next;
    NextIs(0, 97, factor, m, 0, 0, 97);
    HashTrace(A, factor, m, [97]);
  }

  lemma {:induction false} LetterInRange(p: nat)
    requires p > 98
    ensures InRange(A, p) && Hash(A, 17, p) == 97
  {
    hide Hash;
    LetterHash(17, p);
    LetterHash(239, p - 1);
  }

  const IP := 0x01010101

  function Letters(n: nat): (words: seq<Word>)
    ensures |words| == n && forall k :: 0 <= k < n ==> words[k] == Word([SPACE], A)
  {
    seq(n, _ => Word([SPACE], A))
  }

  /** One line: the address 1.1.1.1, a name, and the name "a" n times. */
  function Crowd(name: seq<Byte>, n: nat): TextLine {
    Hosts([], IP, [Word([SPACE], name)] + Letters(n), [])
  }

  function Entered(name: seq<Byte>, n: nat): seq<Host> {
    [Host(IP, name)] + seq(n, _ => Host(IP, A))
  }

  lemma {:induction false} LettersKept(words: seq<Word>)
    requires forall k :: 0 <= k < |words| ==> words[k] == Word([SPACE], A)
    ensures Kept(IP, words) == seq(|words|, _ => Host(IP, A))
    ensures |WordsText(words)| == 2 * |words| && Ascii(WordsText(words))
  {
    if words != [] {
      LettersKept(words[1..]);
    }
  }

  lemma {:induction false} CrowdText(name: seq<Byte>, n: nat)
    requires Ascii(name) && 0 < |name| < 128
    ensures var words := Crowd(name, n).words;
            && Kept(IP, words) == Entered(name, n)
            && |WordsText(words)| == 1 + |name| + 2 * n && Ascii(WordsText(words))
  {
    var words := Crowd(name, n).words;
    assert words[1..] == Letters(n);
    LettersKept(Letters(n));
  }

  lemma DottedOnes()
    ensures Dotted(IP, 0) == [49, 46, 49, 46, 49, 46, 49]
  {
    assert Drop(IP, 1) == 0x010101 && Drop(IP, 2) == 0x0101 && Drop(IP, 3) == 1;
    assert Octet(IP, 0) == 1 && Octet(IP, 1) == 1 && Octet(IP, 2) == 1 && Octet(IP, 3) == 1;
    hide Octet;
    assert Dotted(IP, 3) == [49];
    assert Dotted(IP, 2) == [49, 46, 49];
    assert Dotted(IP, 1) == [49, 46, 49, 46, 49];
  }

  lemma {:induction false} CrowdProper(name: seq<Byte>, n: nat)
    requires name != [] && forall k :: 0 <= k < |name| ==> InWord(name[k])
    ensures Proper(Crowd(name, n))
  {
    var words := Crowd(name, n).words;
    forall k | 0 <= k < |words| ensures ProperWord(words[k]) {
      if k > 0 {
        assert words[k] == Letters(n)[k - 1];
      }
    }
  }

  lemma {:induction false} CrowdWritten(name: seq<Byte>, n: nat)
    requires Ascii(name) && 0 < |name| < 128
    ensures var d := WrittenAll([Crowd(name, n)]); Ascii(d) && |d| == |name| + 2 * n + 9
  {
    var l := Crowd(name, n);
    CrowdText(name, n);
    DottedOnes();
    assert Ascii(Dotted(IP, 0)) && Ascii([NEWLINE]);
    OneLine(l);
    hide WrittenAll, WordsText, Dotted, Kept, Ascii;
    var text := WordsText(l.words);
    assert Written(l) == Dotted(IP, 0) + text + [NEWLINE];
    AsciiJoined(Dotted(IP, 0), text);
    AsciiJoined(Dotted(IP, 0) + text, [NEWLINE]);
  }

  lemma AsciiJoined(a: seq<Byte>, b: seq<Byte>)
    requires Ascii(a) && Ascii(b)
    ensures Ascii(a + b)
  {
  }

  lemma OneLine(l: TextLine)
    ensures WrittenAll([l]) == Written(l) && AllEntries([l]) == LineEntries(l)
  {
    hide Written, LineEntries;
    assert WrittenAll([l]) == Written(l) + WrittenAll([]);
    assert AllEntries([l]) == LineEntries(l) + AllEntries([]);
  }

  /** The file, its length and its entries. */
  lemma {:induction false} CrowdRead(name: seq<Byte>, n: nat)
    requires Ascii(name) && 0 < |name| < 128 && forall k :: 0 <= k < |name| ==> InWord(name[k])
    ensures var d := WrittenAll([Crowd(name, n)]); Stays(d, 0) && Entries(d, 0) == Entered(name, n)
  {
    var l := Crowd(name, n);
    CrowdText(name, n);
    CrowdProper(name, n);
    hide Entries, Stays, Kept, WordsText, Proper, WrittenAll, AllEntries;
    WrittenStays([l]);
    EntriesRead([l]);
    OneLine(l);
  }

  /** Storing a name whose first slot is free. */
  lemma {:induction false} StoredFirst(t: Slots, entries: seq<Host>, h: Host) returns (u: Slots)
    requires Filled(t, entries) && InRange(h.name, |t|) && FirstOf(entries, h.name) == None
    requires t[Start(h.name, |t|)] == None
    ensures u == t[Start(h.name, |t|) := Some(h)] && Filled(u, entries + [h])
  {
    FilledSize(t, entries);
    hide Filled, InRange, FirstOf, Start, Step, Probe;
    ProbeZero(Start(h.name, |t|), Step(h.name, |t|), |t|);
    assert Slot(h.name, |t|, 0) == Start(h.name, |t|);
    Stored(t, entries, h, 0);
    u := t[Start(h.name, |t|) := Some(h)];
  }

  lemma {:induction false} TwoFill(name: seq<Byte>, p: nat) returns (t: Slots)
    requires Size(p) && p > 98 && InRange(name, p) && Hash(name, 17, p) != 97 && |name| > 1
    ensures |t| == p && Filled(t, [Host(IP, name)] + [Host(IP, A)])
  {
    EmptyFilled(p);
    LetterInRange(p);
    hide Filled, Hash, InRange;
    t := seq(p, _ => None);
    t := StoredFirst(t, [], Host(IP, name));
    assert [] + [Host(IP, name)] == [Host(IP, name)];
    t := StoredFirst(t, [Host(IP, name)], Host(IP, A));
  }

  /** A table that holds these entries. */
  lemma {:induction false} CrowdFills(name: seq<Byte>, n: nat, p: nat) returns (t: Slots)
    requires Size(p) && p > 98 && InRange(name, p) && Hash(name, 17, p) != 97 && |name| > 1 && n > 0
    ensures |t| == p && Filled(t, Entered(name, n))
  {
    hide Filled, Hash, InRange, Size;
    if n == 1 {
      t := TwoFill(name, p);
      assert Entered(name, 1) == [Host(IP, name)] + [Host(IP, A)];
    } else {
      t := CrowdFills(name, n - 1, p);
      assert Entered(name, n) == Entered(name, n - 1) + [Host(IP, A)];
      assert Entered(name, n - 1)[1] == Host(IP, A);
      RepeatedEntry(t, Entered(name, n - 1), 1);
    }
  }

  lemma {:induction false} RepeatedEntry(t: Slots, entries: seq<Host>, e: nat)
    requires Filled(t, entries) && e < |entries|
    ensures Filled(t, entries + [entries[e]])
  {
    var i :| 0 <= i < |t| && t[i].Some? && t[i].value.name == entries[e].name;
    hide Filled;
    Repeated(t, entries, entries[e], i);
  }

  // ----- the theorem -----

  /** A table as it is left by the loading of a file. */
  ghost predicate LoadedFrom(t: Slots, d: Data) {
    && |d| < MAX_HOSTS_SIZE && Stays(d, 0) && |t| == SizeOf(d) && AllInRange(Entries(d, 0), |t|)
    && Filled(t, Entries(d, 0))
  }

  /** How many names make the table this large. */
  function Needed(p: nat): (n: nat)
    requires p == 11057357 || p == 16586039 || p == 24879017
  {
    if p == 11057357 then 3685785 else if p == 16586039 then 5528678 else 8293019
  }

  lemma {:induction false} NeededIs(p: nat)
    requires p == 11057357 || p == 16586039 || p == 24879017
    ensures SizeFor(SIZES, Needed(p) + 1) == Some(p)
  {
    hide SizeFor;
    var i := if p == 11057357 then 32 else if p == 16586039 then 33 else 34;
    FirstIsSize(SIZES, Needed(p) + 1, i);
  }

  lemma {:induction false} EnteredInRange(name: seq<Byte>, n: nat, p: nat)
    requires p > 98 && InRange(name, p)
    ensures AllInRange(Entered(name, n), p)
  {
    LetterInRange(p);
    hide InRange;
  }

  lemma {:induction false} LeavesAt(p: nat) returns (d: Data, t: Slots, sought: seq<Byte>)
    requires p == 11057357 || p == 16586039 || p == 24879017
    ensures LoadedFrom(t, d) && |t| == p && Ascii(d) && Ascii(sought) && |sought| < 128 && !SearchStays(t, sought)
  {
    var stored;
    stored, sought := AstrayAt(p);
    var n := Needed(p);
    d := WrittenAll([Crowd(stored, n)]);
    CrowdWritten(stored, n);
    CrowdRead(stored, n);
    NeededIs(p);
    EnteredInRange(stored, n, p);
    hide WrittenAll, Crowd, Entries, Stays, SizeFor, SIZES, InRange, AllInRange, Filled, SearchStays, Size, Hash;
    assert |Entered(stored, n)| == n + 1 && SizeOf(d) == p;
    t := CrowdFills(stored, n, p);
    assert Entered(stored, n)[0].name == stored;
    SearchLeavesTable(t, Entered(stored, n), stored, sought);
  }

  /** For the sizes a file can lead to, every search for an ASCII name in every table loaded from an
      ASCII file stays in the table if and only if the size is at most SAFE. */
  lemma {:induction false} SearchesStayIff(p: nat)
    requires p in SIZES && 2 < p < 37318507
    ensures (forall d, t, name :: LoadedFrom(t, d) && |t| == p && Ascii(d) && Ascii(name) && |name| < 128 ==>
               SearchStays(t, name))
            <==> p <= SAFE
  {
    hide SIZES, SearchStays, Ascii, InRange, Filled, AllInRange, Entries, Stays;
    LargeSizes(p);
    if p <= SAFE {
      forall d, t, name | LoadedFrom(t, d) && |t| == p && Ascii(d) && Ascii(name) && |name| < 128
        ensures SearchStays(t, name)
      {
        AsciiInRange(name, p);
        InRangeStays(t, name);
      }
    } else {
      var d, t, sought := LeavesAt(p);
    }
  }
}

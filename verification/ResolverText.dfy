/** Hosts files written out: the parser of the file reads back every list of entries. */
module ResolverText {
  import opened Bits
  import opened Wrappers
  import opened ResolverTable
  import opened Resolver

  /** A number in decimal. */
  function Decimal(n: nat): (s: seq<Byte>)
    ensures s != [] && forall i :: 0 <= i < |s| ==> IsDigit(s[i])
  {
    if n < 10 then [48 + n] else Decimal(n / 10) + [48 + n % 10]
  }

  /** A word without its j lowest bytes. */
  function Drop(n: nat, j: nat): nat {
    if j == 0 then n else Drop(n, j - 1) / 256
  }

  function Octet(ip: nat, k: nat): (b: nat)
    requires k < 4
    ensures b < 256
  {
    Drop(ip, 3 - k) % 256
  }

  /** The numbers of an address from the k-th on, with dots between them. */
  function Dotted(ip: nat, k: nat): seq<Byte>
    requires k < 4
    decreases 4 - k
  {
    if k == 3 then Decimal(Octet(ip, 3)) else Decimal(Octet(ip, k)) + [DOT] + Dotted(ip, k + 1)
  }

  /** A line of a file: blanks only; a comment or anything else that does not begin like a number; or
      an address and names, each after blanks, with more blanks at the end. */
  datatype TextLine =
    | Empty(lead: seq<Byte>)
    | Other(lead: seq<Byte>, text: seq<Byte>)
    | Hosts(lead: seq<Byte>, ip: nat, words: seq<Word>, trail: seq<Byte>)

  datatype Word = Word(gap: seq<Byte>, name: seq<Byte>)

  predicate Blanks(s: seq<Byte>) {
    forall k :: 0 <= k < |s| ==> s[k] == 32 || s[k] == 9
  }

  /** Bytes of one line. */
  predicate Flat(s: seq<Byte>) {
    forall k :: 0 <= k < |s| ==> s[k] != 10 && s[k] != 0
  }

  predicate ProperWord(w: Word) {
    w.gap != [] && Blanks(w.gap) && w.name != [] && forall k :: 0 <= k < |w.name| ==> w.name[k] !in {0, 9, 10, 32}
  }

  predicate Proper(l: TextLine) {
    && Blanks(l.lead)
    && match l
       case Empty(_) => true
       case Other(_, text) => text != [] && Flat(text) && !NumberLike(text[0])
       case Hosts(_, ip, words, trail) =>
         ip < W32 && Blanks(trail) && forall k :: 0 <= k < |words| ==> ProperWord(words[k])
  }

  /** What a number may begin with, white space before it included. */
  predicate NumberLike(b: Byte) {
    48 <= b <= 57 || 9 <= b <= 13 || b == 32 || b == 43 || b == 45
  }

  function WordsText(words: seq<Word>): seq<Byte> {
    if words == [] then [] else words[0].gap + words[0].name + WordsText(words[1..])
  }

  function Body(l: TextLine): seq<Byte> {
    match l
    case Empty(lead) => lead
    case Other(lead, text) => lead + text
    case Hosts(lead, ip, words, trail) => lead + (Dotted(ip, 0) + (WordsText(words) + trail))
  }

  function Written(l: TextLine): seq<Byte> {
    Body(l) + [NEWLINE]
  }

  function WrittenAll(lines: seq<TextLine>): Data {
    if lines == [] then [] else Written(lines[0]) + WrittenAll(lines[1..])
  }

  /** The entries of a line: its names, without those of 128 bytes and more; none if the address is zero. */
  function LineEntries(l: TextLine): seq<Host> {
    if l.Hosts? && l.ip != 0 then Kept(l.ip, l.words) else []
  }

  function Kept(ip: nat, words: seq<Word>): seq<Host> {
    if words == [] then []
    else (if |words[0].name| < 128 then [Host(ip, words[0].name)] else []) + Kept(ip, words[1..])
  }

  function AllEntries(lines: seq<TextLine>): seq<Host> {
    if lines == [] then [] else LineEntries(lines[0]) + AllEntries(lines[1..])
  }

  /** s stands in d at i. */
  predicate Stands(d: Data, i: nat, s: seq<Byte>) {
    i + |s| <= |d| && d[i..i + |s|] == s
  }

  predicate AtNewline(d: Data, i: nat) {
    i < |d| && d[i] == NEWLINE
  }

  /** A line ends here, with a newline or with the text. */
  predicate Ended(d: Data, i: nat) {
    i <= |d| && (At(d, i) == 10 || At(d, i) == 0)
  }

  lemma {:induction false} StandsSplit(d: Data, i: nat, a: seq<Byte>, b: seq<Byte>)
    requires Stands(d, i, a + b)
    ensures Stands(d, i, a) && Stands(d, i + |a|, b)
  {
    assert (a + b)[..|a|] == a && (a + b)[|a|..] == b;
  }

  lemma {:induction false} StandsOne(d: Data, i: nat, b: Byte)
    requires Stands(d, i, [b])
    ensures At(d, i) == b
  {
    assert d[i..i + 1][0] == b;
  }

  lemma {:induction false} NewlineStands(d: Data, i: nat)
    requires Stands(d, i, [NEWLINE])
    ensures AtNewline(d, i) && At(d, i) == NEWLINE
  {
    StandsOne(d, i, NEWLINE);
  }

  lemma {:induction false} StandsAt(d: Data, i: nat, s: seq<Byte>, k: nat)
    requires Stands(d, i, s) && k < |s|
    ensures At(d, i + k) == s[k]
  {
    assert d[i..i + |s|][k] == s[k];
  }

  // ----- numbers -----

  /** The value of digits read after a value. */
  function Value(s: seq<Byte>, v: nat): nat
    requires forall i :: 0 <= i < |s| ==> IsDigit(s[i])
  {
    if s == [] then v
    else
      assert IsDigit(s[|s| - 1]);
      10 * Value(s[..|s| - 1], v) + (s[|s| - 1] - 48)
  }

  lemma {:induction false} DecimalValue(n: nat)
    ensures Value(Decimal(n), 0) == n
  {
    var s := Decimal(n);
    if n >= 10 {
      DecimalValue(n / 10);
      assert s[..|s| - 1] == Decimal(n / 10);
    } else {
      assert s[..0] == [];
    }
  }

  /** Reading one digit first, then the others. */
  lemma {:induction false} ValueFirst(s: seq<Byte>, v: nat)
    requires s != [] && forall i :: 0 <= i < |s| ==> IsDigit(s[i])
    ensures Value(s, v) == Value(s[1..], 10 * v + s[0] - 48)
  {
    if |s| == 1 {
      assert s[..0] == [] && s[1..] == [];
    } else {
      var t := s[..|s| - 1];
      ValueFirst(t, v);
      assert s[1..][..|s| - 2] == t[1..];
    }
  }

  lemma {:induction false} DigitsRead(d: Data, i: nat, s: seq<Byte>, v: nat)
    requires (forall k :: 0 <= k < |s| ==> IsDigit(s[k])) && Stands(d, i, s) && !IsDigit(At(d, i + |s|))
    ensures Digits(d, i, v) == (Value(s, v), i + |s|)
    decreases |s|
  {
    if s != [] {
      ValueFirst(s, v);
      StandsAt(d, i, s, 0);
      assert s == [s[0]] + s[1..];
      StandsSplit(d, i, [s[0]], s[1..]);
      DigitsRead(d, i + 1, s[1..], 10 * v + s[0] - 48);
    }
  }

  lemma {:induction false} ByteRead(d: Data, i: nat, n: nat)
    requires n < 256 && Stands(d, i, Decimal(n)) && !IsDigit(At(d, i + |Decimal(n)|))
    ensures ReadByte(d, i) == Some((n, i + |Decimal(n)|))
  {
    var s := Decimal(n);
    StandsAt(d, i, s, 0);
    assert IsDigit(At(d, i));
    hide Digits;
    DigitsRead(d, i, s, 0);
    DecimalValue(n);
  }

  // ----- addresses and lines -----

  /** The part of an address that the first k numbers give. */
  function Read(ip: nat, k: nat): nat
    requires k <= 4
  {
    if k == 0 then 0 else (Read(ip, k - 1) * 256 + Octet(ip, k - 1)) % W32
  }

  lemma {:induction false} ReadIs(ip: nat, k: nat)
    requires ip < W32 && k <= 4
    ensures Read(ip, k) == Drop(ip, 4 - k)
  {
    if k == 0 {
      DropAll(ip);
    } else {
      ReadIs(ip, k - 1);
      DropBound(ip, 4 - k);
      Quarter(Drop(ip, 4 - k), Drop(ip, 5 - k));
    }
  }

  lemma {:induction false} DropBound(n: nat, j: nat)
    ensures Drop(n, j) <= n
  {
    if j > 0 {
      DropBound(n, j - 1);
    }
  }

  lemma {:induction false} DropAll(n: nat)
    requires n < W32
    ensures Drop(n, 4) == 0
  {
    assert Drop(n, 1) < 16777216;
    assert Drop(n, 2) < 65536;
    assert Drop(n, 3) < 256;
  }

  lemma {:induction false} ReadAll(ip: nat)
    requires ip < W32
    ensures Read(ip, 4) == ip
  {
    ReadIs(ip, 4);
  }

  /** One more number behind those read. */
  lemma Quarter(n: nat, before: nat)
    requires n < W32 && before == n / 256
    ensures (before * 256 + n % 256) % W32 == n
  {
  }

  lemma {:induction false} OctetsRead(d: Data, i: nat, ip: nat, k: nat)
    requires k < 4 && Stands(d, i, Dotted(ip, k)) && !IsDigit(At(d, i + |Dotted(ip, k)|))
    ensures Octets(d, i, k, Read(ip, k)) == Address(4, Read(ip, 4), i + |Dotted(ip, k)|)
    decreases 4 - k
  {
    hide ReadByte, Octet, Decimal, Octets, Read, Stands, At;
    var s := Decimal(Octet(ip, k));
    ReadNext(ip, k);
    if k == 3 {
      ByteRead(d, i, Octet(ip, 3));
      OctetsLast(d, i, Read(ip, 3), Octet(ip, 3), i + |s|);
    } else {
      StandsSplit(d, i, s + [DOT], Dotted(ip, k + 1));
      StandsSplit(d, i, s, [DOT]);
      StandsOne(d, i + |s|, DOT);
      ByteRead(d, i, Octet(ip, k));
      OctetsNext(d, i, k, Read(ip, k), Octet(ip, k), i + |s|);
      OctetsRead(d, i + |s| + 1, ip, k + 1);
    }
  }

  lemma ReadNext(ip: nat, k: nat)
    requires k < 4
    ensures Read(ip, k + 1) == (Read(ip, k) * 256 + Octet(ip, k)) % W32
  {
  }

  lemma {:induction false} OctetsLast(d: Data, i: nat, ip: nat, v: nat, e: nat)
    requires i <= |d| && ReadByte(d, i) == Some((v, e))
    ensures Octets(d, i, 3, ip) == Address(4, (ip * 256 + v) % W32, e)
  {
    hide ReadByte;
    assert Octets(d, e, 4, (ip * 256 + v) % W32) == Address(4, (ip * 256 + v) % W32, e);
  }

  lemma {:induction false} OctetsNext(d: Data, i: nat, k: nat, ip: nat, v: nat, e: nat)
    requires k < 3 && i <= |d| && ReadByte(d, i) == Some((v, e)) && At(d, e) == DOT
    ensures Octets(d, i, k, ip) == Octets(d, e + 1, k + 1, (ip * 256 + v) % W32)
  {
    hide ReadByte;
  }

  lemma {:induction false} WordRead(d: Data, i: nat, name: seq<Byte>)
    requires (forall k :: 0 <= k < |name| ==> InWord(name[k])) && Stands(d, i, name) && !InWord(At(d, i + |name|))
    ensures WordEnd(d, i) == i + |name|
    decreases |name|
  {
    if name != [] {
      StandsAt(d, i, name, 0);
      assert name == [name[0]] + name[1..];
      StandsSplit(d, i, [name[0]], name[1..]);
      WordRead(d, i + 1, name[1..]);
    }
  }

  lemma {:induction false} BlanksRead(d: Data, i: nat, s: seq<Byte>)
    requires Blanks(s) && Stands(d, i, s) && At(d, i + |s|) != SPACE && At(d, i + |s|) != TAB
    ensures SkipSpc(d, i) == i + |s|
    decreases |s|
  {
    if s != [] {
      StandsAt(d, i, s, 0);
      assert s == [s[0]] + s[1..];
      StandsSplit(d, i, [s[0]], s[1..]);
      BlanksRead(d, i + 1, s[1..]);
    }
  }

  lemma {:induction false} EolnRead(d: Data, i: nat, s: seq<Byte>)
    requires Flat(s) && Stands(d, i, s) && AtNewline(d, i + |s|)
    ensures SkipToEoln(d, i) == i + |s| + 1
    decreases |s|
  {
    if s != [] {
      StandsAt(d, i, s, 0);
      assert s == [s[0]] + s[1..];
      StandsSplit(d, i, [s[0]], s[1..]);
      EolnRead(d, i + 1, s[1..]);
    }
  }

  /** What follows a word is not part of it. */
  lemma {:induction false} AfterWord(d: Data, i: nat, words: seq<Word>, trail: seq<Byte>)
    requires (forall k :: 0 <= k < |words| ==> ProperWord(words[k])) && Blanks(trail)
    requires Stands(d, i, WordsText(words) + trail) && Ended(d, i + |WordsText(words) + trail|)
    ensures i <= |d| && (At(d, i) == SPACE || At(d, i) == TAB || At(d, i) == At(d, i + |WordsText(words) + trail|))
    ensures !InWord(At(d, i))
  {
    var s := WordsText(words) + trail;
    if words != [] {
      assert ProperWord(words[0]);
      assert s[0] == words[0].gap[0];
    }
    if s != [] {
      StandsAt(d, i, s, 0);
    }
  }

  /** Any number of names after blanks, and the end of the line. */
  lemma {:induction false} WordsRead(d: Data, i: nat, ip: nat, words: seq<Word>, trail: seq<Byte>)
    requires (forall k :: 0 <= k < |words| ==> ProperWord(words[k])) && Blanks(trail)
    requires Stands(d, i, WordsText(words) + trail) && Ended(d, i + |WordsText(words) + trail|)
    ensures Words(d, i, ip) == (Kept(ip, words), i + |WordsText(words) + trail|)
    decreases |words|
  {
    hide Words, WordsText, Kept, Stands, At;
    if words == [] {
      NoWords(ip);
      LastBlanksRead(d, i, ip, trail);
    } else {
      var w, more := words[0], WordsText(words[1..]) + trail;
      var start, end := i + |w.gap|, i + |w.gap| + |w.name|;
      assert ProperWord(w);
      WordsSplit(words, trail);
      StandsSplit(d, i, w.gap + w.name, more);
      StandsSplit(d, i, w.gap, w.name);
      WordsRead(d, end, ip, words[1..], trail);
      AfterWord(d, end, words[1..], trail);
      OneWordRead(d, i, ip, w);
      KeptFirst(ip, words);
    }
  }

  lemma NoWords(ip: nat)
    ensures WordsText([]) == [] && Kept(ip, []) == []
  {
  }

  lemma KeptFirst(ip: nat, words: seq<Word>)
    requires words != []
    ensures Kept(ip, words) == (if |words[0].name| < 128 then [Host(ip, words[0].name)] else []) + Kept(ip, words[1..])
  {
  }

  lemma WordsSplit(words: seq<Word>, trail: seq<Byte>)
    requires words != []
    ensures WordsText(words) + trail == words[0].gap + words[0].name + (WordsText(words[1..]) + trail)
  {
  }

  lemma {:induction false} LastBlanksRead(d: Data, i: nat, ip: nat, trail: seq<Byte>)
    requires Blanks(trail) && Stands(d, i, [] + trail) && Ended(d, i + |trail|)
    ensures Words(d, i, ip) == ([], i + |trail|)
  {
    assert [] + trail == trail;
    BlanksRead(d, i, trail);
    WordsStep(d, i, ip);
  }

  lemma {:induction false} OneWordRead(d: Data, i: nat, ip: nat, w: Word)
    requires ProperWord(w) && Stands(d, i, w.gap) && Stands(d, i + |w.gap|, w.name)
    requires !InWord(At(d, i + |w.gap| + |w.name|))
    ensures var end := i + |w.gap| + |w.name|;
            && Words(d, i, ip).1 == Words(d, end, ip).1
            && Words(d, i, ip).0 == (if |w.name| < 128 then [Host(ip, w.name)] else []) + Words(d, end, ip).0
  {
    hide SkipSpc, WordEnd, Words, At, Blanks;
    var start, end := i + |w.gap|, i + |w.gap| + |w.name|;
    StandsAt(d, start, w.name, 0);
    BlanksRead(d, i, w.gap);
    WordRead(d, start, w.name);
    WordsStep(d, i, ip);
    assert d[start..end] == w.name;
  }

  lemma {:induction false} FirstIsDigit(d: Data, i: nat, ip: nat)
    requires Stands(d, i, Dotted(ip, 0))
    ensures IsDigit(At(d, i))
  {
    var s := Decimal(Octet(ip, 0));
    StandsSplit(d, i, s + [DOT], Dotted(ip, 1));
    StandsSplit(d, i, s, [DOT]);
    hide Dotted, Octet, Decimal;
    StandsAt(d, i, s, 0);
  }

  lemma NoBlanks(d: Data, i: nat)
    requires i <= |d| && IsDigit(At(d, i))
    ensures At(d, i) != SPACE && At(d, i) != TAB && At(d, i) != 0
  {
  }

  lemma ReadNone(ip: nat)
    ensures Read(ip, 0) == 0
  {
  }

  lemma {:induction false} WordsFlat(words: seq<Word>, trail: seq<Byte>)
    requires (forall k :: 0 <= k < |words| ==> ProperWord(words[k])) && Blanks(trail)
    ensures Flat(WordsText(words) + trail)
    decreases |words|
  {
    if words != [] {
      WordsFlat(words[1..], trail);
      WordsSplit(words, trail);
      assert ProperWord(words[0]);
      hide WordsText;
      FlatJoin(words[0].gap, words[0].name);
      FlatJoin(words[0].gap + words[0].name, WordsText(words[1..]) + trail);
    }
  }

  lemma FlatJoin(a: seq<Byte>, b: seq<Byte>)
    requires Flat(a) && Flat(b)
    ensures Flat(a + b)
  {
  }

  /** The line at i gives these names, and the next line begins at next. */
  predicate LineGives(d: Data, i: nat, hosts: seq<Host>, next: nat) {
    && i <= |d| && At(d, i) != 0
    && Line(d, i).0 == hosts && Line(d, i).1 <= |d| && SkipToEoln(d, Line(d, i).1) == next
  }

  /** A written line with an address gives its entries, and the next line begins right after it. */
  lemma {:induction false} LineRead(d: Data, i: nat, l: TextLine)
    requires l.Hosts? && Proper(l) && Stands(d, i, Written(l))
    ensures LineGives(d, i, LineEntries(l), i + |Written(l)|)
  {
    hide Dotted, WordsText, Octets, SkipSpc, Stands, At, Flat, Blanks, ProperWord, AtNewline, LineGives, Kept, IsDigit,
         Ended, InWord;
    var tail := WordsText(l.words) + l.trail;
    var start := i + |l.lead|;
    var e := start + |Dotted(l.ip, 0)|;
    StandsSplit(d, i, Body(l), [NEWLINE]);
    StandsSplit(d, i, l.lead, Dotted(l.ip, 0) + tail);
    StandsSplit(d, start, Dotted(l.ip, 0), tail);
    NewlineStands(d, e + |tail|);
    FirstIsDigit(d, start, l.ip);
    NoBlanks(d, start);
    BlanksRead(d, i, l.lead);
    FirstNotZero(d, i, l.lead);
    NewlineEnds(d, e + |tail|);
    AfterWord(d, e, l.words, l.trail);
    NotDigit(d, e);
    OctetsRead(d, start, l.ip, 0);
    ReadAll(l.ip);
    ReadNone(l.ip);
    AddressRead(d, i, l, start, e);
  }

  lemma NewlineEnds(d: Data, i: nat)
    requires AtNewline(d, i)
    ensures Ended(d, i) && At(d, i) == NEWLINE
  {
  }

  lemma NotDigit(d: Data, i: nat)
    requires i <= |d| && (At(d, i) == SPACE || At(d, i) == TAB || At(d, i) == NEWLINE)
    ensures !IsDigit(At(d, i))
  {
  }

  /** What is read after the address. */
  lemma {:induction false} AddressRead(d: Data, i: nat, l: TextLine, start: nat, e: nat)
    requires l.Hosts? && Proper(l) && i <= |d| && At(d, i) != 0
    requires SkipSpc(d, i) == start && Octets(d, start, 0, 0) == Address(4, l.ip, e)
    requires var tail := WordsText(l.words) + l.trail; Stands(d, e, tail) && AtNewline(d, e + |tail|)
    requires At(d, e) == SPACE || At(d, e) == TAB || At(d, e) == NEWLINE
    ensures LineGives(d, i, LineEntries(l), e + |WordsText(l.words) + l.trail| + 1)
  {
    hide WordsText, Words, Octets, SkipSpc, SkipToEoln, Kept, At, Stands, Flat, Blanks, ProperWord;
    var tail := WordsText(l.words) + l.trail;
    NewlineEnds(d, e + |tail|);
    WordsRead(d, e, l.ip, l.words, l.trail);
    WordsFlat(l.words, l.trail);
    EolnRead(d, e, tail);
    EolnAt(d, e + |tail|);
    LineIs(d, i, l.ip, e, start);
    if At(d, e) == NEWLINE {
      NoTail(d, e, tail, l.ip, l.words);
    }
  }

  lemma {:induction false} FirstNotZero(d: Data, i: nat, lead: seq<Byte>)
    requires Blanks(lead) && Stands(d, i, lead) && At(d, i + |lead|) != 0
    ensures At(d, i) != 0
  {
    if lead != [] {
      StandsAt(d, i, lead, 0);
    }
  }

  /** A line that ends right after its address has no names. */
  lemma {:induction false} NoTail(d: Data, e: nat, tail: seq<Byte>, ip: nat, words: seq<Word>)
    requires Flat(tail) && Stands(d, e, tail) && At(d, e) == NEWLINE && Words(d, e, ip).0 == Kept(ip, words)
    ensures tail == [] && Kept(ip, words) == []
  {
    if tail != [] {
      StandsAt(d, e, tail, 0);
    }
    WordsStep(d, e, ip);
  }

  lemma EolnAt(d: Data, i: nat)
    requires AtNewline(d, i)
    ensures SkipToEoln(d, i) == i + 1
  {
  }

  lemma LineIs(d: Data, i: nat, ip: nat, e: nat, start: nat)
    requires i <= |d| && SkipSpc(d, i) == start && Octets(d, start, 0, 0) == Address(4, ip, e)
    ensures Line(d, i) == if (At(d, e) == SPACE || At(d, e) == TAB) && ip != 0 then Words(d, e, ip) else ([], e)
  {
    hide Octets, Words, SkipSpc, At;
  }

  /** A line that does not begin like a number is passed over. */
  lemma {:induction false} OtherRead(d: Data, i: nat, l: TextLine)
    requires l.Other? && Proper(l) && Stands(d, i, Written(l))
    ensures LineGives(d, i, [], i + |Written(l)|)
  {
    hide SkipSpc, SkipToEoln, ReadByte, Octets, Line, Stands, At, Blanks, AtNewline;
    var start := i + |l.lead|;
    StandsSplit(d, i, l.lead + l.text, [NEWLINE]);
    StandsSplit(d, i, l.lead, l.text);
    NewlineStands(d, start + |l.text|);
    StandsAt(d, start, l.text, 0);
    BlanksRead(d, i, l.lead);
    FirstNotZero(d, i, l.lead);
    NoNumber(d, start);
    NothingRead(d, i, start);
    EolnRead(d, start, l.text);
  }

  lemma NothingRead(d: Data, i: nat, start: nat)
    requires i <= |d| && SkipSpc(d, i) == start && ReadByte(d, start) == None
    ensures Line(d, i) == ([], start)
  {
    hide SkipSpc, ReadByte, Words;
  }

  lemma {:induction false} NoNumber(d: Data, i: nat)
    requires i <= |d| && !NumberLike(At(d, i))
    ensures ReadByte(d, i) == None
  {
    assert SkipSpaces(d, i) == i && Digits(d, i, 0) == (0, i);
  }

  // ----- a line of blanks -----

  /** Numbers are sought past white space, new lines included. */
  lemma {:induction false} ReadPast(d: Data, i: nat, j: nat)
    requires i <= j <= |d| && SkipSpaces(d, i) == SkipSpaces(d, j)
    ensures ReadByte(d, i) == ReadByte(d, j)
  {
    hide SkipSpaces;
    SpacesForward(d, j);
  }

  lemma SpacesForward(d: Data, j: nat)
    requires j <= |d|
    ensures j <= SkipSpaces(d, j) && j <= Strtoul(d, j).1
  {
  }

  lemma {:induction false} SpacesOver(d: Data, i: nat)
    requires i <= |d|
    ensures SkipSpaces(d, i) == SkipSpaces(d, SkipSpc(d, i))
    decreases |d| - i
  {
    if At(d, i) == SPACE || At(d, i) == TAB {
      SpacesOver(d, i + 1);
    }
  }

  lemma SpacesOverNewline(d: Data, n: nat)
    requires n < |d| && At(d, n) == NEWLINE
    ensures SkipSpaces(d, n) == SkipSpaces(d, n + 1)
  {
  }

  /** An empty line changes nothing, although the search for a number on it goes on below it. */
  lemma {:induction false} EmptyRead(d: Data, i: nat, lead: seq<Byte>)
    requires Blanks(lead) && Stands(d, i, lead + [NEWLINE])
    ensures Entries(d, i) == Entries(d, i + |lead| + 1) && Stays(d, i) == Stays(d, i + |lead| + 1)
  {
    hide Entries, Stays, SkipSpc, SkipSpaces, ReadByte, Stands, At, Blanks;
    var n := i + |lead|;
    StandsSplit(d, i, lead, [NEWLINE]);
    StandsOne(d, n, NEWLINE);
    BlanksRead(d, i, lead);
    FirstNotZero(d, i, lead);
    var m := SkipSpc(d, n + 1);
    SpacesOver(d, n + 1);
    SpacesOverNewline(d, n);
    ReadPast(d, n, m);
    EmptyLine(d, i, n, m);
  }

  lemma {:induction false} EmptyLine(d: Data, i: nat, n: nat, m: nat)
    requires i <= |d| && SkipSpc(d, i) == n < |d| && At(d, i) != 0 && At(d, n) == NEWLINE
    requires m == SkipSpc(d, n + 1) && ReadByte(d, n) == ReadByte(d, m)
    ensures Entries(d, i) == Entries(d, n + 1) && Stays(d, i) == Stays(d, n + 1)
  {
    hide ReadByte, SkipSpc, SkipToEoln, Words;
    EolnAt(d, n);
    if ReadByte(d, n) == None {
      assert Octets(d, n, 0, 0) == Address(0, 0, n);
      assert Line(d, i) == ([], n);
    } else {
      assert Octets(d, n, 0, 0) == Octets(d, m, 0, 0);
      assert Line(d, i) == Line(d, n + 1);
      NumberNotZero(d, n + 1);
    }
    EntriesStep(d, i);
    EntriesStep(d, n + 1);
  }

  /** Where a number can be read, the text has not ended. */
  lemma {:induction false} NumberNotZero(d: Data, i: nat)
    requires i <= |d| && ReadByte(d, SkipSpc(d, i)) != None
    ensures At(d, i) != 0
  {
    if At(d, i) == 0 {
      NoNumber(d, i);
    }
  }

  // ----- whole files -----

  lemma {:induction false} EntriesReadAt(d: Data, i: nat, lines: seq<TextLine>)
    requires (forall k :: 0 <= k < |lines| ==> Proper(lines[k])) && Stands(d, i, WrittenAll(lines))
    requires i + |WrittenAll(lines)| == |d|
    ensures Entries(d, i) == AllEntries(lines)
    decreases |lines|
  {
    hide Line, SkipToEoln, Entries, LineEntries, Proper, Written, Stands;
    EntriesStep(d, i);
    if lines != [] {
      var l := lines[0];
      StandsSplit(d, i, Written(l), WrittenAll(lines[1..]));
      EntriesReadAt(d, i + |Written(l)|, lines[1..]);
      FirstRead(d, i, l);
    }
  }

  lemma {:induction false} FirstRead(d: Data, i: nat, l: TextLine)
    requires Proper(l) && Stands(d, i, Written(l))
    ensures Entries(d, i) == LineEntries(l) + Entries(d, i + |Written(l)|)
  {
    hide Line, SkipToEoln, Entries, Kept;
    EntriesStep(d, i);
    if l.Empty? {
      EmptyRead(d, i, l.lead);
    } else if l.Other? {
      OtherRead(d, i, l);
    } else {
      LineRead(d, i, l);
    }
  }

  /** The parser reads from a file the names of its lines, line by line and in their order. */
  lemma {:induction false} EntriesRead(lines: seq<TextLine>)
    requires forall k :: 0 <= k < |lines| ==> Proper(lines[k])
    ensures Entries(WrittenAll(lines), 0) == AllEntries(lines)
  {
    hide WrittenAll, Entries, Proper, AllEntries;
    var d := WrittenAll(lines);
    assert d[0..|d|] == d;
    EntriesReadAt(d, 0, lines);
  }
}

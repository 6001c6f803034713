/** When the scan of a hosts file stays in its buffer, the text and one zero byte. A number without its
    dot is passed with one more byte, and where the number ends the text that byte is the zero. */
module ResolverBuffer {
  import opened Bits
  import opened Wrappers
  import opened ResolverTable
  import opened Resolver
  import opened ResolverText
  import opened ResolverLines

  /** The k-th number of the line at i, one before the fourth, ends with the text. */
  predicate EndsText(d: Data, i: nat, k: nat)
    requires i <= |d|
  {
    && k < 3 && Place(d, i, k).Some?
    && var number := ReadByte(d, Place(d, i, k).value);
       number.Some? && number.value.1 == |d|
  }

  predicate EndsInNumber(d: Data, i: nat)
    requires i <= |d|
  {
    exists k :: 0 <= k < 3 && EndsText(d, i, k)
  }

  // ----- one line -----

  lemma {:induction false} NoPlaceAfter(d: Data, i: nat, k: nat, l: nat)
    requires i <= |d| && k <= l && Place(d, i, k) == None
    ensures Place(d, i, l) == None
    decreases l
  {
    hide AfterDot;
    if k < l {
      NoPlaceAfter(d, i, k, l - 1);
    }
  }

  lemma {:induction false} OctetsLeave(d: Data, i: nat, k: nat, ip: nat)
    requires i <= |d| && k < 4 && Place(d, i, k).Some?
    ensures Octets(d, Place(d, i, k).value, k, ip).next > |d| <==> exists l :: k <= l < 3 && EndsText(d, i, l)
    decreases 4 - k
  {
    hide ReadByte, Octets;
    var j := Place(d, i, k).value;
    OctetsStep(d, j, k, ip);
    assert Place(d, i, k + 1) == AfterDot(d, j);
    if Place(d, i, k + 1).Some? && k < 3 {
      var (v, e) := ReadByte(d, j).value;
      OctetsLeave(d, i, k + 1, (ip * 256 + v) % W32);
    } else if k < 3 {
      assert Octets(d, j, k, ip).next > |d| <==> EndsText(d, i, k);
      forall l | k < l < 3 ensures !EndsText(d, i, l) {
        NoPlaceAfter(d, i, k + 1, l);
      }
    }
  }

  /** The scan of a line ends behind the zero byte if and only if one of its first three numbers, each
      earlier one followed by a dot, is the end of the text. */
  lemma {:induction false} LineLeaves(d: Data, i: nat)
    requires i <= |d|
    ensures Line(d, i).1 > |d| <==> EndsInNumber(d, i)
  {
    hide Octets, Words, Place, EndsText;
    FirstPlace(d, i);
    OctetsLeave(d, i, 0, 0);
  }

  lemma FirstPlace(d: Data, i: nat)
    requires i <= |d|
    ensures Place(d, i, 0) == Some(SkipSpc(d, i))
  {
  }

  // ----- the file -----

  /** The line on which the scan ends: the first that is empty or from which it leaves the buffer. */
  function LastLine(d: Data, i: nat): (r: nat)
    requires i <= |d|
    ensures i <= r <= |d|
    decreases |d| - i
  {
    if At(d, i) == 0 || Line(d, i).1 > |d| then i
    else
      LineAdvances(d, i);
      LastLine(d, SkipToEoln(d, Line(d, i).1))
  }

  /** The scan stays in its buffer if and only if the last line it comes to does not end in a number. */
  lemma {:induction false} StaysIff(d: Data, i: nat)
    requires i <= |d|
    ensures Stays(d, i) <==> !EndsInNumber(d, LastLine(d, i))
    decreases |d| - i
  {
    hide Line, SkipToEoln, EndsInNumber;
    EntriesStep(d, i);
    if At(d, i) == 0 {
      NoLine(d, i);
    }
    LineLeaves(d, i);
    if At(d, i) != 0 && Line(d, i).1 <= |d| {
      StaysIff(d, SkipToEoln(d, Line(d, i).1));
    }
  }

  /** Where the text has ended there is no line to leave from. */
  lemma {:induction false} NoLine(d: Data, i: nat)
    requires i <= |d| && At(d, i) == 0
    ensures Line(d, i).1 <= |d|
  {
    hide ReadByte;
    NoNumber(d, i);
  }

  lemma {:induction false} DigitsLast(d: Data, q: nat, v: nat)
    requires q <= |d| && Digits(d, q, v).1 > q
    ensures IsDigit(d[Digits(d, q, v).1 - 1])
    decreases |d| - q
  {
    if IsDigit(At(d, q)) {
      if IsDigit(At(d, q + 1)) {
        DigitsLast(d, q + 1, 10 * v + At(d, q) - 48);
      }
    }
  }

  /** A number ends with a digit. */
  lemma {:induction false} NumberLast(d: Data, j: nat)
    requires j <= |d| && ReadByte(d, j).Some?
    ensures IsDigit(d[ReadByte(d, j).value.1 - 1])
  {
    var p := SkipSpaces(d, j);
    var q := if At(d, p) == 45 || At(d, p) == 43 then p + 1 else p;
    hide SkipSpaces, Digits, IsDigit;
    DigitsLast(d, q, 0);
  }

  /** So the scan of a text that does not end with a digit stays in the buffer, in particular that of
      a text that ends with a newline. */
  lemma {:induction false} StaysUnlessDigit(d: Data, i: nat)
    requires i <= |d| && (d == [] || !IsDigit(d[|d| - 1]))
    ensures Stays(d, i)
  {
    hide ReadByte, Stays, LastLine, Place;
    StaysIff(d, i);
    var last := LastLine(d, i);
    if k :| 0 <= k < 3 && EndsText(d, last, k) {
      NumberLast(d, Place(d, last, k).value);
    }
  }

  /** So does the scan of every file written line by line. */
  lemma {:induction false} WrittenStays(lines: seq<TextLine>)
    ensures Stays(WrittenAll(lines), 0)
  {
    hide WrittenAll, Stays;
    if lines != [] {
      LastNewline(lines);
    }
    NoLines();
    StaysUnlessDigit(WrittenAll(lines), 0);
  }

  lemma NoLines()
    ensures WrittenAll([]) == []
  {
  }

  lemma {:induction false} LastNewline(lines: seq<TextLine>)
    requires lines != []
    ensures var d := WrittenAll(lines); d != [] && d[|d| - 1] == NEWLINE
  {
    if lines[1..] == [] {
      assert WrittenAll(lines) == Written(lines[0]);
    } else {
      LastNewline(lines[1..]);
    }
  }

  // ----- files whose lines do not run over -----

  /** A line begins at i. */
  predicate Begins(d: Data, i: nat) {
    i <= |d| && (i == 0 || d[i - 1] == NEWLINE)
  }

  ghost predicate NoLineRunsOver(d: Data) {
    forall i, n :: Begins(d, i) && LineAt(d, i, n) ==> !RunsOver(d, i, n)
  }

  /** The newline that ends the line. */
  lemma {:induction false} LineEnds(d: Data, i: nat, last: nat) returns (n: nat)
    requires i < last <= |d| && d[last - 1] == NEWLINE && forall x :: i <= x < last ==> d[x] != 0
    ensures n < last && LineAt(d, i, n)
    decreases last - i
  {
    if d[i] == NEWLINE {
      n := i;
    } else {
      n := LineEnds(d, i + 1, last);
      assert d[i..n] == [d[i]] + d[i + 1..n];
    }
  }

  lemma {:induction false} EolnAtEnd(d: Data, e: nat)
    requires e <= |d| && Flat(d[e..])
    ensures SkipToEoln(d, e) == |d|
    decreases |d| - e
  {
    if e < |d| {
      assert d[e] == d[e..][0] && d[e + 1..] == d[e..][1..];
      EolnAtEnd(d, e + 1);
    }
  }

  /** A line that ends with the text. */
  lemma {:induction false} LastStays(d: Data, i: nat)
    requires i <= |d| && Flat(d[i..])
    ensures Stays(d, i) <==> !EndsInNumber(d, i)
  {
    hide Line, EndsInNumber, Stays, SkipToEoln;
    LineLeaves(d, i);
    EntriesStep(d, i);
    EntriesStep(d, |d|);
    if i == |d| {
      NoLine(d, i);
    } else if Line(d, i).1 <= |d| {
      assert d[i] == d[i..][0];
      var e := Line(d, i).1;
      assert d[e..] == d[i..][e - i..];
      EolnAtEnd(d, e);
    }
  }

  /** Where no line runs over, the scan stays in its buffer if and only if the last line, the text
      behind the last newline, does not end in one of its first three numbers. */
  lemma {:induction false} StaysByLastLine(d: Data, i: nat, last: nat)
    requires NoLineRunsOver(d) && Begins(d, last) && Flat(d[last..])
    requires Begins(d, i) && i <= last && forall x :: i <= x < last ==> d[x] != 0
    ensures Stays(d, i) <==> !EndsInNumber(d, last)
    decreases last - i
  {
    hide Stays, EndsInNumber, RunsOver, LineAt, NoLineRunsOver, Flat, Entries, Line;
    if i == last {
      LastStays(d, i);
    } else {
      var n := LineEnds(d, i, last);
      EndOf(d, i, n);
      NotOver(d, i, n);
      LineThenRest(d, i, n);
      StaysByLastLine(d, n + 1, last);
    }
  }

  lemma NotOver(d: Data, i: nat, n: nat)
    requires NoLineRunsOver(d) && Begins(d, i) && LineAt(d, i, n)
    ensures !RunsOver(d, i, n)
  {
    hide RunsOver, LineAt;
  }

  lemma EndOf(d: Data, i: nat, n: nat)
    requires LineAt(d, i, n)
    ensures i <= n && Begins(d, n + 1)
  {
  }

  // ----- two files -----

  /** The file "1", without a newline: its scan leaves the buffer. */
  lemma {:induction false} OneNumberLeaves(d: Data)
    requires d == [49]
    ensures Line(d, 0).1 == |d| + 1 && !Stays(d, 0)
  {
    hide ReadByte, Line, Stays;
    NothingSkipped(d, 0);
    FirstPlace(d, 0);
    OneDigit(d, 0, 1);
    assert EndsText(d, 0, 0);
    LineLeaves(d, 0);
    EntriesStep(d, 0);
  }

  /** The file "1.2." ends inside an address, and its scan stays in the buffer. */
  lemma {:induction false} DotLastStays(d: Data)
    requires d == [49, 46, 50, 46]
    ensures Stays(d, 0)
  {
    StaysUnlessDigit(d, 0);
  }
}

/** Reading a hosts file into the table, and looking names up there. The file is a text of bytes,
    and one zero byte stands behind it; no byte after that one can be read. */
module Resolver {
  import opened Bits
  import opened Wrappers
  import opened ResolverTable
  import opened ResolverPrimes

  const TAB := 9
  const NEWLINE := 10
  const SPACE := 32
  const DOT := 46

  type Data = seq<Byte>

  /** The buffer: the text and the zero byte behind it. */
  function At(d: Data, i: nat): Byte
    requires i <= |d|
  {
    if i < |d| then d[i] else 0
  }

  // ----- the text, as the scanning functions see it -----

  function SkipSpc(d: Data, i: nat): (r: nat)
    requires i <= |d|
    ensures i <= r <= |d| && At(d, r) != SPACE && At(d, r) != TAB
    decreases |d| - i
  {
    if At(d, i) == SPACE || At(d, i) == TAB then SkipSpc(d, i + 1) else i
  }

  function SkipToEoln(d: Data, i: nat): (r: nat)
    requires i <= |d|
    ensures i <= r <= |d| && (At(d, i) != 0 ==> i < r)
    decreases |d| - i
  {
    if At(d, i) == 0 then i else if At(d, i) == NEWLINE then i + 1 else SkipToEoln(d, i + 1)
  }

  predicate InWord(b: Byte) {
    b != 0 && b != SPACE && b != TAB && b != NEWLINE
  }

  function WordEnd(d: Data, i: nat): (r: nat)
    requires i <= |d|
    ensures i <= r <= |d| && !InWord(At(d, r))
    decreases |d| - i
  {
    if InWord(At(d, i)) then WordEnd(d, i + 1) else i
  }

  predicate IsSpace(b: Byte) {
    b == SPACE || 9 <= b <= 13
  }

  predicate IsDigit(b: Byte) {
    48 <= b <= 57
  }

  function SkipSpaces(d: Data, i: nat): (r: nat)
    requires i <= |d|
    ensures i <= r <= |d|
    decreases |d| - i
  {
    if IsSpace(At(d, i)) then SkipSpaces(d, i + 1) else i
  }

  function Digits(d: Data, i: nat, value: nat): (r: (nat, nat))
    requires i <= |d|
    ensures i <= r.1 <= |d|
    decreases |d| - i
  {
    if IsDigit(At(d, i)) then Digits(d, i + 1, 10 * value + At(d, i) - 48) else (value, i)
  }

  /** strtoul with base 10 on 64-bit words: the value and the place where it stops, the place
      where it began if there is no number. */
  function Strtoul(d: Data, i: nat): (r: (nat, nat))
    requires i <= |d|
    ensures i <= r.1 <= |d|
  {
    var p := SkipSpaces(d, i);
    var minus := At(d, p) == 45;
    var q := if minus || At(d, p) == 43 then p + 1 else p;
    var (v, e) := Digits(d, q, 0);
    if e == q then (0, i)
    else if v >= 0x1_0000_0000_0000_0000 then (0xFFFF_FFFF_FFFF_FFFF, e)
    else (if minus then (0x1_0000_0000_0000_0000 - v) % 0x1_0000_0000_0000_0000 else v, e)
  }

  /** A number up to 255, after the value is cut to 32 bits. */
  function ReadByte(d: Data, i: nat): (r: Option<(nat, nat)>)
    requires i <= |d|
    ensures r.Some? ==> r.value.0 < 256 && i < r.value.1 <= |d|
  {
    var (v, e) := Strtoul(d, i);
    var val := v % 0x1_0000_0000;
    if e == i || val > 255 then None else Some((val, e))
  }

  /** The loop over the four numbers of an address: how many were read, the address so far, and
      where the loop stopped. That may be the place behind the zero byte. */
  datatype Address = Address(count: nat, ip: nat, next: nat)

  function Octets(d: Data, i: nat, count: nat, ip: nat): (r: Address)
    requires count <= 4 && i <= |d|
    ensures i <= r.next <= |d| + 1 && r.count <= 4 && (r.next > |d| ==> r.count < 3)
    decreases 4 - count
  {
    if count == 4 then Address(4, ip, i)
    else
      match ReadByte(d, i)
      case None => Address(count, ip, i)
      case Some((v, e)) =>
        var ip' := (ip * 256 + v) % 0x1_0000_0000;
        if count < 3 && At(d, e) != DOT then Address(count, ip', e + 1)
        else Octets(d, if count < 3 then e + 1 else e, count + 1, ip')
  }

  /** The names after an address, and the place behind them. */
  function Words(d: Data, i: nat, ip: nat): (r: (seq<Host>, nat))
    requires i <= |d|
    ensures i <= r.1 <= |d|
    decreases |d| - i
  {
    var start := SkipSpc(d, i);
    var end := WordEnd(d, start);
    if end == start then ([], end)
    else
      var (more, e) := Words(d, end, ip);
      (Named(d, start, end, ip) + more, e)
  }

  /** Names of 128 bytes and more are passed over. */
  function Named(d: Data, start: nat, end: nat, ip: nat): seq<Host>
    requires start <= end <= |d|
  {
    if end - start < 128 then [Host(ip, d[start..end])] else []
  }

  /** The names of one line, and the place where the search for the next line begins. That may be the
      place behind the zero byte, and then there are no names. */
  function Line(d: Data, i: nat): (r: (seq<Host>, nat))
    requires i <= |d|
    ensures i <= r.1 <= |d| + 1 && (r.1 > |d| ==> r.0 == [])
  {
    var a := Octets(d, SkipSpc(d, i), 0, 0);
    if a.count < 4 || (At(d, a.next) != SPACE && At(d, a.next) != TAB) || a.ip == 0 then ([], a.next)
    else Words(d, a.next, a.ip)
  }

  /** The scan of the file stays in its buffer: the end of every line is sought inside. */
  predicate Stays(d: Data, i: nat)
    requires i <= |d|
    decreases |d| - i
  {
    At(d, i) != 0 ==>
      && Line(d, i).1 <= |d|
      && (LineAdvances(d, i); Stays(d, SkipToEoln(d, Line(d, i).1)))
  }

  /** All the names of the file with their addresses, in the order of the file, as far as the scan
      stays in the buffer. */
  function Entries(d: Data, i: nat): seq<Host>
    requires i <= |d|
    decreases |d| - i
  {
    if At(d, i) == 0 || Line(d, i).1 > |d| then []
    else
      var (hosts, e) := Line(d, i);
      LineAdvances(d, i);
      hosts + Entries(d, SkipToEoln(d, e))
  }

  lemma LineAdvances(d: Data, i: nat)
    requires i <= |d| && At(d, i) != 0 && Line(d, i).1 <= |d|
    ensures i < SkipToEoln(d, Line(d, i).1)
  {
  }

  /** One line, and the rest of the file. */
  lemma EntriesStep(d: Data, i: nat)
    requires i <= |d|
    ensures At(d, i) == 0 ==> Entries(d, i) == [] && Stays(d, i)
    ensures At(d, i) != 0 && Line(d, i).1 > |d| ==> Entries(d, i) == [] && !Stays(d, i)
    ensures At(d, i) != 0 && Line(d, i).1 <= |d| ==>
              var next := SkipToEoln(d, Line(d, i).1);
              && i < next <= |d|
              && Entries(d, i) == Line(d, i).0 + Entries(d, next)
              && Stays(d, i) == Stays(d, next)
  {
    if At(d, i) != 0 && Line(d, i).1 <= |d| {
      LineAdvances(d, i);
    }
    hide Line, SkipToEoln;
  }

  lemma {:induction false} SubsetSize<T>(a: set<T>, b: set<T>)
    requires a <= b
    ensures |a| <= |b|
  {
    if x :| x in a {
      SubsetSize(a - {x}, b - {x});
    }
  }

  lemma WordsStep(d: Data, i: nat, ip: nat)
    requires i <= |d|
    ensures var start := SkipSpc(d, i);
            var end := WordEnd(d, start);
            if end == start then Words(d, i, ip) == ([], end)
            else
              && i < end
              && Words(d, i, ip) == (Named(d, start, end, ip) + Words(d, end, ip).0, Words(d, end, ip).1)
  {
  }

  // ----- names in range -----

  /** All these names have hashes in range. */
  predicate AllInRange(hosts: seq<Host>, p: nat) {
    p > 2 && forall e :: 0 <= e < |hosts| ==> InRange(hosts[e].name, p)
  }

  lemma AllParts(a: seq<Host>, b: seq<Host>, p: nat)
    ensures AllInRange(a + b, p) <==> AllInRange(a, p) && AllInRange(b, p)
  {
    hide InRange;
    if AllInRange(a + b, p) {
      assert forall e :: 0 <= e < |a| ==> a[e] == (a + b)[e];
      assert forall e :: 0 <= e < |b| ==> b[e] == (a + b)[|a| + e];
    }
  }

  lemma {:induction false} WordsInRange(d: Data, i: nat, ip: nat, p: nat)
    requires i <= |d| && Ascii(d) && 2 < p <= SAFE
    ensures AllInRange(Words(d, i, ip).0, p)
    decreases |d| - i
  {
    hide InRange;
    WordsStep(d, i, ip);
    var start := SkipSpc(d, i);
    var end := WordEnd(d, start);
    if end != start {
      WordsInRange(d, end, ip, p);
      AsciiInRange(d[start..end], p);
      AllParts(Named(d, start, end, ip), Words(d, end, ip).0, p);
    }
  }

  /** In an ASCII file every name is in range, at every size up to SAFE. */
  lemma {:induction false} EntriesInRange(d: Data, i: nat, p: nat)
    requires i <= |d| && Ascii(d) && 2 < p <= SAFE
    ensures AllInRange(Entries(d, i), p)
    decreases |d| - i
  {
    if At(d, i) != 0 && Line(d, i).1 <= |d| {
      LineAdvances(d, i);
      var (hosts, e) := Line(d, i);
      var a := Octets(d, SkipSpc(d, i), 0, 0);
      WordsInRange(d, a.next, a.ip, p);
      assert AllInRange(hosts, p);
      hide Line, AllInRange, Octets;
      EntriesInRange(d, SkipToEoln(d, e), p);
      AllParts(hosts, Entries(d, SkipToEoln(d, e)), p);
    }
  }

  // ----- how many names there can be -----

  const MAX_HOSTS_SIZE := 0x100_0000

  lemma {:induction false} WordsBound(d: Data, i: nat, ip: nat)
    requires i <= |d| && !InWord(At(d, i))
    ensures i + 2 * |Words(d, i, ip).0| <= Words(d, i, ip).1
    decreases |d| - i
  {
    WordsStep(d, i, ip);
    var start := SkipSpc(d, i);
    var end := WordEnd(d, start);
    if end != start {
      WordsBound(d, end, ip);
    }
  }

  lemma {:induction false} LineBound(d: Data, i: nat)
    requires i <= |d|
    ensures i + 2 * |Line(d, i).0| <= Line(d, i).1
  {
    hide Octets, Words, SkipSpc;
    var a := Octets(d, SkipSpc(d, i), 0, 0);
    if Line(d, i).0 != [] {
      WordsBound(d, a.next, a.ip);
    }
  }

  /** A name takes at least two bytes: a blank and a letter. */
  lemma {:induction false} EntriesBound(d: Data, i: nat)
    requires i <= |d|
    ensures 2 * |Entries(d, i)| <= |d| - i
    decreases |d| - i
  {
    hide Line, SkipToEoln;
    if At(d, i) != 0 && Line(d, i).1 <= |d| {
      LineAdvances(d, i);
      LineBound(d, i);
      EntriesBound(d, SkipToEoln(d, Line(d, i).1));
    }
  }

  /** The first size above twice the number of names. */
  function SizeFor(sizes: seq<nat>, n: nat): Option<nat> {
    if sizes == [] then None else if sizes[0] > 2 * n then Some(sizes[0]) else SizeFor(sizes[1..], n)
  }

  /** The largest size is never taken: a file has less than 2^24 bytes, and so less than 2^23 names. */
  lemma {:induction false} LargestSizeUnused(d: Data)
    requires |d| < MAX_HOSTS_SIZE
    ensures var p := SizeFor(SIZES, |Entries(d, 0)|); p.Some? && p.value < 37318507 && Size(p.value)
  {
    hide Entries, SIZES, SizeFor, Size;
    var n := |Entries(d, 0)|;
    EntriesBound(d, 0);
    SizesBelowLast();
    SizeBelow(SIZES, n, 34);
    var j :| 0 <= j <= 34 && SIZES[j] == SizeFor(SIZES, n).value;
    SizesPrime(j);
  }

  /** The size of the table for a file. */
  function SizeOf(d: Data): (p: nat)
    requires |d| < MAX_HOSTS_SIZE
    ensures Size(p)
  {
    LargestSizeUnused(d);
    SizeFor(SIZES, |Entries(d, 0)|).value
  }

  lemma {:induction false} FirstIsSize(sizes: seq<nat>, n: nat, i: nat)
    requires i <= |sizes| && (forall j :: 0 <= j < i ==> sizes[j] <= 2 * n) && (i < |sizes| ==> sizes[i] > 2 * n)
    ensures SizeFor(sizes, n) == if i < |sizes| then Some(sizes[i]) else None
  {
    if i > 0 {
      FirstIsSize(sizes[1..], n, i - 1);
    }
  }

  lemma {:induction false} SizeBelow(sizes: seq<nat>, n: nat, k: nat)
    requires k < |sizes| && sizes[k] > 2 * n
    ensures SizeFor(sizes, n).Some? && exists j :: 0 <= j <= k && sizes[j] == SizeFor(sizes, n).value
  {
    if sizes[0] <= 2 * n {
      SizeBelow(sizes[1..], n, k - 1);
      var j :| 0 <= j <= k - 1 && sizes[1..][j] == SizeFor(sizes[1..], n).value;
      assert sizes[j + 1] == SizeFor(sizes, n).value;
    }
  }

  /** What loading a file comes to: a filled table, a refusal with the old table kept in use, or a
      read behind the buffer, after which nothing can be said of the original. */
  datatype Outcome = Loaded | Refused | Outside

  // ----- the scanning loops -----

  method SkipBlanks(d: Data, i: nat) returns (r: nat)
    requires i <= |d|
    ensures r == SkipSpc(d, i)
  {
    r := i;
    while At(d, r) == SPACE || At(d, r) == TAB
      invariant r <= |d| && SkipSpc(d, r) == SkipSpc(d, i)
      decreases |d| - r
    {
      r := r + 1;
    }
  }

  method NextLine(d: Data, i: nat) returns (r: nat)
    requires i <= |d|
    ensures r == SkipToEoln(d, i)
  {
    r := i;
    while At(d, r) != 0 && At(d, r) != NEWLINE
      invariant r <= |d| && SkipToEoln(d, r) == SkipToEoln(d, i)
      decreases |d| - r
    {
      r := r + 1;
    }
    if At(d, r) != 0 {
      r := r + 1;
    }
  }

  method GetWord(d: Data, i: nat) returns (start: nat, end: nat)
    requires i <= |d|
    ensures start == SkipSpc(d, i) && end == WordEnd(d, start)
  {
    start := SkipBlanks(d, i);
    end := start;
    while InWord(At(d, end))
      invariant end <= |d| && WordEnd(d, end) == WordEnd(d, start)
      decreases |d| - end
    {
      end := end + 1;
    }
  }

  method ReadAddress(d: Data, i: nat) returns (a: Address)
    requires i <= |d|
    ensures a == Octets(d, i, 0, 0)
  {
    hide ReadByte;
    var ip: nat, k: nat, ptr: nat := 0, 0, i;
    while k < 4
      invariant k <= 4 && ptr <= |d| && Octets(d, i, 0, 0) == Octets(d, ptr, k, ip)
    {
      var res := ReadByte(d, ptr);
      if res == None {
        break;
      }
      var (v, end) := res.value;
      ptr := end;
      var next := (ip * 256 + v) % 0x1_0000_0000;
      if k < 3 {
        ptr := ptr + 1;
        if At(d, end) != DOT {
          return Address(k, next, ptr);
        }
      }
      ip, k := next, k + 1;
    }
    return Address(k, ip, ptr);
  }

  /** The loop over the sizes. */
  method FirstAbove(sizes: seq<nat>, n: nat) returns (i: nat)
    ensures i <= |sizes| && forall j :: 0 <= j < i ==> sizes[j] <= n
    ensures i < |sizes| ==> sizes[i] > n
  {
    i := 0;
    while i < |sizes| && sizes[i] <= n
      invariant i <= |sizes| && forall j :: 0 <= j < i ==> sizes[j] <= n
    {
      i := i + 1;
    }
  }

  class ResolverConf {
    var hsize: nat
    var htable: array<Option<Host>>

    ghost predicate Holds(entries: seq<Host>)
      reads this, htable
    {
      htable.Length == hsize && Filled(htable[..], entries)
    }

    constructor ()
      ensures fresh(htable)
    {
      hsize := 0;
      htable := new Option<Host>[0];
    }

    /** The entry of a name; with an address, a new name is stored first. */
    method GetHash(name: seq<Byte>, ip: nat, ghost entries: seq<Host>) returns (r: Option<Host>)
      requires Holds(entries) && 2 < hsize && |entries| < hsize && InRange(name, hsize) && |name| < 128
      modifies htable
      ensures ip == 0 ==> htable[..] == old(htable[..])
      ensures ip != 0 ==> Holds(entries + [Host(ip, name)])
      ensures r == match FirstOf(entries, name)
                   case Some(a) => Some(Host(a, name))
                   case None => if ip == 0 then None else Some(Host(ip, name))
    {
      hide Slot, Start, Step, Filled, Walked, Size, InRange, FirstOf;
      FilledSize(htable[..], entries);
      var h1, h2 := Hashes(name);
      ghost var t := htable[..];
      ghost var k := 0;
      ghost var seen: set<nat> := {};
      WalkStarts(t, name);
      while htable[h1].Some?
        invariant htable[..] == t && h1 == Slot(name, hsize, k)
        invariant Walked(t, name, k, seen)
        decreases hsize - k
      {
        if |name| == |htable[h1].value.name| && htable[h1].value.name == name {
          Repeated(t, entries, Host(ip, name), h1);
          FilledAnswers(t, entries, h1);
          return htable[h1];
        }
        Walks(t, entries, name, k, seen);
        seen := seen + {h1};
        k := k + 1;
        h1 := h1 + h2;
        if h1 >= hsize {
          h1 := h1 - hsize;
        }
      }
      WalkedFar(t, entries, name, k, seen);
      if ip == 0 {
        return None;
      }
      Stored(t, entries, Host(ip, name), k);
      htable[h1] := Some(Host(ip, name));
      assert htable[..] == t[h1 := Some(Host(ip, name))];
      return htable[h1];
    }

    /** The parser of the file: counts the names, and with mode stores them. It ends with None where
        the original goes on behind its buffer. */
    method ParseHosts(d: Data, mode: bool) returns (ans: Option<nat>)
      requires mode ==> Holds([]) && |Entries(d, 0)| < hsize && AllInRange(Entries(d, 0), hsize)
      modifies htable
      ensures ans == if Stays(d, 0) then Some(|Entries(d, 0)|) else None
      ensures if mode then ans.Some? ==> Holds(Entries(d, 0)) else htable[..] == old(htable[..])
    {
      hide Line, Holds, AllInRange, SkipToEoln;
      ghost var done: seq<Host> := [];
      ghost var before := htable[..];
      var ptr, count := 0, 0;
      assert done + Entries(d, 0) == Entries(d, 0);
      while At(d, ptr) != 0
        invariant ptr <= |d| && count == |done| && Entries(d, 0) == done + Entries(d, ptr)
        invariant Stays(d, 0) == Stays(d, ptr)
        invariant if mode then Holds(done) else htable[..] == before
        decreases |d| - ptr
      {
        EntriesStep(d, ptr);
        if mode {
          AllParts(done, Entries(d, ptr), hsize);
          AllParts(Line(d, ptr).0, Entries(d, ptr)[|Line(d, ptr).0|..], hsize);
        }
        var n, e: nat := ParseLine(d, ptr, mode, done);
        if e > |d| {
          return None;
        }
        assert done + Line(d, ptr).0 + Entries(d, SkipToEoln(d, e)) == done + Entries(d, ptr);
        done := done + Line(d, ptr).0;
        count := count + n;
        ptr := NextLine(d, e);
      }
      assert done + [] == done;
      return Some(count);
    }

    /** The body of the loop of parse_hosts. */
    method ParseLine(d: Data, i: nat, mode: bool, ghost done: seq<Host>) returns (n: nat, e: nat)
      requires i <= |d|
      requires mode ==> Holds(done) && |done + Line(d, i).0| < hsize && AllInRange(Line(d, i).0, hsize)
      modifies htable
      ensures n == |Line(d, i).0| && e == Line(d, i).1
      ensures if mode then Holds(done + Line(d, i).0) else htable[..] == old(htable[..])
    {
      hide Holds, Octets, Words, SkipSpc, AllInRange;
      var start := SkipBlanks(d, i);
      var a := ReadAddress(d, start);
      n, e := 0, a.next;
      if a.count < 4 || (At(d, a.next) != SPACE && At(d, a.next) != TAB) || a.ip == 0 {
        assert done + [] == done;
        return;
      }
      n, e := ParseWords(d, a.next, a.ip, mode, done);
    }

    /** The names of a line. */
    method ParseWords(d: Data, i: nat, ip: nat, mode: bool, ghost done: seq<Host>) returns (n: nat, e: nat)
      requires i <= |d| && ip != 0
      requires mode ==> Holds(done) && |done + Words(d, i, ip).0| < hsize && AllInRange(Words(d, i, ip).0, hsize)
      modifies htable
      ensures n == |Words(d, i, ip).0| && e == Words(d, i, ip).1
      ensures if mode then Holds(done + Words(d, i, ip).0) else htable[..] == old(htable[..])
    {
      hide Holds, Words, SkipSpc, WordEnd, InRange;
      ghost var read: seq<Host> := [];
      n, e := 0, i;
      assert done + [] == done && read + Words(d, i, ip).0 == Words(d, i, ip).0;
      while true
        invariant i <= e <= |d| && n == |read|
        invariant Words(d, i, ip) == (read + Words(d, e, ip).0, Words(d, e, ip).1)
        invariant if mode then Holds(done + read) else htable[..] == old(htable[..])
        decreases |d| - e
      {
        WordsStep(d, e, ip);
        var start, end: nat := GetWord(d, e);
        if start == end {
          e := end;
          assert read + [] == read;
          return;
        }
        ghost var named, more := Named(d, start, end, ip), Words(d, end, ip).0;
        assert read + (named + more) == read + named + more;
        assert done + (read + named) == done + read + named;
        if end - start < 128 {
          if mode {
            ghost var size := |done + (read + named + more)|;
            assert Words(d, i, ip).0 == read + named + more && (read + named + more)[|read|] == named[0];
            var r := GetHash(d[start..end], ip, done + read);
          }
          n := n + 1;
        } else {
          assert read + named == read;
        }
        read := read + named;
        e := end;
      }
    }

    /** Counts the names, takes the first size above twice their number, and fills the table. */
    method Load(d: Data) returns (outcome: Outcome)
      requires |d| < MAX_HOSTS_SIZE && Stays(d, 0) ==> AllInRange(Entries(d, 0), SizeOf(d))
      modifies this, htable
      ensures outcome == if |d| >= MAX_HOSTS_SIZE then Refused else if Stays(d, 0) then Loaded else Outside
      ensures if outcome == Loaded then Holds(Entries(d, 0)) && hsize == SizeOf(d)
              else hsize == old(hsize) && htable == old(htable) && htable[..] == old(htable[..])
    {
      hide Entries, Size, Filled, AllInRange, Stays, SizeFor, SIZES;
      if |d| >= MAX_HOSTS_SIZE {
        return Refused;
      }
      var ans := ParseHosts(d, false);
      if ans == None {
        return Outside;
      }
      var i := FirstAbove(SIZES, 2 * ans.value);
      FirstIsSize(SIZES, ans.value, i);
      LargestSizeUnused(d);
      if i == |SIZES| {
        assert false;
      }
      hsize := SIZES[i];
      htable := new Option<Host>[hsize](_ => None);
      assert htable[..] == seq(hsize, _ => None);
      EmptyFilled(hsize);
      var res := ParseHosts(d, true);
      return Loaded;
    }

    method Hashes(name: seq<Byte>) returns (h1: nat, h2: nat)
      requires Size(hsize) && InRange(name, hsize)
      ensures h1 == Start(name, hsize) && h2 == Step(name, hsize)
    {
      hide Hash, CRem, Int32;
      HashNone(17, hsize);
      HashNone(239, hsize - 1);
      var a, b := 0, 0;
      for i := 0 to |name|
        invariant a == Hash(name[..i], 17, hsize) && b == Hash(name[..i], 239, hsize - 1)
      {
        assert name[..i + 1][..i] == name[..i];
        HashLast(name[..i + 1], 17, hsize);
        HashLast(name[..i + 1], 239, hsize - 1);
        a := CRem(Int32(a * 17 + Signed(name[i])), hsize);
        b := CRem(Int32(b * 239 + Signed(name[i])), hsize - 1);
      }
      assert name[..|name|] == name;
      h1, h2 := a, b + 1;
    }
  }

  /** The slots seen before the k-th: all taken by other names, and all different. */
  ghost predicate Walked(t: Slots, name: seq<Byte>, k: nat, seen: set<nat>)
    requires Size(|t|) && InRange(name, |t|)
  {
    && k <= |t| && Passed(t, name, k) && |seen| == k && seen <= Taken(t)
    && (forall j :: 0 <= j < k ==> t[Slot(name, |t|, j)].value.name != name)
    && (forall x :: x in seen ==> exists j :: 0 <= j < k && x == Slot(name, |t|, j))
  }

  lemma FilledSize(t: Slots, entries: seq<Host>)
    requires Filled(t, entries)
    ensures Size(|t|) && |t| > 2
  {
  }

  lemma FilledAnswers(t: Slots, entries: seq<Host>, i: nat)
    requires Filled(t, entries) && i < |t| && t[i].Some?
    ensures FirstOf(entries, t[i].value.name) == Some(t[i].value.ip)
  {
  }

  lemma WalkStarts(t: Slots, name: seq<Byte>)
    requires Size(|t|) && InRange(name, |t|)
    ensures Walked(t, name, 0, {}) && Slot(name, |t|, 0) == Start(name, |t|)
  {
    hide Start, Step, InRange, Taken, Probe;
    ProbeZero(Start(name, |t|), Step(name, |t|), |t|);
  }

  lemma ProbeZero(a: nat, s: nat, p: nat)
    requires a < p
    ensures Probe(a, s, p, 0) == a
  {
  }

  lemma {:induction false} WalkedFar(t: Slots, entries: seq<Host>, name: seq<Byte>, k: nat, seen: set<nat>)
    requires Filled(t, entries) && InRange(name, |t|) && Walked(t, name, k, seen) && t[Slot(name, |t|, k)] == None
    ensures FirstOf(entries, name) == None && Passed(t, name, k)
  {
    hide Slot, Filled, FirstOf;
    NotFound(t, entries, name, k);
  }

  /** One more slot with another name: probing goes on, and cannot have gone round. */
  lemma {:induction false} Walks(t: Slots, entries: seq<Host>, name: seq<Byte>, k: nat, seen: set<nat>)
    requires Filled(t, entries) && |entries| < |t| && InRange(name, |t|) && Walked(t, name, k, seen)
    requires t[Slot(name, |t|, k)].Some? && t[Slot(name, |t|, k)].value.name != name
    ensures k < |t| && Walked(t, name, k + 1, seen + {Slot(name, |t|, k)})
    ensures var h1, h2 := Slot(name, |t|, k), Step(name, |t|);
            Slot(name, |t|, k + 1) == Advance(h1, h2, |t|)
  {
    var x := Slot(name, |t|, k);
    ProbeNext(Start(name, |t|), Step(name, |t|), |t|, k);
    SubsetSize(seen, Taken(t));
    assert k < |t|;
    if x in seen {
      var j :| 0 <= j < k && x == Slot(name, |t|, j);
      ProbesDiffer(Start(name, |t|), Step(name, |t|), |t|, j, k);
    }
  }
}

/** The backtrace that collapses recursion while it walks the chain of stack frames. */
module Backtrace {
  import opened Wrappers

  /** What stands at a frame pointer: the pointer of the calling frame and the return address. */
  datatype Frame = Frame(bp: nat, ip: nat)

  /** Two equal adjacent blocks of length len, the first one at k. */
  predicate SquareAt(s: seq<nat>, k: nat, len: nat) {
    0 < len && k + 2 * len <= |s| && s[k..k + len] == s[k + len..k + 2 * len]
  }

  ghost predicate SquareFree(s: seq<nat>) {
    forall k: nat, len: nat :: !SquareAt(s, k, len)
  }

  /** Drops the last block if it repeats the one before it, trying lengths from len on. */
  function Collapsed(s: seq<nat>, len: nat): seq<nat>
    requires len > 0
    decreases |s| - 2 * len
  {
    if |s| < 2 * len then s
    else if SquareAt(s, |s| - 2 * len, len) then s[..|s| - len]
    else Collapsed(s, len + 1)
  }

  function Push(s: seq<nat>, x: nat): seq<nat> {
    Collapsed(s + [x], 1)
  }

  /** The trace after the addresses have been visited in this order. */
  function History(ips: seq<nat>): seq<nat> {
    if ips == [] then [] else Push(History(ips[..|ips| - 1]), ips[|ips| - 1])
  }

  function Elements(s: seq<nat>): set<nat> {
    set x | x in s
  }

  lemma {:induction false} CollapsedIs(s: seq<nat>, x: nat, len: nat)
    requires len > 0 && SquareFree(s)
    requires forall l: nat :: 0 < l < len && 2 * l <= |s| + 1 ==> !SquareAt(s + [x], |s| + 1 - 2 * l, l)
    ensures var r := Collapsed(s + [x], len);
            SquareFree(r) && r != [] && r[|r| - 1] == x && Elements(r) == Elements(s) + {x}
    decreases |s| + 1 - 2 * len
  {
    hide SquareFree, SquareAt, Elements;
    var t := s + [x];
    if |t| < 2 * len {
      OnlySuffixes(s, x);
      assert t[|t| - 1] == x;
    } else if SquareAt(t, |t| - 2 * len, len) {
      RepeatDropped(s, x, len);
    } else {
      CollapsedIs(s, x, len + 1);
    }
  }

  lemma SameSlice(s: seq<nat>, t: seq<nat>, a: nat, b: nat)
    requires s <= t && a <= b <= |s|
    ensures s[a..b] == t[a..b]
  {
    assert forall i :: a <= i < b ==> s[i] == t[i];
  }

  /** A square that the last element completes ends there. */
  lemma {:induction false} OnlySuffixes(s: seq<nat>, x: nat)
    requires SquareFree(s)
    requires forall l: nat :: 0 < l && 2 * l <= |s| + 1 ==> !SquareAt(s + [x], |s| + 1 - 2 * l, l)
    ensures SquareFree(s + [x]) && Elements(s + [x]) == Elements(s) + {x}
  {
    var t := s + [x];
    ElementsMore(s, x);
    hide SquareAt, Elements;
    forall k: nat, len: nat
      ensures !SquareAt(t, k, len)
    {
      if k + 2 * len <= |s| {
        PrefixSquare(s, t, k, len);
      } else {
        SquareFits(t, k, len);
      }
    }
  }

  lemma SquareFits(s: seq<nat>, k: nat, len: nat)
    ensures SquareAt(s, k, len) ==> 0 < len && k + 2 * len <= |s|
  {
  }

  lemma {:induction false} PrefixSquare(s: seq<nat>, t: seq<nat>, k: nat, len: nat)
    requires s <= t && k + 2 * len <= |s|
    ensures SquareAt(s, k, len) == SquareAt(t, k, len)
  {
    SameSlice(s, t, k, k + len);
    SameSlice(s, t, k + len, k + 2 * len);
  }

  lemma {:induction false} RepeatDropped(s: seq<nat>, x: nat, len: nat)
    requires SquareFree(s) && 0 < len && 2 * len <= |s| + 1 && SquareAt(s + [x], |s| + 1 - 2 * len, len)
    ensures var r := (s + [x])[..|s| + 1 - len];
            SquareFree(r) && r != [] && r[|r| - 1] == x && Elements(r) == Elements(s) + {x}
  {
    var t := s + [x];
    var n := |t|;
    var r := t[..n - len];
    assert forall i :: n - len <= i < n ==> t[i] == t[i - len] by {
      forall i | n - len <= i < n
        ensures t[i] == t[i - len]
      {
        assert t[n - len..n][i - (n - len)] == t[n - 2 * len..n - len][i - (n - len)];
      }
    }
    assert r[|r| - 1] == t[n - 1 - len] == t[n - 1] == x;
    assert t[..n - len] == s[..n - len];
    forall k: nat, l: nat
      ensures !SquareAt(r, k, l)
    {
      if k + 2 * l <= |r| {
        PrefixSquare(r, s, k, l);
      }
    }
    forall y | y in s
      ensures y in r
    {
      var i :| 0 <= i < |s| && s[i] == y;
      assert t[i] == y;
      if i >= |r| {
        assert r[i - len] == y;
      }
    }
  }

  /** After every step the trace has no repeated blocks, ends with the last address, and has all
      the addresses visited and no others. */
  lemma {:induction false} HistoryIs(ips: seq<nat>)
    ensures SquareFree(History(ips)) && Elements(History(ips)) == Elements(ips)
    ensures ips != [] ==> History(ips) != [] && History(ips)[|History(ips)| - 1] == ips[|ips| - 1]
  {
    if ips != [] {
      hide SquareFree, Collapsed, Elements;
      var before, x := ips[..|ips| - 1], ips[|ips| - 1];
      HistoryIs(before);
      CollapsedIs(History(before), x, 1);
      ElementsMore(before, x);
      assert ips == before + [x];
    } else {
      assert Elements(History(ips)) == Elements(ips);
    }
  }

  // ----- what exactly is dropped -----

  /** The last m elements of s are the m elements before them. */
  predicate Twice(s: seq<nat>, m: nat) {
    0 < m && 2 * m <= |s| && s[|s| - m..] == s[|s| - 2 * m..|s| - m]
  }

  /** r is s without a block that stands twice at its end. The block has n elements, and no shorter one
      stands twice there. */
  ghost predicate Shortened(s: seq<nat>, r: seq<nat>, n: nat) {
    Twice(s, n) && r == s[..|s| - n] && forall m: nat :: m < n ==> !Twice(s, m)
  }

  /** No block stands twice at the end of s. */
  ghost predicate NoRepetition(s: seq<nat>) {
    forall m: nat :: !Twice(s, m)
  }

  lemma TwiceIs(s: seq<nat>, m: nat)
    ensures Twice(s, m) ==> 0 < m && 2 * m <= |s|
    ensures 0 < m && 2 * m <= |s| ==> (Twice(s, m) <==> SquareAt(s, |s| - 2 * m, m))
  {
    if 0 < m && 2 * m <= |s| {
      assert s[|s| - m..] == s[|s| - 2 * m + m..|s| - 2 * m + 2 * m];
    }
  }

  /** Nothing is dropped, or the shortest block that stands twice at the end. */
  ghost predicate DroppedExactly(s: seq<nat>, r: seq<nat>) {
    |r| <= |s| && if |r| == |s| then r == s && NoRepetition(s) else Shortened(s, r, |s| - |r|)
  }

  lemma {:induction false} CollapsedExactly(s: seq<nat>, len: nat)
    requires len > 0 && forall m: nat :: m < len ==> !Twice(s, m)
    ensures DroppedExactly(s, Collapsed(s, len))
    decreases |s| - 2 * len
  {
    hide Twice, SquareAt;
    TwiceIs(s, len);
    if 2 * len > |s| {
      forall m: nat ensures !Twice(s, m) {
        TwiceIs(s, m);
      }
    } else if !SquareAt(s, |s| - 2 * len, len) {
      CollapsedExactly(s, len + 1);
    }
  }

  lemma {:induction false} PushExactly(s: seq<nat>, x: nat)
    ensures DroppedExactly(s + [x], Push(s, x))
  {
    CollapsedExactly(s + [x], 1);
  }

  /** A copy of the block of n elements that ends at k, put behind it. */
  function Repeat(s: seq<nat>, k: nat, n: nat): seq<nat>
    requires 0 < n <= k <= |s|
  {
    s[..k] + s[k - n..k] + s[k..]
  }

  /** What comes of s when blocks are repeated, at these places and of these lengths. */
  function Repeats(s: seq<nat>, steps: seq<(nat, nat)>): Option<seq<nat>>
    decreases |steps|
  {
    if steps == [] then Some(s)
    else if 0 < steps[0].1 <= steps[0].0 <= |s| then Repeats(Repeat(s, steps[0].0, steps[0].1), steps[1..])
    else None
  }

  ghost predicate RepeatsTo(s: seq<nat>, t: seq<nat>) {
    exists steps :: Repeats(s, steps) == Some(t)
  }

  /** Addresses that come after do not disturb the repetitions. */
  lemma {:induction false} RepeatsThen(s: seq<nat>, steps: seq<(nat, nat)>, x: nat)
    requires Repeats(s, steps).Some?
    ensures Repeats(s + [x], steps) == Some(Repeats(s, steps).value + [x])
    decreases |steps|
  {
    if steps != [] {
      var (k, n) := steps[0];
      assert (s + [x])[..k] == s[..k] && (s + [x])[k - n..k] == s[k - n..k] && (s + [x])[k..] == s[k..] + [x];
      assert Repeat(s + [x], k, n) == Repeat(s, k, n) + [x];
      RepeatsThen(Repeat(s, k, n), steps[1..], x);
    }
  }

  /** The addresses visited come back from the trace when blocks in it are repeated, one after the
      other: what has been dropped were repetitions. */
  lemma {:induction false} HistoryRepeats(ips: seq<nat>) returns (steps: seq<(nat, nat)>)
    ensures Repeats(History(ips), steps) == Some(ips)
  {
    if ips == [] {
      steps := [];
    } else {
      hide Push, Repeats, DroppedExactly;
      var before, x := ips[..|ips| - 1], ips[|ips| - 1];
      steps := HistoryRepeats(before);
      RepeatsThen(History(before), steps, x);
      assert before + [x] == ips;
      PushExactly(History(before), x);
      steps := DroppedRepeats(History(before) + [x], History(ips), steps);
    }
  }

  lemma {:induction false} DroppedRepeats(t: seq<nat>, r: seq<nat>, steps: seq<(nat, nat)>)
    returns (more: seq<(nat, nat)>)
    requires DroppedExactly(t, r)
    ensures Repeats(r, more) == Repeats(t, steps)
  {
    if |r| == |t| {
      more := steps;
    } else {
      var n := |t| - |r|;
      assert Twice(t, n);
      assert r[|r| - n..] == t[|t| - 2 * n..|t| - n];
      assert t == t[..|t| - n] + t[|t| - n..];
      assert Repeat(r, |r|, n) == t;
      more := [(|r|, n)] + steps;
    }
  }

  lemma ElementsMore(s: seq<nat>, x: nat)
    ensures Elements(s + [x]) == Elements(s) + {x}
  {
  }

  lemma HistoryMore(ips: seq<nat>, x: nat)
    ensures History(ips + [x]) == Push(History(ips), x)
  {
    assert (ips + [x])[..|ips|] == ips;
  }

  /** The frames on the way: each one above the one before, all of them aligned and inside the stack. */
  predicate Chain(frames: nat -> Frame, path: seq<nat>, bp: nat, end: nat) {
    && (forall k :: 0 <= k < |path| ==> path[k] <= end && path[k] % 8 == 0)
    && (path != [] ==> path[0] == bp)
    && (forall k :: 0 <= k < |path| - 1 ==> path[k + 1] == frames(path[k]).bp > path[k])
  }

  function Ips(frames: nat -> Frame, path: seq<nat>): seq<nat> {
    seq(|path|, i requires 0 <= i < |path| => frames(path[i]).ip)
  }

  /** Why the walk stops: no room, the end of the stack, a pointer that is not aligned, or one
      that does not lead upwards. */
  predicate Stops(frames: nat -> Frame, path: seq<nat>, bp: nat, end: nat, full: bool) {
    var next := if path == [] then bp else frames(path[|path| - 1]).bp;
    full || next > end || next % 8 != 0 || (path != [] && next <= path[|path| - 1])
  }

  method BacktraceWithoutRecursions(frames: nat -> Frame, bp: nat, end: nat, buffer: array<nat>, size: nat)
    returns (i: nat, ghost path: seq<nat>)
    requires size <= buffer.Length
    modifies buffer
    ensures i <= size && buffer[..i] == History(Ips(frames, path)) && buffer[size..] == old(buffer[size..])
    ensures Chain(frames, path, bp, end) && Stops(frames, path, bp, end, i == size)
    ensures SquareFree(buffer[..i]) && RepeatsTo(buffer[..i], Ips(frames, path))
  {
    hide History, Push, Chain, Ips, SquareFree, RepeatsTo;
    var current := bp;
    i, path := 0, [];
    EmptyHistory(frames, bp, end);
    while i < size && current <= end && current % 8 == 0
      invariant i <= size && Chain(frames, path, bp, end) && buffer[size..] == old(buffer[size..])
      invariant buffer[..i] == History(Ips(frames, path))
      invariant current == if path == [] then bp else frames(path[|path| - 1]).bp
      invariant path != [] ==> path[|path| - 1] < current
      decreases end + 1 - current
    {
      var f := frames(current);
      PathGrows(frames, path, bp, end, current);
      i := Append(buffer, i, f.ip, size);
      path := path + [current];
      if f.bp <= current {
        TraceIs(Ips(frames, path));
        return;
      }
      current := f.bp;
    }
    TraceIs(Ips(frames, path));
  }

  lemma EmptyHistory(frames: nat -> Frame, bp: nat, end: nat)
    ensures History(Ips(frames, [])) == [] && Chain(frames, [], bp, end)
  {
  }

  lemma {:induction false} PathGrows(frames: nat -> Frame, path: seq<nat>, bp: nat, end: nat, current: nat)
    requires Chain(frames, path, bp, end) && current <= end && current % 8 == 0
    requires current == if path == [] then bp else frames(path[|path| - 1]).bp
    requires path != [] ==> path[|path| - 1] < current
    ensures Chain(frames, path + [current], bp, end)
    ensures History(Ips(frames, path + [current])) == Push(History(Ips(frames, path)), frames(current).ip)
  {
    hide History, Push;
    HistoryMore(Ips(frames, path), frames(current).ip);
    assert Ips(frames, path + [current]) == Ips(frames, path) + [frames(current).ip];
  }

  /** A trace without repeated blocks, from which the addresses come back. */
  lemma {:induction false} TraceIs(ips: seq<nat>)
    ensures SquareFree(History(ips)) && RepeatsTo(History(ips), ips)
  {
    hide History, SquareFree, Repeats;
    HistoryIs(ips);
    var steps := HistoryRepeats(ips);
  }

  /** One address written behind the trace. */
  method Append(buffer: array<nat>, i: nat, ip: nat, ghost size: nat) returns (r: nat)
    requires i < size <= buffer.Length
    modifies buffer
    ensures r <= i + 1 && buffer[..r] == Push(old(buffer[..i]), ip) && buffer[size..] == old(buffer[size..])
  {
    hide Collapsed;
    buffer[i] := ip;
    assert buffer[..i + 1] == old(buffer[..i]) + [ip];
    r := Collapse(buffer, i + 1);
  }

  /** The inner loop: the new length after a repeated block at the end is dropped. */
  method Collapse(buffer: array<nat>, i: nat) returns (r: nat)
    requires i <= buffer.Length
    ensures r <= i && buffer[..r] == Collapsed(buffer[..i], 1)
    ensures DroppedExactly(buffer[..i], buffer[..r])
  {
    hide DroppedExactly;
    ghost var s := buffer[..i];
    CollapsedExactly(s, 1);
    var len := 1;
    while i >= 2 * len
      invariant len >= 1 && Collapsed(s, len) == Collapsed(s, 1)
      decreases i - 2 * len
    {
      assert s[i - len..i] == buffer[i - len..i] && s[i - 2 * len..i - len] == buffer[i - 2 * len..i - len];
      if buffer[i - len..i] == buffer[i - 2 * len..i - len] {
        assert s[..i - len] == buffer[..i - len];
        return i - len;
      }
      len := len + 1;
    }
    return i;
  }
}

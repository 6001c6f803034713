/** The tree-pass driver: an explicit stack of tagged slots in place of a recursive traversal. */
module FunctionPass {
  import opened Wrappers

  datatype Vertex<T> = Vertex(op: T, sons: seq<Vertex<T>>)

  /** The callbacks of a pass. They share the state of the pass and act on the vertex they are
      given; user_recursion says whether the driver must leave the sons alone. */
  datatype Pass<!S, !T> = Pass(
    enter: (S, Vertex<T>) -> (S, Vertex<T>),
    userRecursion: (S, Vertex<T>) -> (S, Vertex<T>, bool),
    exit: (S, Vertex<T>) -> (S, Vertex<T>))

  // ----- the recursive form -----

  /** The recursive traversal; none if it is more than `depth` calls deep. */
  function Recurse<S, T>(pass: Pass<S, T>, s: S, v: Vertex<T>, depth: nat): Option<(S, Vertex<T>)>
    decreases depth, 1, 0
  {
    if depth == 0 then None
    else
      var (s1, v1) := pass.enter(s, v);
      var (s2, v2, own) := pass.userRecursion(s1, v1);
      if own then Some(pass.exit(s2, v2))
      else
        match RecurseSons(pass, s2, v2, 0, depth - 1)
        case None => None
        case Some((s3, v3)) => Some(pass.exit(s3, v3))
  }

  /** The loop over the sons from the i-th on, each replaced by its result. */
  function RecurseSons<S, T>(pass: Pass<S, T>, s: S, v: Vertex<T>, i: nat, depth: nat): Option<(S, Vertex<T>)>
    requires i <= |v.sons|
    decreases depth, 2, |v.sons| - i
  {
    if i == |v.sons| then Some((s, v))
    else
      match Recurse(pass, s, v.sons[i], depth)
      case None => None
      case Some((s1, son)) => RecurseSons(pass, s1, v.(sons := v.sons[i := son]), i + 1, depth)
  }

  // ----- slots -----

  /** The address of a slot: the son indices from the root. */
  type Path = seq<nat>

  ghost predicate Has<T>(t: Vertex<T>, p: Path)
    decreases |p|
  {
    p == [] || (p[0] < |t.sons| && Has(t.sons[p[0]], p[1..]))
  }

  function At<T>(t: Vertex<T>, p: Path): Vertex<T>
    requires Has(t, p)
    decreases |p|
  {
    if p == [] then t else At(t.sons[p[0]], p[1..])
  }

  function Put<T>(t: Vertex<T>, p: Path, v: Vertex<T>): Vertex<T>
    requires Has(t, p)
    decreases |p|
  {
    if p == [] then v else t.(sons := t.sons[p[0] := Put(t.sons[p[0]], p[1..], v)])
  }

  lemma {:induction false} PutAt<T>(t: Vertex<T>, p: Path, v: Vertex<T>, w: Vertex<T>)
    requires Has(t, p)
    ensures Has(Put(t, p, v), p) && At(Put(t, p, v), p) == v && Put(Put(t, p, v), p, w) == Put(t, p, w)
    ensures Put(t, p, At(t, p)) == t
    decreases |p|
  {
    if p != [] {
      PutAt(t.sons[p[0]], p[1..], v, w);
    }
  }

  /** The slot of a son of the vertex at p. */
  lemma {:induction false} SonSlot<T>(t: Vertex<T>, p: Path, i: nat, w: Vertex<T>)
    requires Has(t, p) && i < |At(t, p).sons|
    ensures Has(t, p + [i]) && At(t, p + [i]) == At(t, p).sons[i]
    ensures Put(t, p + [i], w) == Put(t, p, At(t, p).(sons := At(t, p).sons[i := w]))
    decreases |p|
  {
    if p != [] {
      assert (p + [i])[1..] == p[1..] + [i];
      SonSlot(t.sons[p[0]], p[1..], i, w);
    } else {
      assert (p + [i])[1..] == [];
    }
  }

  // ----- the explicit stack -----

  /** An entry of the stack; the tag marks a slot that has been entered. */
  datatype Entry = Entry(slot: Path, entered: bool)

  datatype State<S, T> = State(s: S, root: Vertex<T>, stack: seq<Entry>)

  /** The slots of the sons, first son on top. */
  function SonEntries(p: Path, from: nat, n: nat): seq<Entry>
    requires from <= n
  {
    seq(n - from, k requires 0 <= k < n - from => Entry(p + [n - 1 - k], false))
  }

  /** One round of the while loop. */
  function Step<S, T>(pass: Pass<S, T>, st: State<S, T>): State<S, T>
    requires st.stack != [] && Has(st.root, st.stack[|st.stack| - 1].slot)
  {
    var below, e := st.stack[..|st.stack| - 1], st.stack[|st.stack| - 1];
    if e.entered then
      var (s, v) := pass.exit(st.s, At(st.root, e.slot));
      State(s, Put(st.root, e.slot, v), below)
    else
      var (s1, v1) := pass.enter(st.s, At(st.root, e.slot));
      var (s2, v2, own) := pass.userRecursion(s1, v1);
      var stack := below + [Entry(e.slot, true)];
      State(s2, Put(st.root, e.slot, v2), if own then stack else stack + SonEntries(e.slot, 0, |v2.sons|))
  }

  /** n rounds lead from one state to the other, every slot they use exists, and before the end the
      stack stays higher than the floor. */
  ghost predicate Runs<S, T>(pass: Pass<S, T>, st: State<S, T>, n: nat, end: State<S, T>, floor: nat)
    decreases n
  {
    if n == 0 then st == end
    else
      && |st.stack| > floor && Has(st.root, st.stack[|st.stack| - 1].slot)
      && Runs(pass, Step(pass, st), n - 1, end, floor)
  }

  lemma {:induction false} RunsNone<S, T>(pass: Pass<S, T>, a: State<S, T>, floor: nat)
    ensures Runs(pass, a, 0, a, floor)
  {
  }

  lemma {:induction false} RunsThen<S, T>(
    pass: Pass<S, T>, a: State<S, T>, m: nat, b: State<S, T>, n: nat, c: State<S, T>, floor: nat)
    requires Runs(pass, a, m, b, floor) && Runs(pass, b, n, c, floor)
    ensures Runs(pass, a, m + n, c, floor)
    decreases m
  {
    hide Step, Has;
    if m > 0 {
      RunsThen(pass, Step(pass, a), m - 1, b, n, c, floor);
    }
  }

  lemma {:induction false} RunsLower<S, T>(
    pass: Pass<S, T>, a: State<S, T>, n: nat, b: State<S, T>, floor: nat, lower: nat)
    requires Runs(pass, a, n, b, floor) && lower <= floor
    ensures Runs(pass, a, n, b, lower)
    decreases n
  {
    hide Step, Has;
    if n > 0 {
      RunsLower(pass, Step(pass, a), n - 1, b, floor, lower);
    }
  }

  /** A run to below the floor passes through the end of every run above the floor. */
  lemma {:induction false} RunsPast<S, T>(
    pass: Pass<S, T>, a: State<S, T>, m: nat, b: State<S, T>, floor: nat, n: nat, c: State<S, T>, lower: nat)
    requires Runs(pass, a, m, b, floor) && Runs(pass, a, n, c, lower) && |c.stack| <= floor
    ensures m <= n && Runs(pass, b, n - m, c, lower)
    decreases m
  {
    hide Step, Has;
    if m > 0 {
      RunsPast(pass, Step(pass, a), m - 1, b, floor, n - 1, c, lower);
    }
  }

  // ----- both forms agree -----

  /** If the recursion on the top slot ends, the stack machine gets to the slots below with the same
      state and the same vertex in the slot. */
  lemma {:induction false} Simulates<S, T>(
    pass: Pass<S, T>, s: S, root: Vertex<T>, below: seq<Entry>, p: Path, depth: nat)
    returns (n: nat)
    requires Has(root, p) && Recurse(pass, s, At(root, p), depth).Some?
    ensures var r := Recurse(pass, s, At(root, p), depth).value;
      n > 0 && Runs(pass, State(s, root, below + [Entry(p, false)]), n, State(r.0, Put(root, p, r.1), below), |below|)
    decreases depth, 1, 0
  {
    hide Runs, Step, Has, At, Put, RecurseSons;
    var start := State(s, root, below + [Entry(p, false)]);
    var (s1, v1) := pass.enter(s, At(root, p));
    var (s2, v2, own) := pass.userRecursion(s1, v1);
    PutAt(root, p, v2, v2);
    var root2 := Put(root, p, v2);
    var marked := below + [Entry(p, true)];
    EnterStep(pass, s, root, below, p);
    if own {
      ExitStep(pass, s2, root2, below, p);
      var (s4, v4) := pass.exit(s2, v2);
      PutAt(root, p, v2, v4);
      RunsThen(pass, start, 1, State(s2, root2, marked), 1, State(s4, Put(root, p, v4), below), |below|);
      n := 2;
    } else {
      var k := SimulatesSons(pass, s2, root2, marked, p, 0, depth - 1);
      var (s3, v3) := RecurseSons(pass, s2, v2, 0, depth - 1).value;
      var (s4, v4) := pass.exit(s3, v3);
      PutAt(root, p, v2, v3);
      PutAt(root, p, v3, v4);
      ExitStep(pass, s3, Put(root, p, v3), below, p);
      var middle := State(s3, Put(root, p, v3), marked);
      var sons := State(s2, root2, marked + SonEntries(p, 0, |v2.sons|));
      RunsLower(pass, sons, k, middle, |marked|, |below|);
      RunsThen(pass, start, 1, sons, k, middle, |below|);
      RunsThen(pass, start, 1 + k, middle, 1, State(s4, Put(root, p, v4), below), |below|);
      n := 2 + k;
    }
  }

  lemma {:induction false} EnterStep<S, T>(pass: Pass<S, T>, s: S, root: Vertex<T>, below: seq<Entry>, p: Path)
    requires Has(root, p)
    ensures var (s1, v1) := pass.enter(s, At(root, p));
      var (s2, v2, own) := pass.userRecursion(s1, v1);
      var marked := below + [Entry(p, true)];
      Runs(pass, State(s, root, below + [Entry(p, false)]), 1,
           State(s2, Put(root, p, v2), if own then marked else marked + SonEntries(p, 0, |v2.sons|)), |below|)
  {
    var st := State(s, root, below + [Entry(p, false)]);
    assert st.stack[|st.stack| - 1] == Entry(p, false) && st.stack[..|st.stack| - 1] == below;
    RunsNone(pass, Step(pass, st), |below|);
  }

  lemma {:induction false} ExitStep<S, T>(pass: Pass<S, T>, s: S, root: Vertex<T>, below: seq<Entry>, p: Path)
    requires Has(root, p)
    ensures var (s', v) := pass.exit(s, At(root, p));
      Runs(pass, State(s, root, below + [Entry(p, true)]), 1, State(s', Put(root, p, v), below), |below|)
  {
    var st := State(s, root, below + [Entry(p, true)]);
    assert st.stack[|st.stack| - 1] == Entry(p, true) && st.stack[..|st.stack| - 1] == below;
    var (s', v) := pass.exit(s, At(root, p));
    assert Runs(pass, Step(pass, st), 0, State(s', Put(root, p, v), below), |below|);
  }

  lemma {:induction false} SimulatesSons<S, T>(
    pass: Pass<S, T>, s: S, root: Vertex<T>, below: seq<Entry>, p: Path, i: nat, depth: nat)
    returns (n: nat)
    requires Has(root, p) && i <= |At(root, p).sons| && RecurseSons(pass, s, At(root, p), i, depth).Some?
    ensures var r := RecurseSons(pass, s, At(root, p), i, depth).value;
      Runs(pass, State(s, root, below + SonEntries(p, i, |At(root, p).sons|)), n,
           State(r.0, Put(root, p, r.1), below), |below|)
    decreases depth, 2, |At(root, p).sons| - i
  {
    hide Runs, Step, Has, At, Put;
    var v := At(root, p);
    var m := |v.sons|;
    if i == m {
      assert below + SonEntries(p, i, m) == below;
      PutAt(root, p, v, v);
      n := 0;
      RunsNone(pass, State(s, root, below), |below|);
    } else {
      SonSlot(root, p, i, v.sons[i]);
      var rest := below + SonEntries(p, i + 1, m);
      assert below + SonEntries(p, i, m) == rest + [Entry(p + [i], false)];
      var a := Simulates(pass, s, root, rest, p + [i], depth);
      var (s1, son) := Recurse(pass, s, v.sons[i], depth).value;
      SonSlot(root, p, i, son);
      var v1 := v.(sons := v.sons[i := son]);
      PutAt(root, p, v1, v1);
      var root1 := Put(root, p, v1);
      var b := SimulatesSons(pass, s1, root1, below, p, i + 1, depth);
      var (s2, v2) := RecurseSons(pass, s1, v1, i + 1, depth).value;
      PutAt(root, p, v1, v2);
      var start, middle := State(s, root, below + SonEntries(p, i, m)), State(s1, root1, rest);
      RunsLower(pass, start, a, middle, |rest|, |below|);
      RunsThen(pass, start, a, middle, b, State(s2, Put(root, p, v2), below), |below|);
      n := a + b;
    }
  }

  /** run_function_pass with the explicit stack: whenever the recursive traversal ends, the loop ends
      with the same state of the pass and the same tree. */
  method RunFunctionPass<S, T>(pass: Pass<S, T>, s: S, root: Vertex<T>, ghost depth: nat)
    returns (s': S, root': Vertex<T>)
    requires Recurse(pass, s, root, depth).Some?
    ensures (s', root') == Recurse(pass, s, root, depth).value
  {
    hide Recurse, Step;
    var st := State(s, root, [Entry([], false)]);
    ghost var left := Simulates(pass, s, root, [], [], depth);
    ghost var end := State(Recurse(pass, s, root, depth).value.0, Recurse(pass, s, root, depth).value.1, []);
    assert [] + [Entry([], false)] == [Entry([], false)];
    while st.stack != []
      invariant Runs(pass, st, left, end, 0)
      decreases left
    {
      st := Step(pass, st);
      left := left - 1;
    }
    s', root' := st.s, st.root;
  }

  // ----- and one ends exactly when the other does -----

  lemma {:induction false} Deeper<S, T>(pass: Pass<S, T>, s: S, v: Vertex<T>, depth: nat, more: nat)
    requires Recurse(pass, s, v, depth).Some? && depth <= more
    ensures Recurse(pass, s, v, more) == Recurse(pass, s, v, depth)
    decreases depth, 1, 0
  {
    var (s1, v1) := pass.enter(s, v);
    var (s2, v2, own) := pass.userRecursion(s1, v1);
    if !own {
      DeeperSons(pass, s2, v2, 0, depth - 1, more - 1);
    }
  }

  lemma {:induction false} DeeperSons<S, T>(pass: Pass<S, T>, s: S, v: Vertex<T>, i: nat, depth: nat, more: nat)
    requires i <= |v.sons| && RecurseSons(pass, s, v, i, depth).Some? && depth <= more
    ensures RecurseSons(pass, s, v, i, more) == RecurseSons(pass, s, v, i, depth)
    decreases depth, 2, |v.sons| - i
  {
    if i < |v.sons| {
      Deeper(pass, s, v.sons[i], depth, more);
      var (s1, son) := Recurse(pass, s, v.sons[i], depth).value;
      DeeperSons(pass, s1, v.(sons := v.sons[i := son]), i + 1, depth, more);
    }
  }

  /** If the stack machine gets below a slot, the recursion on that slot ends. */
  lemma {:induction false} Ends<S, T>(
    pass: Pass<S, T>, s: S, root: Vertex<T>, below: seq<Entry>, p: Path, n: nat, end: State<S, T>, floor: nat)
    returns (depth: nat)
    requires Has(root, p) && floor <= |below| && |end.stack| <= |below|
    requires Runs(pass, State(s, root, below + [Entry(p, false)]), n, end, floor)
    ensures Recurse(pass, s, At(root, p), depth).Some?
    decreases n, 0, 0
  {
    hide Runs, Step, Has, At, Put, RecurseSons;
    var start := State(s, root, below + [Entry(p, false)]);
    var (s1, v1) := pass.enter(s, At(root, p));
    var (s2, v2, own) := pass.userRecursion(s1, v1);
    EnterStep(pass, s, root, below, p);
    if own {
      depth := 1;
    } else {
      PutAt(root, p, v2, v2);
      var marked := below + [Entry(p, true)];
      var sons := State(s2, Put(root, p, v2), marked + SonEntries(p, 0, |v2.sons|));
      RunsPast(pass, start, 1, sons, |below|, n, end, floor);
      depth := EndsSons(pass, s2, Put(root, p, v2), marked, p, 0, n - 1, end, floor);
      depth := depth + 1;
    }
  }

  lemma {:induction false} EndsSons<S, T>(
    pass: Pass<S, T>, s: S, root: Vertex<T>, below: seq<Entry>, p: Path, i: nat, n: nat, end: State<S, T>,
    floor: nat)
    returns (depth: nat)
    requires Has(root, p) && i <= |At(root, p).sons| && floor <= |below| && |end.stack| <= |below|
    requires Runs(pass, State(s, root, below + SonEntries(p, i, |At(root, p).sons|)), n, end, floor)
    ensures RecurseSons(pass, s, At(root, p), i, depth).Some?
    decreases n, 1, |At(root, p).sons| - i
  {
    hide Runs, Step, Has, At, Put, Recurse;
    var v := At(root, p);
    var m := |v.sons|;
    if i == m {
      return 0;
    }
    SonSlot(root, p, i, v.sons[i]);
    var rest := below + SonEntries(p, i + 1, m);
    var start := State(s, root, below + SonEntries(p, i, m));
    assert start.stack == rest + [Entry(p + [i], false)];
    var d := Ends(pass, s, root, rest, p + [i], n, end, floor);
    var a := Simulates(pass, s, root, rest, p + [i], d);
    var (s1, son) := Recurse(pass, s, v.sons[i], d).value;
    SonSlot(root, p, i, son);
    var v1 := v.(sons := v.sons[i := son]);
    PutAt(root, p, v1, v1);
    RunsPast(pass, start, a, State(s1, Put(root, p, v1), rest), |rest|, n, end, floor);
    var d' := EndsSons(pass, s1, Put(root, p, v1), below, p, i + 1, n - a, end, floor);
    depth := if d < d' then d' else d;
    Deeper(pass, s, v.sons[i], d, depth);
    DeeperSons(pass, s1, v1, i + 1, d', depth);
  }

  /** The loop empties its stack exactly when the recursion ends. */
  lemma EndTogether<S(!new), T(!new)>(pass: Pass<S, T>, s: S, root: Vertex<T>)
    ensures (exists depth :: Recurse(pass, s, root, depth).Some?)
       <==> (exists n, end :: Runs(pass, State(s, root, [Entry([], false)]), n, end, 0) && end.stack == [])
  {
    assert [] + [Entry([], false)] == [Entry([], false)];
    if depth :| Recurse(pass, s, root, depth).Some? {
      var n := Simulates(pass, s, root, [], [], depth);
    }
    if n, end :| Runs(pass, State(s, root, [Entry([], false)]), n, end, 0) && end.stack == [] {
      var depth := Ends(pass, s, root, [], [], n, end, 0);
    }
  }

  // ----- the order of the visits -----

  datatype Event<T> = Enters(op: T) | Leaves(op: T)

  /** A pass that writes down which vertices it enters and leaves, and handles some by itself. */
  function Logging<T>(own: T -> bool): Pass<seq<Event<T>>, T> {
    Pass(
      (s: seq<Event<T>>, v: Vertex<T>) => (s + [Enters(v.op)], v),
      (s: seq<Event<T>>, v: Vertex<T>) => (s, v, own(v.op)),
      (s: seq<Event<T>>, v: Vertex<T>) => (s + [Leaves(v.op)], v))
  }

  /** A vertex is entered, then its sons are visited from the first to the last, then it is left. */
  function Visits<T>(own: T -> bool, v: Vertex<T>): seq<Event<T>>
    decreases v
  {
    [Enters(v.op)] + (if own(v.op) then [] else VisitsAll(own, v.sons)) + [Leaves(v.op)]
  }

  function VisitsAll<T>(own: T -> bool, vs: seq<Vertex<T>>): seq<Event<T>>
    decreases vs
  {
    if vs == [] then [] else Visits(own, vs[0]) + VisitsAll(own, vs[1..])
  }

  function Height<T>(v: Vertex<T>): nat
    decreases v
  {
    1 + HeightAll(v.sons)
  }

  function HeightAll<T>(vs: seq<Vertex<T>>): nat
    decreases vs
  {
    if vs == [] then 0
    else
      var a, b := Height(vs[0]), HeightAll(vs[1..]);
      if a < b then b else a
  }

  lemma LoggingIs<T>(own: T -> bool, s: seq<Event<T>>, v: Vertex<T>)
    ensures Logging(own).enter(s, v) == (s + [Enters(v.op)], v) && Logging(own).exit(s, v) == (s + [Leaves(v.op)], v)
    ensures Logging(own).userRecursion(s, v) == (s, v, own(v.op))
  {
  }

  /** The traversal visits all vertices in this order, and so does the one with the stack. */
  lemma {:induction false} RecurseVisits<T>(own: T -> bool, s: seq<Event<T>>, v: Vertex<T>, depth: nat)
    requires depth >= Height(v)
    ensures Recurse(Logging(own), s, v, depth) == Some((s + Visits(own, v), v))
    decreases v, 1
  {
    hide Logging;
    var s1 := s + [Enters(v.op)];
    LoggingIs(own, s, v);
    LoggingIs(own, s1, v);
    if own(v.op) {
      assert s + Visits(own, v) == s1 + [Leaves(v.op)];
    } else {
      SonsVisited(own, s1, v, 0, depth - 1);
      LoggingIs(own, s1 + VisitsAll(own, v.sons), v);
      assert v.sons[0..] == v.sons;
      assert s + Visits(own, v) == s1 + VisitsAll(own, v.sons) + [Leaves(v.op)];
    }
  }

  lemma {:induction false} SonsVisited<T>(own: T -> bool, s: seq<Event<T>>, v: Vertex<T>, i: nat, depth: nat)
    requires i <= |v.sons| && depth >= HeightAll(v.sons[i..])
    ensures RecurseSons(Logging(own), s, v, i, depth) == Some((s + VisitsAll(own, v.sons[i..]), v))
    decreases v, 0, |v.sons| - i
  {
    hide Logging, Recurse;
    var rest := v.sons[i..];
    if i == |v.sons| {
      assert s + VisitsAll(own, rest) == s;
    } else {
      assert rest[0] == v.sons[i] && rest[1..] == v.sons[i + 1..];
      RecurseVisits(own, s, v.sons[i], depth);
      var s1 := s + Visits(own, v.sons[i]);
      assert v.sons[i := v.sons[i]] == v.sons;
      SonsVisited(own, s1, v, i + 1, depth);
      assert s1 + VisitsAll(own, rest[1..]) == s + VisitsAll(own, rest);
    }
  }
}

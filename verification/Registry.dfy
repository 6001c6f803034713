/** The registry of functions: steps that require a function by name and steps that register one,
    each under the lock of the name's node, in any interleaving. */
module Registry {
  import opened Wrappers

  datatype Func = Func(id: nat, name: string)

  /** A node of the table; Awaited is the mark of a function that is required but not yet there. */
  datatype Node = Empty | Awaited | Known(f: Func)

  datatype State = State(nodes: map<string, Node>, required: set<Func>, emitted: seq<Func>)

  datatype Op = Require(name: string) | Register(f: Func, force: bool)

  const INITIAL := State(map[], {}, [])

  function At(s: State, name: string): Node {
    if name in s.nodes then s.nodes[name] else Empty
  }

  /** Sends a function downstream the first time it is required. */
  function Deliver(s: State, f: Func): State {
    if f in s.required then s else State(s.nodes, s.required + {f}, s.emitted + [f])
  }

  function Step(s: State, op: Op): State {
    match op
    case Require(name) =>
      (match At(s, name)
       case Empty => s.(nodes := s.nodes[name := Awaited])
       case Awaited => s
       case Known(f) => Deliver(s, f))
    case Register(f, force) =>
      var t := s.(nodes := s.nodes[f.name := Known(f)]);
      if At(s, f.name) == Awaited || force then Deliver(t, f) else t
  }

  function Run(ops: seq<Op>): State {
    if ops == [] then INITIAL else Step(Run(ops[..|ops| - 1]), ops[|ops| - 1])
  }

  function Get(s: State, name: string): Option<Func> {
    match At(s, name) case Known(f) => Some(f) case _ => None
  }

  // ----- what a run asks for -----

  predicate Required(ops: seq<Op>, name: string) {
    Require(name) in ops
  }

  predicate Registered(ops: seq<Op>, f: Func) {
    Register(f, true) in ops || Register(f, false) in ops
  }

  predicate Declared(ops: seq<Op>, name: string) {
    exists i :: 0 <= i < |ops| && ops[i].Register? && ops[i].f.name == name
  }

  /** No name is registered twice. */
  predicate NoRedeclaration(ops: seq<Op>) {
    forall i, j :: 0 <= i < j < |ops| && ops[i].Register? && ops[j].Register? ==> ops[i].f.name != ops[j].f.name
  }

  predicate Wanted(ops: seq<Op>, f: Func) {
    Register(f, true) in ops || (Register(f, false) in ops && Required(ops, f.name))
  }

  predicate Distinct(s: seq<Func>) {
    forall i, j :: 0 <= i < j < |s| ==> s[i] != s[j]
  }

  /** In every run, even with redeclarations, no function is sent twice. */
  lemma {:induction false} EmittedOnce(ops: seq<Op>)
    ensures Distinct(Run(ops).emitted)
    ensures forall f :: f in Run(ops).required <==> f in Run(ops).emitted
  {
    if ops != [] {
      EmittedOnce(ops[..|ops| - 1]);
    }
  }

  /** What a node holds after a run. */
  predicate Explained(ops: seq<Op>, name: string, n: Node) {
    match n
    case Empty => !Required(ops, name) && !Declared(ops, name)
    case Awaited => Required(ops, name) && !Declared(ops, name)
    case Known(f) => f.name == name && Registered(ops, f)
  }

  lemma {:induction false} NodesExplained(ops: seq<Op>, name: string)
    requires NoRedeclaration(ops)
    ensures Explained(ops, name, At(Run(ops), name))
  {
    if ops != [] {
      var before, op := ops[..|ops| - 1], ops[|ops| - 1];
      assert ops == before + [op];
      NodesExplained(before, name);
      hide Run, Required, Declared, Registered;
      LastStep(before, op);
      More(before, op, name);
      NodeStep(Run(before), op, name);
      if At(Run(before), name).Known? {
        RegisteredMore(before, op, At(Run(before), name).f);
        DeclaredOnce(before, op, At(Run(before), name).f);
      }
      if op.Register? {
        RegisteredMore(before, op, op.f);
      }
    }
  }

  lemma LastStep(ops: seq<Op>, op: Op)
    ensures Run(ops + [op]) == Step(Run(ops), op)
  {
    assert (ops + [op])[..|ops|] == ops;
  }

  /** What a step does to a node. */
  lemma NodeStep(s: State, op: Op, name: string)
    ensures At(Step(s, op), name) ==
            if op.Register? && op.f.name == name then Known(op.f)
            else if op == Require(name) && At(s, name) == Empty then Awaited
            else At(s, name)
  {
  }

  lemma {:induction false} More(ops: seq<Op>, op: Op, name: string)
    ensures Required(ops + [op], name) == (Required(ops, name) || op == Require(name))
    ensures Declared(ops + [op], name) == (Declared(ops, name) || (op.Register? && op.f.name == name))
  {
    var all := ops + [op];
    assert all[|ops|] == op && forall i :: 0 <= i < |ops| ==> all[i] == ops[i];
  }

  lemma RegisteredMore(ops: seq<Op>, op: Op, f: Func)
    ensures Registered(ops + [op], f) == (Registered(ops, f) || op == Register(f, true) || op == Register(f, false))
  {
  }

  /** A registered name is not registered again. */
  lemma {:induction false} DeclaredOnce(ops: seq<Op>, op: Op, f: Func)
    requires NoRedeclaration(ops + [op]) && Registered(ops, f)
    ensures op.Register? ==> op.f.name != f.name
    ensures Declared(ops, f.name)
  {
    var all := ops + [op];
    var i :| 0 <= i < |ops| && ops[i].Register? && ops[i].f == f;
    assert all[i] == ops[i] && all[|ops|] == op;
  }

  /** At most one function has a name. */
  lemma {:induction false} OneFunction(ops: seq<Op>, f: Func, g: Func)
    requires NoRedeclaration(ops) && Registered(ops, f) && Registered(ops, g) && f.name == g.name
    ensures f == g
  {
    var i :| 0 <= i < |ops| && ops[i].Register? && ops[i].f == f;
    var j :| 0 <= j < |ops| && ops[j].Register? && ops[j].f == g;
  }

  /** A function is sent if and only if it is registered and either forced or required by some
      step, before or after. */
  lemma {:induction false} EmittedExactly(ops: seq<Op>, f: Func)
    requires NoRedeclaration(ops)
    ensures f in Run(ops).emitted <==> Wanted(ops, f)
  {
    hide Run, Wanted;
    EmittedOnce(ops);
    RequiredExactly(ops, f);
  }

  lemma {:induction false} RequiredExactly(ops: seq<Op>, f: Func)
    requires NoRedeclaration(ops)
    ensures f in Run(ops).required <==> Wanted(ops, f)
  {
    if ops != [] {
      var before, op := ops[..|ops| - 1], ops[|ops| - 1];
      assert ops == before + [op];
      RequiredExactly(before, f);
      hide Run, Explained, Wanted;
      LastStep(before, op);
      if op.Require? {
        RequireDelivers(before, op.name, f);
      } else {
        RegisterDelivers(before, op, f);
      }
    }
  }

  lemma WantedMore(ops: seq<Op>, op: Op, f: Func)
    ensures Wanted(ops + [op], f) <==>
              || Register(f, true) in ops || op == Register(f, true)
              || ((Register(f, false) in ops || op == Register(f, false))
                  && (Required(ops, f.name) || op == Require(f.name)))
  {
    More(ops, op, f.name);
  }

  lemma {:induction false} RequireDelivers(ops: seq<Op>, name: string, f: Func)
    requires NoRedeclaration(ops) && (f in Run(ops).required <==> Wanted(ops, f))
    ensures f in Step(Run(ops), Require(name)).required <==> Wanted(ops + [Require(name)], f)
  {
    hide Run;
    WantedMore(ops, Require(name), f);
    NodesExplained(ops, name);
    var n := At(Run(ops), name);
    if Registered(ops, f) && f.name == name {
      DeclaredOnce(ops, Require(name), f);
      if n.Known? {
        OneFunction(ops, n.f, f);
      }
    }
  }

  lemma {:induction false} RegisterDelivers(ops: seq<Op>, op: Op, f: Func)
    requires op.Register? && NoRedeclaration(ops + [op]) && (f in Run(ops).required <==> Wanted(ops, f))
    ensures f in Step(Run(ops), op).required <==> Wanted(ops + [op], f)
  {
    hide Run, Declared;
    assert NoRedeclaration(ops) by {
      assert forall i :: 0 <= i < |ops| ==> (ops + [op])[i] == ops[i];
    }
    WantedMore(ops, op, f);
    NodesExplained(ops, op.f.name);
    if Registered(ops, f) {
      DeclaredOnce(ops, op, f);
    }
    var n := At(Run(ops), op.f.name);
    if n.Known? {
      DeclaredOnce(ops, op, n.f);
    }
  }

  /** Which functions are sent does not depend on the order of the steps. */
  lemma {:induction false} OrderDoesNotMatter(a: seq<Op>, b: seq<Op>, f: Func)
    requires NoRedeclaration(a) && NoRedeclaration(b) && forall op :: op in a <==> op in b
    ensures f in Run(a).emitted <==> f in Run(b).emitted
  {
    hide Run;
    EmittedExactly(a, f);
    EmittedExactly(b, f);
  }

  /** Get finds exactly the registered function, never the mark. */
  lemma {:induction false} GetExactly(ops: seq<Op>, f: Func)
    requires NoRedeclaration(ops)
    ensures Get(Run(ops), f.name) == Some(f) <==> Registered(ops, f)
  {
    hide Run, Declared;
    NodesExplained(ops, f.name);
    if Registered(ops, f) {
      DeclaredOnce(ops, Require(f.name), f);
      var n := At(Run(ops), f.name);
      if n.Known? {
        OneFunction(ops, n.f, f);
      }
    }
  }

  /** Once a function is found by its name, every longer run without redeclaration finds it. */
  lemma {:induction false} FoundForever(ops: seq<Op>, more: seq<Op>, f: Func)
    requires NoRedeclaration(ops + more) && Get(Run(ops), f.name) == Some(f)
    ensures Get(Run(ops + more), f.name) == Some(f)
  {
    hide Run;
    assert NoRedeclaration(ops) by {
      assert forall i :: 0 <= i < |ops| ==> (ops + more)[i] == ops[i];
    }
    GetExactly(ops, f);
    GetExactly(ops + more, f);
  }

  /** One step loses a function that is found if and only if it registers another one of its name. */
  lemma LostOnlyByRedeclaration(s: State, op: Op, f: Func)
    requires Get(s, f.name) == Some(f)
    ensures Get(Step(s, op), f.name) == Some(f) <==> !(op.Register? && op.f.name == f.name && op.f != f)
  {
    NodeStep(s, op, f.name);
  }

  class CompilerCore {
    var functions: map<string, Node>
    var isRequired: set<Func>
    var os: seq<Func>

    ghost function Abs(): State
      reads this
    {
      State(functions, isRequired, os)
    }

    constructor ()
      ensures Abs() == INITIAL
    {
      functions, isRequired, os := map[], {}, [];
    }

    method RequireFunction(f: Func)
      modifies this
      ensures Abs() == Deliver(old(Abs()), f)
    {
      if f !in isRequired {
        isRequired := isRequired + {f};
        os := os + [f];
      }
    }

    method RequireByName(name: string)
      modifies this
      ensures Abs() == Step(old(Abs()), Require(name))
    {
      var node := if name in functions then functions[name] else Empty;
      if node == Empty {
        functions := functions[name := Awaited];
      } else if node != Awaited {
        RequireFunction(node.f);
      }
    }

    /** The result tells a redeclaration, which is reported and then carried out. */
    method RegisterAndRequire(f: Func, force: bool) returns (redeclared: bool)
      modifies this
      ensures Abs() == Step(old(Abs()), Register(f, force))
      ensures redeclared == old(At(Abs(), f.name)).Known?
    {
      var node := if f.name in functions then functions[f.name] else Empty;
      redeclared := node.Known?;
      functions := functions[f.name := Known(f)];
      if node == Awaited || force {
        RequireFunction(f);
      }
    }

    method GetFunction(name: string) returns (r: Option<Func>)
      ensures r == Get(Abs(), name)
    {
      if name !in functions || functions[name] == Empty || functions[name] == Awaited {
        return None;
      }
      return Some(functions[name].f);
    }
  }
}

/** Closure conversion: a lambda becomes a function that takes its captured variables as extra
    leading parameters, and a class whose fields hold the captured values. */
module Closures {

  type Name = string

  const THIS: Name := "this"
  const CAPTURED_THIS: Name := "captured$this"

  datatype Param = Param(name: Name, variadic: bool)

  /** Expressions of the source language, and function bodies. */
  datatype Expr =
    | Const(n: int)
    | Var(x: Name)
    | Set(x: Name, e: Expr)
    | Prim(op: int, left: Expr, right: Expr)
    | Seq(first: Expr, second: Expr)
    | If(cond: Expr, yes: Expr, no: Expr)
    | Lambda(lam: Lam)
    | Invoke(callee: Expr, args: seq<Expr>)

  /** A lambda: arrow functions see the whole outer scope, others only what `use` lists. */
  datatype Lam = Lam(arrow: bool, params: seq<Param>, uses: seq<Name>, body: Expr)

  // ----- names -----

  /** Static fields and superglobals: the same in every scope. */
  predicate Global(x: Name) {
    || (exists k :: 0 <= k < |x| - 1 && x[k] == ':' && x[k + 1] == ':')
    || x in {"_SERVER", "_GET", "_POST", "_ENV", "_FILES", "_COOKIE", "_REQUEST"}
  }

  /** Temporaries the compiler made: each belongs to the function it was made for. */
  predicate Temporary(x: Name) {
    exists k :: 0 <= k < |x| - 1 && x[k] == '$' && x[k + 1] == 'u'
  }

  function Names(params: seq<Param>): (r: set<Name>)
  {
    set p | p in params :: p.name
  }

  function Elements(s: seq<Name>): set<Name> {
    set x | x in s
  }

  /** The variables an expression mentions; a lambda mentions the variables it captures. */
  function Vars(e: Expr): set<Name> {
    match e
    case Const(_) => {}
    case Var(x) => {x}
    case Set(x, a) => {x} + Vars(a)
    case Prim(_, a, b) => Vars(a) + Vars(b)
    case Seq(a, b) => Vars(a) + Vars(b)
    case If(a, b, c) => Vars(a) + Vars(b) + Vars(c)
    case Lambda(lam) => Elements(lam.uses)
    case Invoke(f, args) => Vars(f) + VarsOf(args)
  }

  function VarsOf(es: seq<Expr>): set<Name> {
    if es == [] then {} else Vars(es[0]) + VarsOf(es[1..])
  }

  // ----- automatic capture -----

  /** A search in a string. */
  predicate Contains(x: Name, part: string)
    decreases |x|
  {
    part <= x || (x != [] && Contains(x[1..], part))
  }

  const SUPERGLOBALS: seq<Name> := ["_SERVER", "_GET", "_POST", "_ENV", "_FILES", "_COOKIE", "_REQUEST"]

  /** needs_to_be_captured. */
  predicate Needed(x: Name, params: seq<Param>, uses: seq<Name>) {
    && x != THIS && !Contains(x, "::") && !Contains(x, "$u") && x !in SUPERGLOBALS
    && x !in Names(params) && x !in uses
  }

  lemma {:induction false} ContainsTwo(x: Name, a: char, b: char)
    ensures Contains(x, [a, b]) <==> exists k :: 0 <= k < |x| - 1 && x[k] == a && x[k + 1] == b
  {
    if x != [] {
      ContainsTwo(x[1..], a, b);
      if [a, b] <= x {
        assert x[0] == a && x[1] == b;
      }
      if k :| 0 <= k < |x| - 1 && x[k] == a && x[k + 1] == b {
        if k == 0 {
          assert [a, b] <= x;
        } else {
          assert x[1..][k - 1] == a && x[1..][k] == b;
        }
      }
      if k :| 0 <= k < |x[1..]| - 1 && x[1..][k] == a && x[1..][k + 1] == b {
        assert x[k + 1] == a && x[k + 2] == b;
      }
    }
  }

  /** A variable of the outer scope that has to be captured. */
  predicate Outer(x: Name, params: seq<Param>, uses: seq<Name>) {
    x != THIS && !Global(x) && !Temporary(x) && x !in Names(params) && x !in uses
  }

  lemma {:induction false} NeededIs(x: Name, params: seq<Param>, uses: seq<Name>)
    ensures Needed(x, params, uses) <==> Outer(x, params, uses)
  {
    hide Contains;
    ContainsTwo(x, ':', ':');
    ContainsTwo(x, '$', 'u');
  }

  function CaptureOne(x: Name, params: seq<Param>, uses: seq<Name>): seq<Name> {
    if Needed(x, params, uses) then [x] + uses else uses
  }

  function CaptureAll(xs: seq<Name>, params: seq<Param>, uses: seq<Name>): seq<Name>
    decreases |xs|
  {
    if xs == [] then uses else CaptureAll(xs[1..], params, CaptureOne(xs[0], params, uses))
  }

  /** find_recursive of auto_capture_vars_from_body_in_arrow_lambda: what the list of captured
      variables is after walking e. */
  function Capture(e: Expr, params: seq<Param>, uses: seq<Name>): seq<Name> {
    match e
    case Const(_) => uses
    case Var(x) => CaptureOne(x, params, uses)
    case Set(x, a) => Capture(a, params, CaptureOne(x, params, uses))
    case Prim(_, a, b) => Capture(b, params, Capture(a, params, uses))
    case Seq(a, b) => Capture(b, params, Capture(a, params, uses))
    case If(a, b, c) => Capture(c, params, Capture(b, params, Capture(a, params, uses)))
    case Lambda(lam) => CaptureAll(lam.uses, params, uses)
    case Invoke(f, args) => CaptureList(args, params, Capture(f, params, uses))
  }

  function CaptureList(es: seq<Expr>, params: seq<Param>, uses: seq<Name>): seq<Name> {
    if es == [] then uses else CaptureList(es[1..], params, Capture(es[0], params, uses))
  }

  ghost predicate NoDuplicates(s: seq<Name>) {
    forall i, j :: 0 <= i < j < |s| ==> s[i] != s[j]
  }

  /** What capturing a set of mentioned names does to the list: it keeps what is there, adds every
      name that has to be captured and nothing else, and never adds a name twice. */
  ghost predicate Captures(names: set<Name>, params: seq<Param>, uses: seq<Name>, r: seq<Name>) {
    && (NoDuplicates(uses) ==> NoDuplicates(r))
    && (forall x :: x in r <==> x in uses || (x in names && Outer(x, params, uses)))
  }

  lemma CaptureOneIs(x: Name, params: seq<Param>, uses: seq<Name>)
    ensures Captures({x}, params, uses, CaptureOne(x, params, uses))
  {
    hide Global, Temporary, Names, Needed;
    NeededIs(x, params, uses);
  }

  lemma CapturesThen(a: set<Name>, b: set<Name>, params: seq<Param>, u: seq<Name>, v: seq<Name>, w: seq<Name>)
    requires Captures(a, params, u, v) && Captures(b, params, v, w)
    ensures Captures(a + b, params, u, w)
  {
    hide Global, Temporary, Names, NoDuplicates;
  }

  lemma {:induction false} CaptureAllIs(xs: seq<Name>, params: seq<Param>, uses: seq<Name>)
    ensures Captures(Elements(xs), params, uses, CaptureAll(xs, params, uses))
    decreases |xs|
  {
    hide Needed;
    if xs != [] {
      var v := CaptureOne(xs[0], params, uses);
      CaptureOneIs(xs[0], params, uses);
      CaptureAllIs(xs[1..], params, v);
      CapturesThen({xs[0]}, Elements(xs[1..]), params, uses, v, CaptureAll(xs, params, uses));
      assert Elements(xs) == {xs[0]} + Elements(xs[1..]);
    }
  }

  /** The walk captures exactly the mentioned variables that have to be captured. */
  lemma {:induction false} CaptureIs(e: Expr, params: seq<Param>, uses: seq<Name>)
    ensures Captures(Vars(e), params, uses, Capture(e, params, uses))
    decreases e, 0
  {
    hide Captures, CaptureOne, CaptureAll;
    match e
    case Const(_) => CaptureNothing(params, uses);
    case Var(x) => CaptureOneIs(x, params, uses);
    case Set(x, a) =>
      var v := CaptureOne(x, params, uses);
      CaptureOneIs(x, params, uses);
      CaptureIs(a, params, v);
      CapturesThen({x}, Vars(a), params, uses, v, Capture(e, params, uses));
    case Prim(_, a, b) =>
      var v := Capture(a, params, uses);
      CaptureIs(a, params, uses);
      CaptureIs(b, params, v);
      CapturesThen(Vars(a), Vars(b), params, uses, v, Capture(e, params, uses));
    case Seq(a, b) =>
      var v := Capture(a, params, uses);
      CaptureIs(a, params, uses);
      CaptureIs(b, params, v);
      CapturesThen(Vars(a), Vars(b), params, uses, v, Capture(e, params, uses));
    case If(a, b, c) =>
      var v := Capture(a, params, uses);
      var w := Capture(b, params, v);
      CaptureIs(a, params, uses);
      CaptureIs(b, params, v);
      CaptureIs(c, params, w);
      CapturesThen(Vars(a), Vars(b), params, uses, v, w);
      CapturesThen(Vars(a) + Vars(b), Vars(c), params, uses, w, Capture(e, params, uses));
    case Lambda(lam) => CaptureAllIs(lam.uses, params, uses);
    case Invoke(f, args) =>
      var v := Capture(f, params, uses);
      CaptureIs(f, params, uses);
      CaptureListIs(args, params, v);
      CapturesThen(Vars(f), VarsOf(args), params, uses, v, Capture(e, params, uses));
  }

  /** The same, read off the characters of the names. */
  lemma {:induction false} CaptureExactly(e: Expr, params: seq<Param>, uses: seq<Name>, x: Name)
    ensures x in Capture(e, params, uses) <==>
            || x in uses
            || (&& x in Vars(e)
                && x !in ["this", "_SERVER", "_GET", "_POST", "_ENV", "_FILES", "_COOKIE", "_REQUEST"]
                && (forall k :: 0 <= k < |x| - 1 ==> !(x[k] == ':' && x[k + 1] == ':'))
                && (forall k :: 0 <= k < |x| - 1 ==> !(x[k] == '$' && x[k + 1] == 'u'))
                && forall p :: p in params ==> p.name != x)
  {
    hide Capture, Vars;
    CaptureIs(e, params, uses);
  }

  /** An ordinary name, without colons and dollar signs, is captured wherever the body mentions it. */
  lemma {:induction false} OrdinaryCaptured(e: Expr, params: seq<Param>, uses: seq<Name>, x: Name)
    requires x in Vars(e) && ':' !in x && '$' !in x && forall p :: p in params ==> p.name != x
    requires x !in ["this", "_SERVER", "_GET", "_POST", "_ENV", "_FILES", "_COOKIE", "_REQUEST"]
    ensures x in Capture(e, params, uses)
  {
    hide Capture, Vars;
    CaptureExactly(e, params, uses, x);
  }

  /** A name with "$u" or "::" at some place is never added. */
  lemma {:induction false} MarkedNotCaptured(e: Expr, params: seq<Param>, uses: seq<Name>, x: Name, k: nat)
    requires k + 2 <= |x| && (x[k..k + 2] == "$u" || x[k..k + 2] == "::") && x !in uses
    ensures x !in Capture(e, params, uses)
  {
    hide Capture, Vars;
    assert x[k] == x[k..k + 2][0] && x[k + 1] == x[k..k + 2][1];
    CaptureExactly(e, params, uses, x);
  }

  lemma CaptureNothing(params: seq<Param>, uses: seq<Name>)
    ensures Captures({}, params, uses, uses)
  {
  }

  lemma {:induction false} CaptureListIs(es: seq<Expr>, params: seq<Param>, uses: seq<Name>)
    ensures Captures(VarsOf(es), params, uses, CaptureList(es, params, uses))
    decreases es, 0
  {
    hide Captures;
    if es == [] {
      CaptureNothing(params, uses);
    } else {
      var v := Capture(es[0], params, uses);
      CaptureIs(es[0], params, uses);
      CaptureListIs(es[1..], params, v);
      CapturesThen(Vars(es[0]), VarsOf(es[1..]), params, uses, v, CaptureList(es, params, uses));
    }
  }

  // ----- elaboration: inner lambdas first, then the list of captured variables -----

  function Elaborate(e: Expr): Expr {
    match e
    case Const(_) => e
    case Var(_) => e
    case Set(x, a) => Set(x, Elaborate(a))
    case Prim(op, a, b) => Prim(op, Elaborate(a), Elaborate(b))
    case Seq(a, b) => Seq(Elaborate(a), Elaborate(b))
    case If(a, b, c) => If(Elaborate(a), Elaborate(b), Elaborate(c))
    case Lambda(lam) =>
      var body := Elaborate(lam.body);
      Lambda(Lam(lam.arrow, lam.params, if lam.arrow then Capture(body, lam.params, lam.uses) else lam.uses, body))
    case Invoke(f, args) => Invoke(Elaborate(f), ElaborateList(args))
  }

  function ElaborateList(es: seq<Expr>): seq<Expr> {
    if es == [] then [] else [Elaborate(es[0])] + ElaborateList(es[1..])
  }

  /** Listed variables are listed once and are ordinary variables of the outer scope. */
  ghost predicate UsesOk(lam: Lam) {
    NoDuplicates(lam.uses) && forall u :: u in lam.uses ==> u != CAPTURED_THIS && !Global(u) && !Temporary(u)
  }

  /** Parameters have different names and only the last may be variadic. */
  ghost predicate ParamsOk(params: seq<Param>) {
    params == [] || (
      && ParamsOk(params[1..]) && params[0].name !in Names(params[1..])
      && (params[0].variadic ==> |params| == 1))
  }

  /** The programs that reach the conversion: a lambda that mentions $this has it in its list, which a
      pass before the conversion sees to; no list repeats a name; and no variable has the reserved
      name of the constructor's parameter. */
  ghost predicate Proper(e: Expr) {
    match e
    case Const(_) => true
    case Var(x) => x != CAPTURED_THIS
    case Set(x, a) => !Global(x) && x != CAPTURED_THIS && Proper(a)
    case Prim(_, a, b) => Proper(a) && Proper(b)
    case Seq(a, b) => Proper(a) && Proper(b)
    case If(a, b, c) => Proper(a) && Proper(b) && Proper(c)
    case Lambda(lam) =>
      && Proper(lam.body) && UsesOk(lam) && ParamsOk(lam.params)
      && (THIS in Vars(lam.body) ==> THIS in lam.uses)
    case Invoke(f, args) => Proper(f) && ProperList(args)
  }

  ghost predicate ProperList(es: seq<Expr>) {
    es == [] || (Proper(es[0]) && ProperList(es[1..]))
  }

  /** An arrow function's list has every variable of its body that could come from outside. */
  ghost predicate Covered(lam: Lam) {
    lam.arrow ==> forall x :: x in Vars(lam.body) ==>
      x in lam.uses || x in Names(lam.params) || Global(x) || Temporary(x)
  }

  /** Every lambda in e is ready for conversion. */
  ghost predicate Ready(e: Expr) {
    match e
    case Const(_) => true
    case Var(x) => x != CAPTURED_THIS
    case Set(x, a) => !Global(x) && x != CAPTURED_THIS && Ready(a)
    case Prim(_, a, b) => Ready(a) && Ready(b)
    case Seq(a, b) => Ready(a) && Ready(b)
    case If(a, b, c) => Ready(a) && Ready(b) && Ready(c)
    case Lambda(lam) => ReadyLam(lam)
    case Invoke(f, args) => Ready(f) && ReadyList(args)
  }

  ghost predicate ReadyLam(lam: Lam) {
    Covered(lam) && UsesOk(lam) && ParamsOk(lam.params) && Ready(lam.body)
  }

  ghost predicate ReadyList(es: seq<Expr>) {
    es == [] || (Ready(es[0]) && ReadyList(es[1..]))
  }

  /** Elaboration makes every lambda ready: the captured lists are duplicate-free and complete, also
      for variables that only nested lambdas need. */
  lemma {:induction false} ElaborateReady(e: Expr)
    requires Proper(e)
    ensures Ready(Elaborate(e))
    ensures THIS in Vars(Elaborate(e)) ==> THIS in Vars(e)
    ensures CAPTURED_THIS !in Vars(Elaborate(e))
    decreases e, 0
  {
    match e
    case Const(_) =>
    case Var(_) =>
    case Set(_, a) => ElaborateReady(a);
    case Prim(_, a, b) =>
      ElaborateReady(a);
      ElaborateReady(b);
    case Seq(a, b) =>
      ElaborateReady(a);
      ElaborateReady(b);
    case If(a, b, c) =>
      ElaborateReady(a);
      ElaborateReady(b);
      ElaborateReady(c);
    case Lambda(lam) =>
      ElaborateReady(lam.body);
      CaptureIs(Elaborate(lam.body), lam.params, lam.uses);
    case Invoke(f, args) =>
      ElaborateReady(f);
      ElaborateListReady(args);
  }

  lemma {:induction false} ElaborateListReady(es: seq<Expr>)
    requires ProperList(es)
    ensures ReadyList(ElaborateList(es))
    ensures THIS in VarsOf(ElaborateList(es)) ==> THIS in VarsOf(es)
    ensures CAPTURED_THIS !in VarsOf(ElaborateList(es))
    decreases es, 0
  {
    if es != [] {
      ElaborateReady(es[0]);
      ElaborateListReady(es[1..]);
      assert ElaborateList(es)[1..] == ElaborateList(es[1..]);
    }
  }
}

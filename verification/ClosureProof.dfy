/** The converted program computes what the source program computes. */
module ClosureProof {
  import opened Wrappers
  import opened Closures
  import opened ClosureMeaning

  // ----- well-formed values and corresponding scopes -----

  ghost predicate Good(v: Value) {
    match v
    case Null => true
    case Int(_) => true
    case Arr(items) => forall i :: 0 <= i < |items| ==> Good(items[i])
    case Closure(lam, captured) =>
      ReadyLam(lam) && CapturedOk(lam, captured) && forall x :: x in captured ==> Good(captured[x])
  }

  /** No closure holds a temporary of another function or a variable it does not list. */
  ghost predicate CapturedOk(lam: Lam, captured: Env) {
    forall x :: x in captured ==> if lam.arrow then !Temporary(x) else x in lam.uses
  }

  ghost predicate GoodEnv(env: Env) {
    forall x :: x in env ==> Good(env[x])
  }

  ghost predicate GoodAll(vs: seq<Value>) {
    forall i :: 0 <= i < |vs| ==> Good(vs[i])
  }

  /** On the names in n the scopes correspond. */
  ghost predicate Related(n: set<Name>, env: Env, tenv: TEnv) {
    GoodEnv(env) && forall x :: x in n && !Global(x) ==> TGet(tenv, x) == Object(Get(env, x))
  }

  lemma {:induction false} ObjectsAt(vs: seq<Value>)
    ensures |Objects(vs)| == |vs|
    ensures forall i :: 0 <= i < |vs| ==> Objects(vs)[i] == Object(vs[i])
  {
    hide Object;
    if vs != [] {
      ObjectsAt(vs[1..]);
      forall i | 0 <= i < |vs| ensures Objects(vs)[i] == Object(vs[i]) {
        if i > 0 {
          assert Objects(vs)[i] == Objects(vs[1..])[i - 1];
        }
      }
    }
  }

  lemma {:induction false} ObjectsTail(vs: seq<Value>)
    requires vs != []
    ensures Objects(vs)[1..] == Objects(vs[1..]) && Objects(vs)[0] == Object(vs[0])
  {
    assert Objects(vs) == [Object(vs[0])] + Objects(vs[1..]);
  }

  // ----- parameter passing -----

  ghost predicate SameBinding(b: Env, t: TEnv) {
    b.Keys == t.Keys && forall x :: x in b ==> t[x] == Object(b[x])
  }

  lemma {:induction false} BindObjects(params: seq<Param>, vals: seq<Value>)
    requires GoodAll(vals)
    ensures Bind(params, vals).None? ==> TBind(params, Objects(vals)).None?
    ensures Bind(params, vals).Some? ==>
      && TBind(params, Objects(vals)).Some?
      && SameBinding(Bind(params, vals).value, TBind(params, Objects(vals)).value)
      && Bind(params, vals).value.Keys <= Names(params)
      && GoodEnv(Bind(params, vals).value)
    decreases |params|
  {
    hide Object;
    ObjectsAt(vals);
    if params != [] && params[0].variadic {
      ObjectOfArray(vals);
      assert Good(Arr(vals));
    } else if params != [] && vals != [] {
      ObjectsTail(vals);
      BindObjects(params[1..], vals[1..]);
      assert Good(vals[0]);
    }
  }

  lemma {:induction false} ObjectOfArray(vals: seq<Value>)
    ensures Object(Arr(vals)) == TArr(Objects(vals))
  {
  }

  lemma {:induction false} BindKeys(params: seq<Param>, vals: seq<TValue>)
    ensures TBind(params, vals).Some? ==> TBind(params, vals).value.Keys == Names(params) || !ParamsOk(params)
    decreases |params|
  {
    if params != [] && !params[0].variadic && vals != [] {
      BindKeys(params[1..], vals[1..]);
      assert Names(params) == {params[0].name} + Names(params[1..]);
    }
  }

  lemma {:induction false} PassedFirst(args: seq<CallArg>, fields: TEnv, env: TEnv)
    requires args != []
    ensures Passed(args, fields, env) ==
      (match args[0]
       case Prop(x) => [TGet(fields, x)]
       case Arg(x) => [TGet(env, x)]
       case Spread(x) => if TGet(env, x).TArr? then TGet(env, x).items else [])
      + Passed(args[1..], fields, env)
  {
  }

  lemma {:induction false} CallArgsFirst(ps: seq<FunParam>)
    requires ps != []
    ensures CallArgs(ps) != [] && CallArgs(ps)[0] == CallArgOf(ps[0]) && CallArgs(ps)[1..] == CallArgs(ps[1..])
  {
  }

  lemma {:induction false} OwnFirst(params: seq<Param>)
    requires params != []
    ensures OwnParams(params) != [] && OwnParams(params)[0] == FunParam(params[0], false)
    ensures OwnParams(params)[1..] == OwnParams(params[1..])
  {
  }

  /** Passing on one's own parameters, the variadic one spread out, passes the same values. */
  lemma {:induction false} PassOn(params: seq<Param>, vals: seq<TValue>, fields: TEnv, own: TEnv, b: TEnv)
    requires ParamsOk(params) && TBind(params, vals) == Some(b)
    requires forall x :: x in b ==> x in own && own[x] == b[x]
    ensures Passed(CallArgs(OwnParams(params)), fields, own) == vals
    decreases |params|
  {
    if params != [] {
      var p := params[0];
      OwnFirst(params);
      CallArgsFirst(OwnParams(params));
      PassedFirst(CallArgs(OwnParams(params)), fields, own);
      if p.variadic {
        PassedNothing(params[1..], fields, own);
      } else {
        BindFirst(params, vals);
        BindKeys(params[1..], vals[1..]);
        var rest := TBind(params[1..], vals[1..]).value;
        hide TBind, Passed, CallArgs, OwnParams, Names;
        assert b[p.name] == vals[0];
        forall x | x in rest ensures x in own && own[x] == rest[x] {
          assert x in b && b[x] == rest[x];
        }
        PassOn(params[1..], vals[1..], fields, own, rest);
      }
    }
  }

  lemma {:induction false} PassedNothing(params: seq<Param>, fields: TEnv, own: TEnv)
    requires params == []
    ensures Passed(CallArgs(OwnParams(params)), fields, own) == []
  {
  }

  function OwnParams(params: seq<Param>): seq<FunParam> {
    seq(|params|, i requires 0 <= i < |params| => FunParam(params[i], false))
  }

  function UseParams(uses: seq<Name>): seq<FunParam> {
    seq(|uses|, i requires 0 <= i < |uses| => FunParam(Param(uses[i], false), true))
  }

  lemma {:induction false} InvokeParamsIs(uses: seq<Name>, params: seq<Param>)
    ensures InvokeParams(UseParams(uses) + OwnParams(params)) == params
    decreases |uses|, |params|
  {
    var ps := UseParams(uses) + OwnParams(params);
    if uses != [] {
      assert ps[0].fromUse && ps[1..] == UseParams(uses[1..]) + OwnParams(params);
      InvokeParamsIs(uses[1..], params);
    } else if params != [] {
      assert ps[0] == FunParam(params[0], false) && ps[1..] == UseParams([]) + OwnParams(params[1..]);
      InvokeParamsIs(uses, params[1..]);
    }
  }

  function FieldValues(uses: seq<Name>, fields: TEnv): seq<TValue> {
    seq(|uses|, i requires 0 <= i < |uses| => TGet(fields, uses[i]))
  }

  /** __invoke passes the captured values from the fields, then its own arguments. */
  lemma {:induction false} PassedIs(uses: seq<Name>, params: seq<Param>, vals: seq<TValue>, fields: TEnv, own: TEnv)
    requires ParamsOk(params) && TBind(params, vals) == Some(own)
    ensures Passed(CallArgs(UseParams(uses) + OwnParams(params)), fields, own) == FieldValues(uses, fields) + vals
    decreases |uses|
  {
    hide Passed, CallArgs, UseParams, OwnParams, FieldValues, TBind, ParamsOk, TGet;
    var ps := UseParams(uses) + OwnParams(params);
    if uses == [] {
      UsesNone(uses, params, fields);
      PassOn(params, vals, fields, own, own);
    } else {
      UsesFirst(uses, params, fields);
      PassedIs(uses[1..], params, vals, fields, own);
      CallArgsFirst(ps);
      PassedFirst(CallArgs(ps), fields, own);
      assert [TGet(fields, uses[0])] + (FieldValues(uses[1..], fields) + vals) == FieldValues(uses, fields) + vals;
    }
  }

  lemma {:induction false} UsesNone(uses: seq<Name>, params: seq<Param>, fields: TEnv)
    requires uses == []
    ensures UseParams(uses) + OwnParams(params) == OwnParams(params) && FieldValues(uses, fields) == []
  {
  }

  lemma {:induction false} UsesFirst(uses: seq<Name>, params: seq<Param>, fields: TEnv)
    requires uses != []
    ensures var ps := UseParams(uses) + OwnParams(params);
      ps != [] && CallArgOf(ps[0]) == Prop(uses[0]) && ps[1..] == UseParams(uses[1..]) + OwnParams(params)
    ensures FieldValues(uses, fields) == [TGet(fields, uses[0])] + FieldValues(uses[1..], fields)
  {
  }

  /** The lambda function's parameters: first the captured variables, then its own. */
  lemma {:induction false} FunBind(uses: seq<Name>, params: seq<Param>, vals: seq<TValue>, fields: TEnv, own: TEnv)
    requires TBind(params, vals) == Some(own)
    ensures var b := TBind(ParamsOf(UseParams(uses) + OwnParams(params)), FieldValues(uses, fields) + vals);
      b.Some? && Extends(b.value, own, uses, fields)
    decreases |uses|
  {
    var ps := ParamsOf(UseParams(uses) + OwnParams(params));
    var vs := FieldValues(uses, fields) + vals;
    if uses == [] {
      assert ps == params;
      assert vs == vals;
    } else {
      FunFirst(uses, params, vals, fields);
      hide TBind, Extends, ParamsOf, UseParams, OwnParams, FieldValues;
      FunBind(uses[1..], params, vals, fields, own);
      BindFirst(ps, vs);
      ExtendsMore(TBind(ps[1..], vs[1..]).value, own, uses, fields);
    }
  }

  lemma {:induction false} FunFirst(uses: seq<Name>, params: seq<Param>, vals: seq<TValue>, fields: TEnv)
    requires uses != []
    ensures var ps := ParamsOf(UseParams(uses) + OwnParams(params));
      ps != [] && ps[0] == Param(uses[0], false) && ps[1..] == ParamsOf(UseParams(uses[1..]) + OwnParams(params))
    ensures var vs := FieldValues(uses, fields) + vals;
      vs != [] && vs[0] == TGet(fields, uses[0]) && vs[1..] == FieldValues(uses[1..], fields) + vals
  {
  }

  lemma {:induction false} BindFirst(params: seq<Param>, vals: seq<TValue>)
    requires params != [] && !params[0].variadic && vals != [] && TBind(params[1..], vals[1..]).Some?
    ensures TBind(params, vals) == Some(map[params[0].name := vals[0]] + TBind(params[1..], vals[1..]).value)
  {
  }

  lemma {:induction false} ExtendsMore(rest: TEnv, own: TEnv, uses: seq<Name>, fields: TEnv)
    requires uses != [] && Extends(rest, own, uses[1..], fields)
    ensures Extends(map[uses[0] := TGet(fields, uses[0])] + rest, own, uses, fields)
  {
  }

  /** The scope of the lambda function: its own arguments, and the fields under the listed names. */
  ghost predicate Extends(b: TEnv, own: TEnv, uses: seq<Name>, fields: TEnv) {
    && (forall x :: x in b <==> x in own || x in uses)
    && (forall x :: x in b ==> b[x] == if x in own then own[x] else TGet(fields, x))
  }

  /** Calling the object calls the closure: __invoke and the lambda function together give the body
      the scope the source language gives it, on the names the body mentions. */
  lemma {:induction false} CallScope(lam: Lam, captured: Env, vals: seq<Value>, b: Env)
    requires Good(Closure(lam, captured)) && GoodAll(vals) && Bind(lam.params, vals) == Some(b)
    ensures var cls := ConvertLam(lam);
      var fields := Object(Closure(lam, captured)).fields;
      var own := TBind(cls.invokeParams, Objects(vals));
      own.Some? &&
      var scope := TBind(ParamsOf(cls.funParams), Passed(cls.callArgs, fields, own.value));
      scope.Some? && Related(Vars(lam.body), captured + b, scope.value)
  {
    var cls := ConvertLam(lam);
    var fields := Object(Closure(lam, captured)).fields;
    assert FunParams(lam) == UseParams(lam.uses) + OwnParams(lam.params);
    InvokeParamsIs(lam.uses, lam.params);
    BindObjects(lam.params, vals);
    var own := TBind(lam.params, Objects(vals)).value;
    PassedIs(lam.uses, lam.params, Objects(vals), fields, own);
    FunBind(lam.uses, lam.params, Objects(vals), fields, own);
    var scope := TBind(ParamsOf(cls.funParams), Passed(cls.callArgs, fields, own)).value;
    BindKeys(lam.params, Objects(vals));
    ScopesAgree(lam, captured, b, own, fields, scope);
  }

  lemma {:induction false} ScopesAgree(lam: Lam, captured: Env, b: Env, own: TEnv, fields: TEnv, scope: TEnv)
    requires ReadyLam(lam) && CapturedOk(lam, captured) && GoodEnv(captured) && GoodEnv(b)
    requires SameBinding(b, own) && own.Keys == Names(lam.params) && Extends(scope, own, lam.uses, fields)
    requires fields == Object(Closure(lam, captured)).fields
    ensures Related(Vars(lam.body), captured + b, scope)
  {
    hide Good, Ready, Global, Temporary, ParamsOk, Names, Vars;
    FieldIs(lam, captured, fields);
    forall x | x in Vars(lam.body) && !Global(x) ensures TGet(scope, x) == Object(Get(captured + b, x)) {
      if x in b {
      } else if x in lam.uses {
        assert TGet(fields, x) == Object(Get(captured, x));
      } else {
        assert x !in scope;
        assert x !in captured;
      }
    }
  }

  lemma {:induction false} FieldIs(lam: Lam, captured: Env, fields: TEnv)
    requires fields == Object(Closure(lam, captured)).fields
    ensures fields.Keys == Elements(lam.uses)
    ensures forall x :: x in lam.uses ==> x in fields && fields[x] == Object(Get(captured, x))
  {
  }

  // ----- building the object -----

  lemma {:induction false} BindPlain(names: seq<Name>, vals: seq<TValue>)
    requires |names| == |vals| && NoDuplicates(names)
    ensures var b := TBind(Plain(names), vals);
      && b.Some? && b.value.Keys == Elements(names)
      && forall i :: 0 <= i < |names| ==> names[i] in b.value && b.value[names[i]] == vals[i]
    decreases |names|
  {
    if names != [] {
      assert Plain(names)[1..] == Plain(names[1..]);
      BindPlain(names[1..], vals[1..]);
      var rest := TBind(Plain(names[1..]), vals[1..]).value;
      assert names[0] !in rest by {
        assert forall i :: 1 <= i < |names| ==> names[i] != names[0];
      }
      var b := map[names[0] := vals[0]] + rest;
      forall i | 0 <= i < |names| ensures names[i] in b && b[names[i]] == vals[i] {
        if i > 0 {
          assert names[1..][i - 1] == names[i] && vals[1..][i - 1] == vals[i];
        }
      }
      assert Elements(names) == {names[0]} + Elements(names[1..]);
    }
  }

  lemma {:induction false} RunInitsIs(uses: seq<Name>, env: TEnv)
    requires NoDuplicates(uses)
    ensures var fields := RunInits(Inits(uses), env);
      fields.Keys == Elements(uses) && forall x :: x in uses ==> fields[x] == TGet(env, ConstructParam(x))
    decreases |uses|
  {
    hide TGet, ConstructParam;
    if uses != [] {
      assert Inits(uses)[1..] == Inits(uses[1..]);
      RunInitsIs(uses[1..], env);
      assert Elements(uses) == {uses[0]} + Elements(uses[1..]);
    }
  }

  /** The generated construct call builds the object that corresponds to the closure. */
  lemma {:induction false} NewIs(w: World, lam: Lam, env: Env, tenv: TEnv, fuel: nat)
    requires ReadyLam(lam) && Related(Elements(lam.uses), env, tenv)
    ensures TEval(w, TNew(ConvertLam(lam), lam.uses), tenv, fuel)
         == Some((Object(Closure(lam, CaptureEnv(lam, env))), tenv))
    ensures Good(Closure(lam, CaptureEnv(lam, env)))
  {
    hide Ready, Global, Temporary, ParamsOk, Names, Good, UsesOk, Elements, ConvertLam, RunInits, TBind, CaptureEnv;
    ClassParts(lam);
    var captured := CaptureEnv(lam, env);
    var vals := ReadAll(w, tenv, lam.uses);
    var expected := Object(Closure(lam, captured)).fields;
    FieldIs(lam, captured, expected);
    assert forall i :: 0 <= i < |lam.uses| ==> lam.uses[i] in lam.uses;
    ReadCaptured(w, lam, env, tenv);
    var fields := ConstructIs(lam, vals, expected);
    CapturedGood(lam, env);
  }

  lemma {:induction false} ClassParts(lam: Lam)
    ensures ConvertLam(lam).constructParams == ConstructParams(lam.uses) && ConvertLam(lam).inits == Inits(lam.uses)
  {
  }

  lemma {:induction false} ReadCaptured(w: World, lam: Lam, env: Env, tenv: TEnv)
    requires UsesOk(lam) && Related(Elements(lam.uses), env, tenv)
    ensures forall i :: 0 <= i < |lam.uses| ==>
              TRead(w, tenv, lam.uses[i]) == Object(Get(CaptureEnv(lam, env), lam.uses[i]))
  {
    hide Global, Temporary, Object, GoodEnv;
    forall i | 0 <= i < |lam.uses|
      ensures TRead(w, tenv, lam.uses[i]) == Object(Get(CaptureEnv(lam, env), lam.uses[i]))
    {
      var x := lam.uses[i];
      assert x in lam.uses && x in Elements(lam.uses);
      assert Get(CaptureEnv(lam, env), x) == Get(env, x);
    }
  }

  lemma {:induction false} ConstructNames(lam: Lam)
    requires UsesOk(lam)
    ensures NoDuplicates(lam.uses) && NoDuplicates(ConstructParams(lam.uses))
    ensures |ConstructParams(lam.uses)| == |lam.uses|
  {
    hide Global, Temporary;
    var cp := ConstructParams(lam.uses);
    forall i, j | 0 <= i < j < |cp| ensures cp[i] != cp[j] {
      assert lam.uses[i] in lam.uses && lam.uses[j] in lam.uses;
    }
  }

  /** The constructor puts the i-th argument into the i-th field, also when the field is $this. */
  lemma {:induction false} ConstructIs(lam: Lam, vals: seq<TValue>, expected: TEnv) returns (fields: TEnv)
    requires UsesOk(lam) && |vals| == |lam.uses| && expected.Keys == Elements(lam.uses)
    requires forall i :: 0 <= i < |vals| ==> vals[i] == TGet(expected, lam.uses[i])
    ensures var b := TBind(Plain(ConstructParams(lam.uses)), vals);
      b.Some? && RunInits(Inits(lam.uses), b.value) == expected == fields
  {
    ConstructNames(lam);
    hide *;
    BindPlain(ConstructParams(lam.uses), vals);
    var b := TBind(Plain(ConstructParams(lam.uses)), vals).value;
    RunInitsIs(lam.uses, b);
    fields := RunInits(Inits(lam.uses), b);
    SameFields(lam.uses, vals, b, fields, expected);
  }

  lemma {:induction false} SameFields(uses: seq<Name>, vals: seq<TValue>, b: TEnv, fields: TEnv, expected: TEnv)
    requires |vals| == |uses| && expected.Keys == fields.Keys == Elements(uses)
    requires forall i :: 0 <= i < |vals| ==> vals[i] == TGet(expected, uses[i])
    requires forall i :: 0 <= i < |ConstructParams(uses)| ==>
               ConstructParams(uses)[i] in b && b[ConstructParams(uses)[i]] == vals[i]
    requires forall x :: x in uses ==> fields[x] == TGet(b, ConstructParam(x))
    ensures fields == expected
  {
    forall x | x in expected ensures fields[x] == expected[x] {
      assert x in uses;
      var i :| 0 <= i < |uses| && uses[i] == x;
      assert ConstructParams(uses)[i] == ConstructParam(x);
    }
  }

  lemma {:induction false} CapturedGood(lam: Lam, env: Env)
    requires ReadyLam(lam) && GoodEnv(env)
    ensures Good(Closure(lam, CaptureEnv(lam, env)))
  {
    hide Ready, Global, Temporary, Contains, ParamsOk, Names;
  }

  // ----- the simulation -----

  /** The converted expression yields the corresponding value and leaves corresponding scopes. */
  ghost predicate Agree(n: set<Name>, r: Option<(Value, Env)>, t: Option<(TValue, TEnv)>) {
    match r
    case None => t.None?
    case Some((v, env)) => t.Some? && t.value.0 == Object(v) && Good(v) && Related(n, env, t.value.1)
  }

  ghost predicate AgreeAll(n: set<Name>, r: Option<(seq<Value>, Env)>, t: Option<(seq<TValue>, TEnv)>) {
    match r
    case None => t.None?
    case Some((vs, env)) => t.Some? && t.value.0 == Objects(vs) && GoodAll(vs) && Related(n, env, t.value.1)
  }

  ghost predicate AgreeValue(r: Option<Value>, t: Option<TValue>) {
    match r
    case None => t.None?
    case Some(v) => t == Some(Object(v)) && Good(v)
  }

  lemma {:induction false} Assign(n: set<Name>, env: Env, tenv: TEnv, x: Name, v: Value)
    requires Related(n, env, tenv) && Good(v)
    ensures Related(n, env[x := v], tenv[x := Object(v)])
  {
    hide Good, Object, Global;
  }

  lemma {:induction false} Narrow(m: set<Name>, n: set<Name>, env: Env, tenv: TEnv)
    requires Related(n, env, tenv) && m <= n
    ensures Related(m, env, tenv)
  {
    hide Good, Object, Global;
  }

  lemma {:induction false} ReadIs(w: World, n: set<Name>, env: Env, tenv: TEnv, x: Name)
    requires Related(n, env, tenv) && x in n
    ensures TRead(w, tenv, x) == Object(Read(w, env, x)) && Good(Read(w, env, x))
  {
    hide Global;
  }

  lemma {:induction false} ValuesAgree(w: World, op: int, u: Value, v: Value)
    ensures Object(Apply(w, op, u, v))
         == if Object(u).TInt? && Object(v).TInt? then TInt(w.prim(op, Object(u).n, Object(v).n)) else TNull
    ensures Good(Apply(w, op, u, v))
    ensures Truthy(u) <==> Object(u).TInt? && Object(u).n != 0
    ensures u.Closure? <==> Object(u).TObj?
    ensures u.Closure? ==> Object(u).cls == ConvertLam(u.lam)
  {
  }

  lemma {:induction false} Simulate(w: World, e: Expr, n: set<Name>, env: Env, tenv: TEnv, fuel: nat)
    requires Ready(e) && Vars(e) <= n && Related(n, env, tenv)
    ensures Agree(n, Eval(w, e, env, fuel), TEval(w, Convert(e), tenv, fuel))
    decreases fuel, e, 1
  {
    hide Object, Good, Related, ReadyLam, CaptureEnv, ConvertLam, Call, TCall, TBind, RunInits, ReadAll, Global;
    match e
    case Const(k) => ValuesAgree(w, 0, Null, Null); ConstIs(k);
    case Var(x) => ReadIs(w, n, env, tenv, x);
    case Set(x, a) =>
      Simulate(w, a, n, env, tenv, fuel);
      if Eval(w, a, env, fuel).Some? {
        var (v, env1) := Eval(w, a, env, fuel).value;
        Assign(n, env1, TEval(w, Convert(a), tenv, fuel).value.1, x, v);
      }
    case Prim(op, a, b) =>
      Simulate(w, a, n, env, tenv, fuel);
      if Eval(w, a, env, fuel).Some? {
        var (u, env1) := Eval(w, a, env, fuel).value;
        Simulate(w, b, n, env1, TEval(w, Convert(a), tenv, fuel).value.1, fuel);
        if Eval(w, b, env1, fuel).Some? {
          ValuesAgree(w, op, u, Eval(w, b, env1, fuel).value.0);
        }
      }
    case Seq(a, b) =>
      Simulate(w, a, n, env, tenv, fuel);
      if Eval(w, a, env, fuel).Some? {
        Simulate(w, b, n, Eval(w, a, env, fuel).value.1, TEval(w, Convert(a), tenv, fuel).value.1, fuel);
      }
    case If(a, b, c) =>
      Simulate(w, a, n, env, tenv, fuel);
      if Eval(w, a, env, fuel).Some? {
        var (u, env1) := Eval(w, a, env, fuel).value;
        ValuesAgree(w, 0, u, u);
        Simulate(w, b, n, env1, TEval(w, Convert(a), tenv, fuel).value.1, fuel);
        Simulate(w, c, n, env1, TEval(w, Convert(a), tenv, fuel).value.1, fuel);
      }
    case Lambda(lam) =>
      Narrow(Elements(lam.uses), n, env, tenv);
      NewIs(w, lam, env, tenv, fuel);
    case Invoke(f, args) =>
      SimulateInvoke(w, e, n, env, tenv, fuel);
  }

  lemma {:induction false} ConstIs(k: int)
    ensures Object(Int(k)) == TInt(k) && Good(Int(k))
  {
  }

  lemma {:induction false} SimulateInvoke(w: World, e: Expr, n: set<Name>, env: Env, tenv: TEnv, fuel: nat)
    requires e.Invoke? && Ready(e) && Vars(e) <= n && Related(n, env, tenv)
    ensures Agree(n, Eval(w, e, env, fuel), TEval(w, Convert(e), tenv, fuel))
    decreases fuel, e, 0
  {
    hide Object, Objects, Good, Related, Call, TCall, Global, Vars, VarsOf, Ready, ReadyList, ConvertLam, GoodAll;
    InvokeParts(e);
    Simulate(w, e.callee, n, env, tenv, fuel);
    if Eval(w, e.callee, env, fuel).Some? {
      var (g, env1) := Eval(w, e.callee, env, fuel).value;
      var tenv1 := TEval(w, Convert(e.callee), tenv, fuel).value.1;
      SimulateList(w, e.args, n, env1, tenv1, fuel);
      ValuesAgree(w, 0, g, g);
      if EvalList(w, e.args, env1, fuel).Some? && g.Closure? && fuel > 0 {
        SimulateCall(w, g.lam, g.captured, EvalList(w, e.args, env1, fuel).value.0, fuel - 1);
      }
    }
  }

  lemma {:induction false} InvokeParts(e: Expr)
    requires e.Invoke? && Ready(e)
    ensures Ready(e.callee) && ReadyList(e.args) && Vars(e) == Vars(e.callee) + VarsOf(e.args)
  {
  }

  lemma {:induction false} SimulateList(w: World, es: seq<Expr>, n: set<Name>, env: Env, tenv: TEnv, fuel: nat)
    requires ReadyList(es) && VarsOf(es) <= n && Related(n, env, tenv)
    ensures AgreeAll(n, EvalList(w, es, env, fuel), TEvalList(w, ConvertList(es), tenv, fuel))
    decreases fuel, es, 0
  {
    hide Object, Good, Related, Global;
    if es != [] {
      assert ConvertList(es)[1..] == ConvertList(es[1..]);
      Simulate(w, es[0], n, env, tenv, fuel);
      if Eval(w, es[0], env, fuel).Some? {
        var (v, env1) := Eval(w, es[0], env, fuel).value;
        var tenv1 := TEval(w, Convert(es[0]), tenv, fuel).value.1;
        SimulateList(w, es[1..], n, env1, tenv1, fuel);
        if EvalList(w, es[1..], env1, fuel).Some? {
          var vs := EvalList(w, es[1..], env1, fuel).value.0;
          assert ([v] + vs)[1..] == vs;
        }
      }
    }
  }

  /** Invoking the object evaluates like invoking the closure. */
  lemma {:induction false} SimulateCall(w: World, lam: Lam, captured: Env, vals: seq<Value>, fuel: nat)
    requires Good(Closure(lam, captured)) && GoodAll(vals)
    ensures AgreeValue(
              Call(w, lam, captured, vals, fuel),
              TCall(w, ConvertLam(lam), Object(Closure(lam, captured)).fields, Objects(vals), fuel))
    decreases fuel, lam, 2
  {
    assert ReadyLam(lam) && Ready(lam.body);
    hide Object, Good, Related, Global, Ready, ParamsOk, Names, TBind, Bind, Passed, Eval, TEval;
    BindObjects(lam.params, vals);
    InvokeIs(lam);
    if Bind(lam.params, vals).Some? {
      var b := Bind(lam.params, vals).value;
      CallScope(lam, captured, vals, b);
      var cls, fields := ConvertLam(lam), Object(Closure(lam, captured)).fields;
      var own := TBind(cls.invokeParams, Objects(vals)).value;
      var scope := TBind(ParamsOf(cls.funParams), Passed(cls.callArgs, fields, own)).value;
      Simulate(w, lam.body, Vars(lam.body), captured + b, scope, fuel);
    }
  }

  lemma {:induction false} InvokeIs(lam: Lam)
    ensures ConvertLam(lam).invokeParams == lam.params
  {
    assert FunParams(lam) == UseParams(lam.uses) + OwnParams(lam.params);
    InvokeParamsIs(lam.uses, lam.params);
  }

  /** A proper program, with its arrow functions' captured variables worked out and its
      lambdas converted to classes, yields the value that corresponds to what the program yields by
      itself, at every depth of calls. */
  lemma {:induction false} ElaboratedPreserves(w: World, e: Expr, fuel: nat)
    requires Proper(e)
    ensures var source := Eval(w, Elaborate(e), map[], fuel);
      var target := TEval(w, Convert(Elaborate(e)), map[], fuel);
      && (source.None? <==> target.None?)
      && (source.Some? ==> target.value.0 == Object(source.value.0))
  {
    ElaborateReady(e);
    var n := Vars(Elaborate(e));
    assert Related(n, map[], map[]);
    hide Eval, TEval, Object, Good, Ready, Related;
    Simulate(w, Elaborate(e), n, map[], map[], fuel);
  }
}

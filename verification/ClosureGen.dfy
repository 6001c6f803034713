/** The routines that generate lambda classes, step by step as the compiler runs them, and the
    fact that working out captured variables leaves the source program's meaning alone. */
module ClosureGen {
  import opened Wrappers
  import opened Closures
  import opened ClosureMeaning
  import opened ClosureProof

  // ----- the routines -----

  /** A lambda function in the compiler: its parameter list and its list of captured variables grow. */
  class FunctionData {
    var params: seq<FunParam>
    var uses: seq<Name>
    const arrow: bool
    const own: seq<Param>
    const body: Expr

    constructor (lam: Lam)
      ensures arrow == lam.arrow && own == lam.params && uses == lam.uses && body == lam.body
      ensures params == OwnParams(lam.params)
    {
      arrow, own, uses, body := lam.arrow, lam.params, lam.uses, lam.body;
      params := OwnParams(lam.params);
    }

    /** find_recursive. */
    method FindRecursive(root: Expr)
      modifies this`uses
      ensures uses == Capture(root, own, old(uses))
      decreases root, 1
    {
      match root {
        case Const(_) =>
        case Var(x) => AddUse(x);
        case Set(x, a) =>
          AddUse(x);
          FindRecursive(a);
        case Prim(_, a, b) =>
          FindRecursive(a);
          FindRecursive(b);
        case Seq(a, b) =>
          FindRecursive(a);
          FindRecursive(b);
        case If(a, b, c) =>
          FindRecursive(a);
          FindRecursive(b);
          FindRecursive(c);
        case Lambda(lam) =>
          for i := 0 to |lam.uses|
            invariant CaptureAll(lam.uses[i..], own, uses) == CaptureAll(lam.uses, own, old(uses))
          {
            assert lam.uses[i..][1..] == lam.uses[i + 1..];
            AddUse(lam.uses[i]);
          }
        case Invoke(f, args) =>
          FindRecursive(f);
          ghost var after := uses;
          for i := 0 to |args|
            invariant CaptureList(args[i..], own, uses) == CaptureList(args, own, after)
          {
            assert args[i..][1..] == args[i + 1..];
            FindRecursive(args[i]);
          }
      }
    }

    method AddUse(x: Name)
      modifies this`uses
      ensures uses == CaptureOne(x, own, old(uses))
    {
      if Needed(x, own, uses) {
        uses := [x] + uses;
      }
    }

    /** auto_capture_vars_from_body_in_arrow_lambda: afterwards the list covers the body. */
    method AutoCapture()
      requires arrow && (THIS in Vars(body) ==> THIS in uses)
      modifies this`uses
      ensures NoDuplicates(old(uses)) ==> NoDuplicates(uses)
      ensures forall x :: x in uses <==> x in old(uses) || (x in Vars(body) && Outer(x, own, old(uses)))
      ensures Covered(Lam(true, own, uses, body))
      ensures forall x :: x in Vars(body) && ':' !in x && '$' !in x && x !in Names(own) &&
                          x !in ["this", "_SERVER", "_GET", "_POST", "_ENV", "_FILES", "_COOKIE", "_REQUEST"]
                          ==> x in uses
    {
      hide Capture, Vars;
      FindRecursive(body);
      CaptureIs(body, own, old(uses));
      forall x | x in Vars(body) && ':' !in x && '$' !in x && x !in Names(own) &&
                 x !in ["this", "_SERVER", "_GET", "_POST", "_ENV", "_FILES", "_COOKIE", "_REQUEST"]
        ensures x in uses
      {
        OrdinaryCaptured(body, own, old(uses), x);
      }
    }

    /** patch_lambda_function_add_uses_as_arguments. */
    method AddUsesAsArguments()
      modifies this`params
      ensures params == UseParams(uses) + old(params)
    {
      if uses == [] {
        return;
      }
      var r: seq<FunParam> := [];
      for i := 0 to |uses|
        invariant r == UseParams(uses)[..i]
      {
        r := r + [FunParam(Param(uses[i], false), true)];
      }
      for i := 0 to |params|
        invariant r == UseParams(uses) + params[..i]
      {
        r := r + [params[i]];
      }
      params := r;
    }

    /** generate_invoke_method_for_lambda_class. */
    method GenerateInvoke() returns (invokeParams: seq<Param>, callArgs: seq<CallArg>)
      ensures invokeParams == InvokeParams(params) && callArgs == CallArgs(params)
    {
      hide InvokeParams, CallArgs;
      invokeParams, callArgs := [], [];
      CallArgsStart(params);
      for i := 0 to |params|
        invariant invokeParams + InvokeParams(params[i..]) == InvokeParams(params)
        invariant callArgs == CallArgs(params)[..i]
      {
        var p := params[i];
        GenerateStep(params, i);
        if p.fromUse {
          callArgs := callArgs + [Prop(p.param.name)];
        } else if p.param.variadic {
          callArgs := callArgs + [Spread(p.param.name)];
          invokeParams := invokeParams + [p.param];
        } else {
          callArgs := callArgs + [Arg(p.param.name)];
          invokeParams := invokeParams + [p.param];
        }
      }
      GenerateDone(params);
    }

    /** generate_constructor_for_lambda_class. */
    method GenerateConstructor() returns (construct: seq<Name>, inits: seq<(Name, Name)>)
      ensures construct == ConstructParams(uses) && inits == Inits(uses)
    {
      construct, inits := [], [];
      for i := 0 to |uses|
        invariant |construct| == |inits| == i
        invariant forall k :: 0 <= k < i ==>
          construct[k] == ConstructParam(uses[k]) && inits[k] == (uses[k], ConstructParam(uses[k]))
      {
        var name := if uses[i] == THIS then CAPTURED_THIS else uses[i];
        construct := construct + [name];
        inits := inits + [(uses[i], name)];
      }
    }

    /** generate_lambda_class_wrapping_lambda_function, for a function whose captured variables have
        been made parameters. */
    method GenerateClass() returns (c: Class)
      requires params == UseParams(uses) + OwnParams(own)
      ensures c == ConvertLam(Lam(arrow, own, uses, body))
    {
      var invokeParams, callArgs := GenerateInvoke();
      var construct, inits := GenerateConstructor();
      c := Class(uses, construct, inits, invokeParams, callArgs, params, Convert(body));
      assert params == FunParams(Lam(arrow, own, uses, body));
    }
  }

  lemma CallArgsStart(ps: seq<FunParam>)
    ensures |CallArgs(ps)| == |ps| && CallArgs(ps)[..0] == [] && ps[0..] == ps
  {
  }

  lemma {:induction false} GenerateStep(ps: seq<FunParam>, i: nat)
    requires i < |ps|
    ensures |CallArgs(ps)| == |ps| && CallArgs(ps)[..i + 1] == CallArgs(ps)[..i] + [CallArgOf(ps[i])]
    ensures InvokeParams(ps[i..]) == (if ps[i].fromUse then [] else [ps[i].param]) + InvokeParams(ps[i + 1..])
  {
    assert ps[i..][0] == ps[i] && ps[i..][1..] == ps[i + 1..];
  }

  lemma {:induction false} GenerateDone(ps: seq<FunParam>)
    ensures InvokeParams(ps[|ps|..]) == [] && |CallArgs(ps)| == |ps| && CallArgs(ps)[..|ps|] == CallArgs(ps)
  {
  }

  // ----- working out captured variables is invisible to the source program -----

  ghost function ElaborateLam(lam: Lam): Lam {
    Elaborate(Lambda(lam)).lam
  }

  ghost function ElaborateValue(v: Value): Value {
    match v
    case Null => v
    case Int(_) => v
    case Arr(items) => Arr(ElaborateValues(items))
    case Closure(lam, captured) => Closure(ElaborateLam(lam), map x | x in captured :: ElaborateValue(captured[x]))
  }

  ghost function ElaborateValues(vs: seq<Value>): seq<Value> {
    if vs == [] then [] else [ElaborateValue(vs[0])] + ElaborateValues(vs[1..])
  }

  ghost function ElaborateEnv(env: Env): Env {
    map x | x in env :: ElaborateValue(env[x])
  }

  ghost function ElaborateResult(r: Option<(Value, Env)>): Option<(Value, Env)> {
    match r
    case None => None
    case Some((v, env)) => Some((ElaborateValue(v), ElaborateEnv(env)))
  }

  ghost function ElaborateListResult(r: Option<(seq<Value>, Env)>): Option<(seq<Value>, Env)> {
    match r
    case None => None
    case Some((vs, env)) => Some((ElaborateValues(vs), ElaborateEnv(env)))
  }

  lemma {:induction false} ElaborateBind(params: seq<Param>, vals: seq<Value>)
    ensures Bind(params, ElaborateValues(vals))
         == match Bind(params, vals) { case None => None case Some(b) => Some(ElaborateEnv(b)) }
    decreases |params|
  {
    hide ElaborateValue;
    if params != [] && params[0].variadic {
      ElaborateArray(vals);
      assert Bind(params, ElaborateValues(vals)).value == ElaborateEnv(Bind(params, vals).value);
    } else if params != [] && vals != [] {
      assert ElaborateValues(vals)[1..] == ElaborateValues(vals[1..]);
      ElaborateBind(params[1..], vals[1..]);
      if Bind(params, vals).Some? {
        assert Bind(params, ElaborateValues(vals)).value == ElaborateEnv(Bind(params, vals).value);
      }
    } else if params == [] && vals == [] {
      assert map[] == ElaborateEnv(map[]);
    }
  }

  lemma {:induction false} ElaborateArray(vals: seq<Value>)
    ensures ElaborateValue(Arr(vals)) == Arr(ElaborateValues(vals))
  {
  }

  lemma {:induction false} ElaborateBasics(w: World, op: int, u: Value, v: Value)
    ensures Apply(w, op, ElaborateValue(u), ElaborateValue(v)) == ElaborateValue(Apply(w, op, u, v))
    ensures Truthy(ElaborateValue(u)) <==> Truthy(u)
    ensures ElaborateValue(Null) == Null
    ensures u.Closure? <==> ElaborateValue(u).Closure?
    ensures u.Closure? ==> ElaborateValue(u) == Closure(ElaborateLam(u.lam), ElaborateEnv(u.captured))
    ensures forall n :: ElaborateValue(Int(n)) == Int(n)
  {
  }

  lemma {:induction false} ElaborateClosure(lam: Lam, env: Env)
    ensures ElaborateValue(Closure(lam, CaptureEnv(lam, env)))
         == Closure(ElaborateLam(lam), CaptureEnv(ElaborateLam(lam), ElaborateEnv(env)))
  {
    hide Temporary, Elaborate, Capture;
    ElaborateBasics(World(_ => 0, (_, _, _) => 0), 0, Closure(lam, CaptureEnv(lam, env)), Null);
    ElaborateLamIs(lam);
    assert ElaborateEnv(CaptureEnv(lam, env)) == CaptureEnv(ElaborateLam(lam), ElaborateEnv(env));
  }

  lemma {:induction false} ElaborateLamIs(lam: Lam)
    ensures var l := ElaborateLam(lam);
      && l.arrow == lam.arrow && l.params == lam.params && l.body == Elaborate(lam.body)
      && (!lam.arrow ==> l.uses == lam.uses)
  {
  }

  lemma {:induction false} ElaborateEval(w: World, e: Expr, env: Env, fuel: nat)
    ensures Eval(w, Elaborate(e), ElaborateEnv(env), fuel) == ElaborateResult(Eval(w, e, env, fuel))
    decreases fuel, e, 1
  {
    hide ElaborateValue, CaptureEnv, Call, Global, ElaborateLam, Capture, Bind, Apply;
    ElaborateBasics(w, 0, Null, Null);
    match e
    case Const(n) =>
    case Var(x) =>
    case Set(x, a) =>
      ElaborateEval(w, a, env, fuel);
      if Eval(w, a, env, fuel).Some? {
        var (v, env1) := Eval(w, a, env, fuel).value;
        assert ElaborateEnv(env1)[x := ElaborateValue(v)] == ElaborateEnv(env1[x := v]);
      }
    case Prim(op, a, b) =>
      ElaborateEval(w, a, env, fuel);
      if Eval(w, a, env, fuel).Some? {
        var (u, env1) := Eval(w, a, env, fuel).value;
        ElaborateEval(w, b, env1, fuel);
        if Eval(w, b, env1, fuel).Some? {
          ElaborateBasics(w, op, u, Eval(w, b, env1, fuel).value.0);
        }
      }
    case Seq(a, b) =>
      ElaborateEval(w, a, env, fuel);
      if Eval(w, a, env, fuel).Some? {
        ElaborateEval(w, b, Eval(w, a, env, fuel).value.1, fuel);
      }
    case If(a, b, c) =>
      ElaborateEval(w, a, env, fuel);
      if Eval(w, a, env, fuel).Some? {
        var (u, env1) := Eval(w, a, env, fuel).value;
        ElaborateBasics(w, 0, u, u);
        ElaborateEval(w, b, env1, fuel);
        ElaborateEval(w, c, env1, fuel);
      }
    case Lambda(lam) =>
      ElaborateLambdaForm(lam);
      ElaborateClosure(lam, env);
    case Invoke(f, args) =>
      ElaborateInvoke(w, e, env, fuel);
  }

  lemma {:induction false} ElaborateLambdaForm(lam: Lam)
    ensures Elaborate(Lambda(lam)) == Lambda(ElaborateLam(lam))
  {
  }

  lemma {:induction false} ElaborateInvoke(w: World, e: Expr, env: Env, fuel: nat)
    requires e.Invoke?
    ensures Eval(w, Elaborate(e), ElaborateEnv(env), fuel) == ElaborateResult(Eval(w, e, env, fuel))
    decreases fuel, e, 0
  {
    hide ElaborateValue, CaptureEnv, Call, Global, ElaborateLam, Capture, ElaborateEnv, Bind;
    ElaborateEval(w, e.callee, env, fuel);
    if Eval(w, e.callee, env, fuel).Some? {
      var (g, env1) := Eval(w, e.callee, env, fuel).value;
      ElaborateEvalList(w, e.args, env1, fuel);
      ElaborateBasics(w, 0, g, g);
      if EvalList(w, e.args, env1, fuel).Some? && g.Closure? && fuel > 0 {
        ElaborateCall(w, g.lam, g.captured, EvalList(w, e.args, env1, fuel).value.0, fuel - 1);
      }
    }
  }

  lemma {:induction false} ElaborateEvalList(w: World, es: seq<Expr>, env: Env, fuel: nat)
    ensures EvalList(w, ElaborateList(es), ElaborateEnv(env), fuel) == ElaborateListResult(EvalList(w, es, env, fuel))
    decreases fuel, es, 0
  {
    hide ElaborateValue, ElaborateEnv, Global;
    if es != [] {
      assert ElaborateList(es)[1..] == ElaborateList(es[1..]);
      ElaborateEval(w, es[0], env, fuel);
      if Eval(w, es[0], env, fuel).Some? {
        var (v, env1) := Eval(w, es[0], env, fuel).value;
        ElaborateEvalList(w, es[1..], env1, fuel);
        if EvalList(w, es[1..], env1, fuel).Some? {
          var vs := EvalList(w, es[1..], env1, fuel).value.0;
          assert ([v] + vs)[1..] == vs;
        }
      }
    }
  }

  lemma {:induction false} ElaborateCall(w: World, lam: Lam, captured: Env, vals: seq<Value>, fuel: nat)
    ensures Call(w, ElaborateLam(lam), ElaborateEnv(captured), ElaborateValues(vals), fuel)
         == match Call(w, lam, captured, vals, fuel) { case None => None case Some(v) => Some(ElaborateValue(v)) }
    decreases fuel, lam, 2
  {
    hide ElaborateValue, Global, ElaborateLam, Bind, Eval;
    ElaborateLamIs(lam);
    ElaborateBind(lam.params, vals);
    if Bind(lam.params, vals).Some? {
      var b := Bind(lam.params, vals).value;
      assert ElaborateEnv(captured + b) == ElaborateEnv(captured) + ElaborateEnv(b);
      ElaborateEval(w, lam.body, captured + b, fuel);
    }
  }

  /** The whole law. The converted program yields the value that corresponds to what the source
      program yields, at every depth of calls; where one has no value, neither has the other. */
  lemma {:induction false} ConversionPreservesMeaning(w: World, e: Expr, fuel: nat)
    requires Proper(e)
    ensures var source := Eval(w, e, map[], fuel);
      var target := TEval(w, Convert(Elaborate(e)), map[], fuel);
      && (source.None? <==> target.None?)
      && (source.Some? ==> target.value.0 == Object(ElaborateValue(source.value.0)))
  {
    hide Eval, TEval, Object, ElaborateValue;
    assert ElaborateEnv(map[]) == map[];
    ElaborateEval(w, e, map[], fuel);
    ElaboratedPreserves(w, e, fuel);
  }
}

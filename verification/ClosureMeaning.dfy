/** What lambdas and their converted forms mean, and that the conversion keeps it. */
module ClosureMeaning {
  import opened Wrappers
  import opened Closures

  // ----- the source language -----

  datatype Value =
    | Null
    | Int(n: int)
    | Arr(items: seq<Value>)
    | Closure(lam: Lam, captured: map<Name, Value>)

  type Env = map<Name, Value>

  /** The variables that are the same in every scope, and the meaning of the operators. */
  datatype World = World(global: Name -> int, prim: (int, int, int) -> int)

  function Get(env: Env, x: Name): Value {
    if x in env then env[x] else Null
  }

  function Read(w: World, env: Env, x: Name): Value {
    if Global(x) then Int(w.global(x)) else Get(env, x)
  }

  function Apply(w: World, op: int, a: Value, b: Value): Value {
    if a.Int? && b.Int? then Int(w.prim(op, a.n, b.n)) else Null
  }

  predicate Truthy(v: Value) {
    v.Int? && v.n != 0
  }

  /** Capture by value: an arrow function takes the whole scope, another lambda what it lists. */
  function CaptureEnv(lam: Lam, env: Env): Env {
    if lam.arrow then map x | x in env && !Temporary(x) :: env[x]
    else map x | x in env && x in lam.uses :: env[x]
  }

  /** Parameter passing; a variadic parameter collects the rest. */
  function Bind(params: seq<Param>, vals: seq<Value>): Option<Env>
    decreases |params|
  {
    if params == [] then (if vals == [] then Some(map[]) else None)
    else if params[0].variadic then Some(map[params[0].name := Arr(vals)])
    else if vals == [] then None
    else
      match Bind(params[1..], vals[1..])
      case None => None
      case Some(m) => Some(map[params[0].name := vals[0]] + m)
  }

  /** Evaluation, with at most `fuel` nested calls. Assignments are seen by what comes after. */
  function Eval(w: World, e: Expr, env: Env, fuel: nat): Option<(Value, Env)>
    decreases fuel, e, 0
  {
    match e
    case Const(n) => Some((Int(n), env))
    case Var(x) => Some((Read(w, env, x), env))
    case Set(x, a) =>
      (match Eval(w, a, env, fuel)
       case None => None
       case Some((v, env1)) => Some((v, env1[x := v])))
    case Prim(op, a, b) =>
      (match Eval(w, a, env, fuel)
       case None => None
       case Some((u, env1)) =>
         match Eval(w, b, env1, fuel)
         case None => None
         case Some((v, env2)) => Some((Apply(w, op, u, v), env2)))
    case Seq(a, b) =>
      (match Eval(w, a, env, fuel)
       case None => None
       case Some((_, env1)) => Eval(w, b, env1, fuel))
    case If(a, b, c) =>
      (match Eval(w, a, env, fuel)
       case None => None
       case Some((u, env1)) => if Truthy(u) then Eval(w, b, env1, fuel) else Eval(w, c, env1, fuel))
    case Lambda(lam) => Some((Closure(lam, CaptureEnv(lam, env)), env))
    case Invoke(f, args) =>
      (match Eval(w, f, env, fuel)
       case None => None
       case Some((g, env1)) =>
         match EvalList(w, args, env1, fuel)
         case None => None
         case Some((vals, env2)) =>
           if !g.Closure? || fuel == 0 then None
           else
             match Call(w, g.lam, g.captured, vals, fuel - 1)
             case None => None
             case Some(v) => Some((v, env2)))
  }

  function EvalList(w: World, es: seq<Expr>, env: Env, fuel: nat): Option<(seq<Value>, Env)>
    decreases fuel, es, 0
  {
    if es == [] then Some(([], env))
    else
      match Eval(w, es[0], env, fuel)
      case None => None
      case Some((v, env1)) =>
        match EvalList(w, es[1..], env1, fuel)
        case None => None
        case Some((vs, env2)) => Some(([v] + vs, env2))
  }

  /** Calling a closure: its body sees what was captured, and its parameters. */
  function Call(w: World, lam: Lam, captured: Env, vals: seq<Value>, fuel: nat): Option<Value>
    decreases fuel, lam, 1
  {
    match Bind(lam.params, vals)
    case None => None
    case Some(b) =>
      match Eval(w, lam.body, captured + b, fuel)
      case None => None
      case Some((v, _)) => Some(v)
  }

  // ----- the converted program -----

  datatype FunParam = FunParam(param: Param, fromUse: bool)

  datatype CallArg = Prop(field: Name) | Arg(name: Name) | Spread(name: Name)

  /** A lambda class: its fields, the constructor's parameters and its assignments of parameters to
      fields, the parameters of __invoke and the arguments it passes on, and the lambda function. */
  datatype Class = Class(
    fields: seq<Name>,
    constructParams: seq<Name>,
    inits: seq<(Name, Name)>,
    invokeParams: seq<Param>,
    callArgs: seq<CallArg>,
    funParams: seq<FunParam>,
    body: TExpr)

  datatype TExpr =
    | TConst(n: int)
    | TVar(x: Name)
    | TSet(x: Name, e: TExpr)
    | TPrim(op: int, left: TExpr, right: TExpr)
    | TSeq(first: TExpr, second: TExpr)
    | TIf(cond: TExpr, yes: TExpr, no: TExpr)
    | TNew(cls: Class, names: seq<Name>)
    | TInvoke(callee: TExpr, args: seq<TExpr>)

  datatype TValue =
    | TNull
    | TInt(n: int)
    | TArr(items: seq<TValue>)
    | TObj(cls: Class, fields: map<Name, TValue>)

  type TEnv = map<Name, TValue>

  // ----- the conversion -----

  /** patch_lambda_function_add_uses_as_arguments. */
  function FunParams(lam: Lam): seq<FunParam> {
    seq(|lam.uses|, i requires 0 <= i < |lam.uses| => FunParam(Param(lam.uses[i], false), true))
    + seq(|lam.params|, i requires 0 <= i < |lam.params| => FunParam(lam.params[i], false))
  }

  /** One argument of the call that __invoke makes. */
  function CallArgOf(p: FunParam): CallArg {
    if p.fromUse then Prop(p.param.name) else if p.param.variadic then Spread(p.param.name) else Arg(p.param.name)
  }

  function CallArgs(ps: seq<FunParam>): seq<CallArg> {
    seq(|ps|, i requires 0 <= i < |ps| => CallArgOf(ps[i]))
  }

  function InvokeParams(ps: seq<FunParam>): seq<Param> {
    if ps == [] then []
    else (if ps[0].fromUse then [] else [ps[0].param]) + InvokeParams(ps[1..])
  }

  function ConstructParam(use: Name): Name {
    if use == THIS then CAPTURED_THIS else use
  }

  function ConstructParams(uses: seq<Name>): seq<Name> {
    seq(|uses|, i requires 0 <= i < |uses| => ConstructParam(uses[i]))
  }

  /** Each field with the parameter it is assigned. */
  function Inits(uses: seq<Name>): seq<(Name, Name)> {
    seq(|uses|, i requires 0 <= i < |uses| => (uses[i], ConstructParam(uses[i])))
  }

  function Convert(e: Expr): TExpr {
    match e
    case Const(n) => TConst(n)
    case Var(x) => TVar(x)
    case Set(x, a) => TSet(x, Convert(a))
    case Prim(op, a, b) => TPrim(op, Convert(a), Convert(b))
    case Seq(a, b) => TSeq(Convert(a), Convert(b))
    case If(a, b, c) => TIf(Convert(a), Convert(b), Convert(c))
    case Lambda(lam) => TNew(ConvertLam(lam), lam.uses)
    case Invoke(f, args) => TInvoke(Convert(f), ConvertList(args))
  }

  function ConvertList(es: seq<Expr>): seq<TExpr> {
    if es == [] then [] else [Convert(es[0])] + ConvertList(es[1..])
  }

  /** generate_lambda_class_wrapping_lambda_function. */
  function ConvertLam(lam: Lam): Class {
    Class(
      lam.uses,
      ConstructParams(lam.uses),
      Inits(lam.uses),
      InvokeParams(FunParams(lam)),
      CallArgs(FunParams(lam)),
      FunParams(lam),
      Convert(lam.body))
  }

  // ----- what the converted program means -----

  function TGet(env: TEnv, x: Name): TValue {
    if x in env then env[x] else TNull
  }

  function TRead(w: World, env: TEnv, x: Name): TValue {
    if Global(x) then TInt(w.global(x)) else TGet(env, x)
  }

  function ReadAll(w: World, env: TEnv, names: seq<Name>): seq<TValue> {
    seq(|names|, i requires 0 <= i < |names| => TRead(w, env, names[i]))
  }

  function TBind(params: seq<Param>, vals: seq<TValue>): Option<TEnv>
    decreases |params|
  {
    if params == [] then (if vals == [] then Some(map[]) else None)
    else if params[0].variadic then Some(map[params[0].name := TArr(vals)])
    else if vals == [] then None
    else
      match TBind(params[1..], vals[1..])
      case None => None
      case Some(m) => Some(map[params[0].name := vals[0]] + m)
  }

  function Plain(names: seq<Name>): seq<Param> {
    seq(|names|, i requires 0 <= i < |names| => Param(names[i], false))
  }

  function ParamsOf(ps: seq<FunParam>): seq<Param> {
    seq(|ps|, i requires 0 <= i < |ps| => ps[i].param)
  }

  /** The body of the constructor: each field is assigned its parameter. */
  function RunInits(inits: seq<(Name, Name)>, env: TEnv): TEnv {
    if inits == [] then map[] else map[inits[0].0 := TGet(env, inits[0].1)] + RunInits(inits[1..], env)
  }

  /** The values __invoke passes on, read from the object's fields and its own parameters. */
  function Passed(args: seq<CallArg>, fields: TEnv, env: TEnv): seq<TValue> {
    if args == [] then []
    else
      (match args[0]
       case Prop(x) => [TGet(fields, x)]
       case Arg(x) => [TGet(env, x)]
       case Spread(x) => if TGet(env, x).TArr? then TGet(env, x).items else [])
      + Passed(args[1..], fields, env)
  }

  function TEval(w: World, e: TExpr, env: TEnv, fuel: nat): Option<(TValue, TEnv)>
    decreases fuel, e, 0
  {
    match e
    case TConst(n) => Some((TInt(n), env))
    case TVar(x) => Some((TRead(w, env, x), env))
    case TSet(x, a) =>
      (match TEval(w, a, env, fuel)
       case None => None
       case Some((v, env1)) => Some((v, env1[x := v])))
    case TPrim(op, a, b) =>
      (match TEval(w, a, env, fuel)
       case None => None
       case Some((u, env1)) =>
         match TEval(w, b, env1, fuel)
         case None => None
         case Some((v, env2)) =>
           Some((if u.TInt? && v.TInt? then TInt(w.prim(op, u.n, v.n)) else TNull, env2)))
    case TSeq(a, b) =>
      (match TEval(w, a, env, fuel)
       case None => None
       case Some((_, env1)) => TEval(w, b, env1, fuel))
    case TIf(a, b, c) =>
      (match TEval(w, a, env, fuel)
       case None => None
       case Some((u, env1)) =>
         if u.TInt? && u.n != 0 then TEval(w, b, env1, fuel) else TEval(w, c, env1, fuel))
    case TNew(cls, names) =>
      (match TBind(Plain(cls.constructParams), ReadAll(w, env, names))
       case None => None
       case Some(b) => Some((TObj(cls, RunInits(cls.inits, b)), env)))
    case TInvoke(f, args) =>
      (match TEval(w, f, env, fuel)
       case None => None
       case Some((g, env1)) =>
         match TEvalList(w, args, env1, fuel)
         case None => None
         case Some((vals, env2)) =>
           if !g.TObj? || fuel == 0 then None
           else
             match TCall(w, g.cls, g.fields, vals, fuel - 1)
             case None => None
             case Some(v) => Some((v, env2)))
  }

  function TEvalList(w: World, es: seq<TExpr>, env: TEnv, fuel: nat): Option<(seq<TValue>, TEnv)>
    decreases fuel, es, 0
  {
    if es == [] then Some(([], env))
    else
      match TEval(w, es[0], env, fuel)
      case None => None
      case Some((v, env1)) =>
        match TEvalList(w, es[1..], env1, fuel)
        case None => None
        case Some((vs, env2)) => Some(([v] + vs, env2))
  }

  /** Calling __invoke, which calls the lambda function. */
  function TCall(w: World, cls: Class, fields: TEnv, vals: seq<TValue>, fuel: nat): Option<TValue>
    decreases fuel, cls, 1
  {
    match TBind(cls.invokeParams, vals)
    case None => None
    case Some(own) =>
      match TBind(ParamsOf(cls.funParams), Passed(cls.callArgs, fields, own))
      case None => None
      case Some(b) =>
        match TEval(w, cls.body, b, fuel)
        case None => None
        case Some((v, _)) => Some(v)
  }

  // ----- corresponding values -----

  /** A closure corresponds to the object of its class with the listed variables in the fields. */
  ghost function Object(v: Value): TValue {
    match v
    case Null => TNull
    case Int(n) => TInt(n)
    case Arr(items) => TArr(Objects(items))
    case Closure(lam, captured) =>
      TObj(ConvertLam(lam), map x | x in lam.uses :: if x in captured then Object(captured[x]) else TNull)
  }

  ghost function Objects(vs: seq<Value>): seq<TValue> {
    if vs == [] then [] else [Object(vs[0])] + Objects(vs[1..])
  }
}

/** What a signal expression means to one evaluation, of the interpreter or of compiled code.

    Every stateful operator is an abstract machine: `init` gives the state a prewarmed slot holds and
    `step` one update, both chosen by the call itself (its name, its literal period, its ticker).
    Values, machine states and markets are type parameters, so every result holds for any operators. */
module Evaluation {
  import opened Ast

  datatype Ops<!M, !V, !S> = Ops(
    num: Bits64 -> V,
    neg: V -> V,
    bin: (BinaryOpKind, V, V) -> V,
    isTrue: V -> bool,
    market: (M, string, string) -> V,
    math: (string, V) -> V,
    init: Expr -> S,
    step: (Expr, seq<V>, S) -> (V, S),
    warm: (Expr, seq<V>, S) -> (V, S))

  /** One evaluation context.  `warmIds` is empty except for the specialised program, where the listed
      slots use the `warm` step, the one compiled without its warm-up guards.  `noiseFirst` says in which order
      kalman1d takes its arguments: the interpreter evaluates the noise before the sample, compiled code goes
      from left to right. */
  datatype Env<!M, !V, !S> =
    Env(ops: Ops<M, V, S>, market: M, params: int -> V, warmIds: set<int>, noiseFirst: bool)

  predicate LeftToRight<M, V, S>(env: Env<M, V, S>) {
    !env.noiseFirst
  }

  /** The same context, as the interpreter evaluates in it. */
  function NoiseFirst<M, V, S>(env: Env<M, V, S>): Env<M, V, S> {
    env.(noiseFirst := true)
  }

  /** `slots` is the signal context, `cache` the per-evaluation cache, and `log` counts how often each slot was
      stepped. */
  datatype EvalState<V, S> = EvalState(slots: map<int, S>, cache: map<int, V>, log: multiset<int>)

  /** Operators whose period must be a literal, and where it stands. */
  function PeriodIndex(name: string): nat {
    if KindOf(name).RollingCorr? || KindOf(name).RollingBeta? then 2 else 1
  }

  predicate HasPeriod(name: string) {
    var k := KindOf(name);
    IsStatefulOp(name) && !k.EmaAlpha? && !k.CrossAbove? && !k.CrossBelow? && !k.Kalman1d?
  }

  function Arity(name: string): nat {
    var k := KindOf(name);
    if IsMarketFn(name) || IsMathFn(name) then 1
    else if k.RollingCorr? || k.RollingBeta? || k.Kalman1d? then 3
    else 2
  }

  /** The arguments that are evaluated: all of them but a leading ticker. */
  function SourceArgs(name: string, args: seq<Expr>): seq<Expr> {
    if IsTickerFn(name) && |args| > 0 then args[1..] else args
  }

  /** What both evaluators accept in a body after inlining and id allocation: known functions with
      the right argument count, tickers only as the first argument of market functions, literal
      periods, and node ids on exactly the stateful calls. */
  predicate Runnable(e: Expr)
    decreases e, 1
  {
    match e
    case Num(_) => true
    case Ident(_) => false
    case Param(_, _) => true
    case Unary(_, x) => Runnable(x)
    case Binary(_, l, r) => Runnable(l) && Runnable(r)
    case Cond(c, t, f) => Runnable(c) && Runnable(t) && Runnable(f)
    case Call(n, args, id) =>
      && (IsMarketFn(n) || IsMathFn(n) || IsStatefulOp(n))
      && |args| == Arity(n)
      && (IsTickerFn(n) ==> args[0].Ident?)
      && (HasPeriod(n) ==> args[PeriodIndex(n)].Num?)
      && (if IsStatefulOp(n) then id > 0 else id == NO_NODE)
      && RunnableArgs(SourceArgs(n, args))
  }

  predicate RunnableArgs(args: seq<Expr>)
    decreases args, 0
  {
    args == [] || (Runnable(args[0]) && RunnableArgs(args[1..]))
  }

  function SlotOf<M, V, S>(env: Env<M, V, S>, slots: map<int, S>, call: Expr): S
    requires call.Call?
  {
    if call.nodeId in slots then slots[call.nodeId] else env.ops.init(CloneExpr(call))
  }

  function StepAt<M, V, S>(env: Env<M, V, S>, call: Expr, vs: seq<V>, s: S): (V, S)
    requires call.Call?
  {
    if call.nodeId in env.warmIds then env.ops.warm(CloneExpr(call), vs, s) else env.ops.step(CloneExpr(call), vs, s)
  }

  /** Push the evaluated inputs into the call's slot and remember the result for this evaluation. */
  function Fire<M, V, S>(env: Env<M, V, S>, call: Expr, vs: seq<V>, st: EvalState<V, S>): (V, EvalState<V, S>)
    requires call.Call?
  {
    var (v, s) := StepAt(env, call, vs, SlotOf(env, st.slots, call));
    (v, EvalState(st.slots[call.nodeId := s], st.cache[call.nodeId := v], st.log + multiset{call.nodeId}))
  }

  /** What a ticker function reads from the market; no input at all for the others. */
  function MarketInput<M, V, S>(env: Env<M, V, S>, n: string, args: seq<Expr>): seq<V> {
    if IsTickerFn(n) && |args| > 0 && args[0].Ident? then [env.ops.market(env.market, n, args[0].name)] else []
  }

  /** The arguments in the order they are evaluated in. */
  function ArgOrder(noiseFirst: bool, n: string, args: seq<Expr>): (r: seq<Expr>)
    requires |args| == Arity(n)
    requires IsStatefulOp(n)
  {
    if noiseFirst && KindOf(n).Kalman1d? then [args[1], args[2], args[0]] else SourceArgs(n, args)
  }

  /** Their values back in source order. */
  function SourceOrder<V>(noiseFirst: bool, n: string, vs: seq<V>): seq<V> {
    if noiseFirst && KindOf(n).Kalman1d? && |vs| == 3 then [vs[2], vs[0], vs[1]] else vs
  }

  lemma SingleArg(args: seq<Expr>)
    requires |args| == 1
    ensures SizeArgs(args) == Size(args[0])
    ensures RunnableArgs(args) <==> Runnable(args[0])
  {
    assert args[1..] == [];
  }

  lemma ThreeArgs(a: Expr, b: Expr, c: Expr)
    ensures SizeArgs([a, b, c]) == Size(a) + Size(b) + Size(c)
    ensures RunnableArgs([a, b, c]) <==> Runnable(a) && Runnable(b) && Runnable(c)
  {
    assert [a, b, c][1..] == [b, c];
    assert [b, c][1..] == [c];
    SingleArg([c]);
    assert SizeArgs([b, c]) == Size(b) + SizeArgs([c]);
    assert RunnableArgs([b, c]) <==> Runnable(b) && RunnableArgs([c]);
    assert RunnableArgs([c]) <==> Runnable(c);
  }

  lemma OrderRunnable(noiseFirst: bool, e: Expr)
    requires Runnable(e) && e.Call? && IsStatefulOp(e.name)
    ensures RunnableArgs(ArgOrder(noiseFirst, e.name, e.args))
    ensures SizeArgs(ArgOrder(noiseFirst, e.name, e.args)) < Size(e)
  {
    if KindOf(e.name).Kalman1d? {
      var a := e.args;
      assert a == [a[0], a[1], a[2]];
      ThreeArgs(a[0], a[1], a[2]);
      ThreeArgs(a[1], a[2], a[0]);
    }
  }

  /** One visit of a tree: the value, and the state it leaves. */
  function Eval<M, V, S>(env: Env<M, V, S>, e: Expr, st: EvalState<V, S>): (V, EvalState<V, S>)
    requires Runnable(e)
    decreases Size(e), 1
  {
    match e
    case Num(b) => (env.ops.num(b), st)
    case Param(_, id) => (env.params(id), st)
    case Unary(op, x) =>
      var (v, st1) := Eval(env, x, st);
      (if op == Plus then v else env.ops.neg(v), st1)
    case Binary(op, l, r) =>
      var (lv, st1) := Eval(env, l, st);
      var (rv, st2) := Eval(env, r, st1);
      (env.ops.bin(op, lv, rv), st2)
    case Cond(c, t, f) =>
      var (cv, st1) := Eval(env, c, st);
      if env.ops.isTrue(cv) then Eval(env, t, st1) else Eval(env, f, st1)
    case Call(n, args, id) =>
      if id > 0 && id in st.cache then (st.cache[id], st)
      else if IsMarketFn(n) then (MarketInput(env, n, args)[0], st)
      else if IsMathFn(n) then
        SingleArg(args);
        var (v, st1) := Eval(env, args[0], st);
        (env.ops.math(n, v), st1)
      else
        OrderRunnable(env.noiseFirst, e);
        var (vs, st1) := EvalArgs(env, ArgOrder(env.noiseFirst, n, args), st);
        Fire(env, e, MarketInput(env, n, args) + SourceOrder(env.noiseFirst, n, vs), st1)
  }

  function EvalArgs<M, V, S>(env: Env<M, V, S>, args: seq<Expr>, st: EvalState<V, S>): (r: (seq<V>, EvalState<V, S>))
    requires RunnableArgs(args)
    ensures |r.0| == |args|
    decreases SizeArgs(args), 2, |args|
  {
    if args == [] then ([], st)
    else
      var (v, st1) := Eval(env, args[0], st);
      var (vs, st2) := EvalArgs(env, args[1..], st1);
      ([v] + vs, st2)
  }
}

/** The interpreter in its own form: visitors that assign `result`, fill the per-evaluation cache and
    update the slots of a signal context, proved against the meaning in `Evaluation`.  Its kalman1d takes the noise
    before the sample. */
module TreeInterpreter {
  import opened Ast
  import opened Evaluation

  class Interpreter<M, V, S> {
    var env: Env<M, V, S>
    var result: V
    var cache: map<int, V>
    var slots: map<int, S>
    ghost var log: multiset<int>

    ghost function State(): EvalState<V, S>
      reads this
    {
      EvalState(slots, cache, log)
    }

    constructor (env: Env<M, V, S>, zero: V, slots: map<int, S>)
      ensures this.env == NoiseFirst(env) && this.slots == slots && cache == map[] && log == multiset{}
    {
      this.env := NoiseFirst(env);
      this.result := zero;
      this.cache := map[];
      this.slots := slots;
      this.log := multiset{};
    }

    /** Evaluate one signal body: the cache is cleared first, so nothing is shared across signals. */
    method Evaluate(body: Expr, market: M) returns (value: V)
      requires Runnable(body) && env.noiseFirst
      modifies this
      ensures env == old(env).(market := market)
      ensures (value, State()) == Eval(env, body, EvalState(old(slots), map[], old(log)))
    {
      env := env.(market := market);
      cache := map[];
      Visit(body);
      value := result;
    }

    method Visit(e: Expr)
      requires Runnable(e) && env.noiseFirst
      modifies this`result, this`cache, this`slots, this`log
      ensures (result, State()) == Eval(env, e, old(State()))
      decreases Size(e), 1
    {
      match e
      case Num(b) => result := env.ops.num(b);
      case Param(_, id) => result := env.params(id);
      case Unary(op, x) =>
        Visit(x);
        if op == Minus { result := env.ops.neg(result); }
      case Binary(op, l, r) =>
        Visit(l);
        var lv := result;
        Visit(r);
        result := env.ops.bin(op, lv, result);
      case Cond(c, t, f) =>
        Visit(c);
        if env.ops.isTrue(result) { Visit(t); } else { Visit(f); }
      case Call(_, _, _) => VisitCall(e);
    }

    method VisitCall(e: Expr)
      requires Runnable(e) && env.noiseFirst && e.Call?
      modifies this`result, this`cache, this`slots, this`log
      ensures (result, State()) == Eval(env, e, old(State()))
      decreases Size(e), 0
    {
      if e.nodeId > 0 && e.nodeId in cache {
        result := cache[e.nodeId];
      } else if IsMarketFn(e.name) {
        result := MarketInput(env, e.name, e.args)[0];
      } else if IsMathFn(e.name) {
        SingleArg(e.args);
        Visit(e.args[0]);
        result := env.ops.math(e.name, result);
      } else {
        OrderRunnable(true, e);
        var vs := VisitArgs(ArgOrder(true, e.name, e.args));
        var (v, s) := StepAt(env, e, MarketInput(env, e.name, e.args) + SourceOrder(true, e.name, vs),
                             SlotOf(env, slots, e));
        slots := slots[e.nodeId := s];
        cache := cache[e.nodeId := v];
        log := log + multiset{e.nodeId};
        result := v;
      }
    }

    method VisitArgs(args: seq<Expr>) returns (vs: seq<V>)
      requires RunnableArgs(args) && env.noiseFirst
      modifies this`result, this`cache, this`slots, this`log
      ensures (vs, State()) == EvalArgs(env, args, old(State()))
      decreases SizeArgs(args), 2, |args|
    {
      if args == [] {
        vs := [];
      } else {
        Visit(args[0]);
        var v := result;
        var rest := VisitArgs(args[1..]);
        vs := [v] + rest;
      }
    }
  }
}

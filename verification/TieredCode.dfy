/** The two tiers as emitted code: run tick after tick, specialised code does what baseline code does from the
    warm-up threshold on. */
module TieredCode {
  import opened Ast
  import opened Evaluation
  import opened Ir
  import opened Codegen
  import opened NodeIds
  import opened Program
  import opened Warm
  import opened WarmRun
  import opened WarmOps
  import opened NoiseOrder
  import opened InterpreterOrder

  /** Running `code` once for each of the ticks `ms` writes these outputs and leaves this context. */
  ghost predicate CodeLeaves<M, V(!new), S>(ops: Ops<M, V, S>, params: int -> V, ids: set<int>, code: seq<Block>,
                                            slots: map<int, S>, ms: seq<M>, outs: seq<seq<V>>, slots': map<int, S>)
    decreases |ms|
  {
    if ms == [] then outs == [] && slots' == slots
    else outs != [] && exists n: nat ::
      var o := Run(Env(ops, ms[0], params, ids, false), code, n, Entry(slots));
      && o.Done? && LeavesBehind(o.c, outs[0], o.c.slots)
      && CodeLeaves(ops, params, ids, code, o.c.slots, ms[1..], outs[1..], slots')
  }

  /** The code's runs have one result. */
  lemma {:induction false} CodeLeavesOnce<M, V(!new), S>(ops: Ops<M, V, S>, params: int -> V, ids: set<int>,
                                                         code: seq<Block>, slots: map<int, S>, ms: seq<M>,
                                                         o1: seq<seq<V>>, s1: map<int, S>, o2: seq<seq<V>>,
                                                         s2: map<int, S>)
    requires CodeLeaves(ops, params, ids, code, slots, ms, o1, s1) &&
             CodeLeaves(ops, params, ids, code, slots, ms, o2, s2)
    ensures o1 == o2 && s1 == s2
    decreases |ms|
  {
    hide Run, LeavesBehind;
    if ms != [] {
      var env, e0 := Env(ops, ms[0], params, ids, false), Entry(slots);
      var m: nat :| Run(env, code, m, e0).Done? &&
        LeavesBehind(Run(env, code, m, e0).c, o1[0], Run(env, code, m, e0).c.slots) &&
        CodeLeaves(ops, params, ids, code, Run(env, code, m, e0).c.slots, ms[1..], o1[1..], s1);
      var n: nat :| Run(env, code, n, e0).Done? &&
        LeavesBehind(Run(env, code, n, e0).c, o2[0], Run(env, code, n, e0).c.slots) &&
        CodeLeaves(ops, params, ids, code, Run(env, code, n, e0).c.slots, ms[1..], o2[1..], s2);
      var c := Run(env, code, m, e0).c;
      RunOnce(env, code, m, n, e0, c, Run(env, code, n, e0).c);
      LeavesOnce(c, o1[0], o2[0], c.slots, c.slots);
      CodeLeavesOnce(ops, params, ids, code, c.slots, ms[1..], o1[1..], s1, o2[1..], s2);
      assert o1 == [o1[0]] + o1[1..] && o2 == [o2[0]] + o2[1..];
    }
  }

  /** The code computes, tick by tick, what evaluation does. */
  lemma {:induction false} CodeRunsTicks<M, V(!new), S>(ops: Ops<M, V, S>, params: int -> V, ids: set<int>,
                                                        bodies: seq<Expr>, slots: map<int, S>, ms: seq<M>)
    requires WellFormedArgs(bodies)
    ensures RunnableArgs(AllocateProgram(bodies, 1).0)
    ensures var withIds := AllocateProgram(bodies, 1).0;
      var (outs, slots') := RunTicks(ops, params, ids, withIds, slots, ms);
      CodeLeaves(ops, params, ids, CompileProgram(withIds), slots, ms, outs, slots')
    decreases |ms|
  {
    hide AllocateProgram, Run, EvalProgram, CompileProgram, LeavesBehind, RunTicks, CodeLeaves;
    AllocateProgramSound(bodies, 1, {});
    var withIds := AllocateProgram(bodies, 1).0;
    var code := CompileProgram(withIds);
    TicksUnfold(ops, params, ids, withIds, slots, ms);
    if ms == [] {
      NoTicksLeave(ops, params, ids, code, slots);
    } else {
      var env := Env(ops, ms[0], params, ids, false);
      var n, c := CompiledRuns(env, bodies, slots);
      var (vs, slots1, _) := EvalProgram(env, withIds, slots, multiset{});
      LeavesContext(c, vs, slots1);
      CodeRunsTicks(ops, params, ids, bodies, slots1, ms[1..]);
      var (rest, slots2) := RunTicks(ops, params, ids, withIds, slots1, ms[1..]);
      OneTickMore(ops, params, ids, code, slots, ms, n, vs, rest, slots2);
    }
  }

  lemma TicksUnfold<M, V, S>(ops: Ops<M, V, S>, params: int -> V, ids: set<int>, bodies: seq<Expr>, slots: map<int, S>,
                             ms: seq<M>)
    requires RunnableArgs(bodies)
    ensures RunTicks(ops, params, ids, bodies, slots, ms) ==
      if ms == [] then ([], slots)
      else
        var (vs, slots1, _) := EvalProgram(Env(ops, ms[0], params, ids, false), bodies, slots, multiset{});
        var (rest, slots2) := RunTicks(ops, params, ids, bodies, slots1, ms[1..]);
        ([vs] + rest, slots2)
  {
    hide EvalProgram;
  }

  lemma LeavesContext<V(!new), S>(c: Config<V, S>, vs: seq<V>, slots: map<int, S>)
    requires LeavesBehind(c, vs, slots)
    ensures c.slots == slots
  {
  }

  lemma NoTicksLeave<M, V(!new), S>(ops: Ops<M, V, S>, params: int -> V, ids: set<int>, code: seq<Block>,
                                    slots: map<int, S>)
    ensures CodeLeaves(ops, params, ids, code, slots, [], [], slots)
  {
  }

  lemma OneTickMore<M, V(!new), S>(ops: Ops<M, V, S>, params: int -> V, ids: set<int>, code: seq<Block>,
                                   slots: map<int, S>, ms: seq<M>, n: nat, vs: seq<V>, rest: seq<seq<V>>,
                                   slots': map<int, S>)
    requires ms != []
    requires var o := Run(Env(ops, ms[0], params, ids, false), code, n, Entry(slots));
      && o.Done? && LeavesBehind(o.c, vs, o.c.slots) &&
         CodeLeaves(ops, params, ids, code, o.c.slots, ms[1..], rest, slots')
    ensures CodeLeaves(ops, params, ids, code, slots, ms, [vs] + rest, slots')
  {
    hide Run, LeavesBehind;
    assert ([vs] + rest)[1..] == rest;
  }

  /** The lowered moving averages and lags: once baseline code has run for as many ticks as the threshold says,
      specialised code and baseline code write the same outputs and leave the same context on every later stream. */
  lemma SpecialisedCode<M, V(!new), T(!new)>(base: Ops<M, V, T>, ar: Arith<V>, params: int -> V, intOf: Bits64 -> int,
                                             bodies: seq<Expr>, before: seq<M>, after: seq<M>,
                                             warmed: map<int, OpState<V, T>>, outs0: seq<seq<V>>, outs: seq<seq<V>>,
                                             slots: map<int, OpState<V, T>>)
    requires WellFormedArgs(bodies)
    requires |before| >= ComputeProgramWarmupThreshold(AllocateProgram(bodies, 1).0, intOf)
    requires RunnableArgs(AllocateProgram(bodies, 1).0)
    requires CodeLeaves(LoweredOps(base, ar, intOf), params, {}, CompileProgram(AllocateProgram(bodies, 1).0), map[],
                        before, outs0, warmed)
    ensures var withIds, ops := AllocateProgram(bodies, 1).0, LoweredOps(base, ar, intOf);
      CodeLeaves(ops, params, CollectAll(withIds), CompileProgram(withIds), warmed, after, outs, slots) <==>
      CodeLeaves(ops, params, {}, CompileProgram(withIds), warmed, after, outs, slots)
  {
    hide AllocateProgram, CompileProgram, RunTicks, CodeLeaves, LoweredOps, ComputeProgramWarmupThreshold, CollectAll;
    var withIds, ops := AllocateProgram(bodies, 1).0, LoweredOps(base, ar, intOf);
    var code, ids := CompileProgram(withIds), CollectAll(withIds);
    CodeRunsTicks(ops, params, {}, bodies, map[], before);
    var (o0, w0) := RunTicks(ops, params, {}, withIds, map[], before);
    CodeLeavesOnce(ops, params, {}, code, map[], before, outs0, warmed, o0, w0);
    LoweredProgramSpecialises(base, ar, params, intOf, bodies, before, after);
    CodeRunsTicks(ops, params, {}, bodies, warmed, after);
    CodeRunsTicks(ops, params, ids, bodies, warmed, after);
    var (o1, s1) := RunTicks(ops, params, {}, withIds, warmed, after);
    if CodeLeaves(ops, params, ids, code, warmed, after, outs, slots) {
      CodeLeavesOnce(ops, params, ids, code, warmed, after, outs, slots, o1, s1);
    }
    if CodeLeaves(ops, params, {}, code, warmed, after, outs, slots) {
      CodeLeavesOnce(ops, params, {}, code, warmed, after, outs, slots, o1, s1);
    }
  }
}

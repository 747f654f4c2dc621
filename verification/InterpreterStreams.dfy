/** Settled programs on whole runs: the interpreter and the compiled code both compute the plain stream meaning. */
module InterpreterStreams {
  import opened Ast
  import opened Evaluation
  import opened Ir
  import opened Codegen
  import opened NodeIds
  import opened AllocSound
  import opened Program
  import opened Streams
  import opened StreamsProgram
  import opened AllocSteady
  import opened NoiseExchange
  import opened NoiseOrder
  import opened InterpreterOrder
  import opened SettledTrees

  lemma {:induction false} SessionsAgree<M, V, S>(ops: Ops<M, V, S>, params: int -> V, bodies: seq<Expr>, ms: seq<M>)
    requires RunnableArgs(bodies) && NoiseSharedArgs(bodies)
    ensures Session(ops, params, true, bodies, ms) == Session(ops, params, false, bodies, ms)
    ensures ms != [] ==> Tick(ops, params, true, bodies, ms) == Tick(ops, params, false, bodies, ms)
    decreases |ms|
  {
    hide EvalProgram;
    if ms != [] {
      var prev := ms[..|ms| - 1];
      SessionsAgree(ops, params, bodies, prev);
      ProgramOrdersAgree(EnvAt(ops, params, ms[|ms| - 1]), bodies, Session(ops, params, false, bodies, prev),
                         multiset{});
    }
  }

  /** Shared slots and the per-evaluation cache compute the plain stream meaning on every run from a fresh
      context, whichever way kalman1d takes its arguments, if every stateful call met in a branch equals an
      unconditional call that comes before it. */
  lemma InterpreterIsStreams<M, V, S(!new)>(ops: Ops<M, V, S>, params: int -> V, noiseFirst: bool, bodies: seq<Expr>,
                                            ms: seq<M>)
    requires WellFormedArgs(bodies) && AllSettled(bodies) && |ms| > 0
    ensures WellFormedArgs(CloneArgs(bodies))
    ensures var withIds := AllocateProgram(bodies, 1).0;
      RunnableArgs(withIds) && Tick(ops, params, noiseFirst, withIds, ms).0 ==
          ValArgs(ops, params, CloneArgs(bodies), ms)
  {
    hide KindOf, AllocateProgram, EvalProgram, Val, ValArgs, AllSteady;
    AllocateProgramSound(bodies, 1, {});
    var withIds := AllocateProgram(bodies, 1).0;
    var key := AllocateSteady(bodies, 1);
    AllLiveKeys(withIds, key);
    var prev := ms[..|ms| - 1];
    SessionSlots(ops, params, key, withIds, prev);
    TickVal(EnvAt(ops, params, ms[|ms| - 1]), key, withIds, Session(ops, params, false, withIds, prev), multiset{}, ms);
    SettledNoise(bodies, 1);
    SessionsAgree(ops, params, withIds, ms);
  }

  /** The compiled code, run at the last tick in the context its earlier ticks left, writes the stream meaning. */
  lemma CodeIsStreams<M, V(!new), S(!new)>(ops: Ops<M, V, S>, params: int -> V, bodies: seq<Expr>, ms: seq<M>)
      returns (n: nat)
    requires WellFormedArgs(bodies) && AllSettled(bodies) && |ms| > 0
    ensures WellFormedArgs(CloneArgs(bodies))
    ensures var withIds := AllocateProgram(bodies, 1).0;
      && RunnableArgs(withIds)
      && var context := Session(ops, params, false, withIds, ms[..|ms| - 1]);
      Finishes(Run(EnvAt(ops, params, ms[|ms| - 1]), CompileProgram(withIds), n, Entry(context)),
               ValArgs(ops, params, CloneArgs(bodies), ms), Session(ops, params, false, withIds, ms))
  {
    hide KindOf, AllocateProgram, EvalProgram, Val, ValArgs, Run, CompileProgram, LeavesBehind;
    InterpreterIsStreams(ops, params, false, bodies, ms);
    var withIds := AllocateProgram(bodies, 1).0;
    var c;
    n, c := CompiledRuns(EnvAt(ops, params, ms[|ms| - 1]), bodies,
                         Session(ops, params, false, withIds, ms[..|ms| - 1]));
  }
}

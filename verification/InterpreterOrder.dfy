/** Compiled programs against the interpreter as it is, with kalman1d's noise taken first: when they agree, and
    a program on which they do not. */
module InterpreterOrder {
  import opened Ast
  import opened Evaluation
  import opened Ir
  import opened Codegen
  import opened CodegenCorrect
  import opened NodeIds
  import opened AllocSound
  import opened Program
  import opened NoiseExchange
  import opened NoiseOrder
  import opened Symbolic
  import opened SymbolicRuns
  import opened OrderExact

  lemma {:induction false} RunOnce<M, V, S>(env: Env<M, V, S>, p: seq<Block>, m: nat, n: nat, c: Config<V, S>,
                                            c1: Config<V, S>, c2: Config<V, S>)
    requires Run(env, p, m, c) == Done(c1) && Run(env, p, n, c) == Done(c2)
    ensures c1 == c2
    decreases m
  {
    hide Step;
    match Step(env, p, c)
    case Running(d) => RunOnce(env, p, m - 1, n - 1, d, c1, c2);
    case Done(_) => {}
    case Stuck => {}
  }

  /** The machine stopped with these outputs, and no others, and this context. */
  ghost predicate LeavesBehind<V(!new), S>(c: Config<V, S>, vs: seq<V>, slots: map<int, S>) {
    c.slots == slots && OutputsAre(c.outs, 0, vs) && forall k: nat :: k in c.outs <==> k < |vs|
  }

  ghost predicate Finishes<V(!new), S>(o: Ir.Outcome<V, S>, vs: seq<V>, slots: map<int, S>) {
    o.Done? && LeavesBehind(o.c, vs, slots)
  }

  /** Running the compiled program from `slots` leaves the outputs and the context the interpreter leaves. */
  ghost predicate CompiledIsInterpreted<M, V(!new), S>(env: Env<M, V, S>, withIds: seq<Expr>, slots: map<int, S>)
    requires RunnableArgs(withIds)
  {
    var r := EvalProgram(NoiseFirst(env), withIds, slots, multiset{});
    exists n: nat :: Finishes(Run(env, CompileProgram(withIds), n, Entry(slots)), r.0, r.1)
  }

  lemma CompiledRuns<M, V(!new), S>(env: Env<M, V, S>, bodies: seq<Expr>, slots: map<int, S>)
      returns (n: nat, c: Config<V, S>)
    requires WellFormedArgs(bodies) && LeftToRight(env)
    ensures var withIds := AllocateProgram(bodies, 1).0;
      && RunnableArgs(withIds) && Run(env, CompileProgram(withIds), n, Entry(slots)) == Done(c)
      && LeavesBehind(c, EvalProgram(env, withIds, slots, multiset{}).0, EvalProgram(env, withIds, slots, multiset{}).1)
  {
    hide Run, AllocateProgram, EvalProgram, CompileProgram;
    n, c := ScalarProgramCorrect(env, bodies, slots);
  }

  lemma LeavesOnce<V(!new), S>(c: Config<V, S>, vs: seq<V>, ws: seq<V>, s1: map<int, S>, s2: map<int, S>)
    requires LeavesBehind(c, vs, s1) && LeavesBehind(c, ws, s2)
    ensures vs == ws && s1 == s2
  {
    assert |vs| == |ws| by {
      assert |vs| in c.outs <==> |vs| < |ws|;
      assert |ws| in c.outs <==> |ws| < |vs|;
    }
    forall k: nat | k < |vs| ensures vs[k] == ws[k] { assert c.outs[k] == vs[k] && c.outs[k] == ws[k]; }
  }

  /** Compiled and interpreted agree just where the two orders do. */
  lemma AgreeIffSameResult<M, V(!new), S>(env: Env<M, V, S>, bodies: seq<Expr>, slots: map<int, S>)
    requires WellFormedArgs(bodies) && LeftToRight(env)
    ensures var withIds := AllocateProgram(bodies, 1).0;
      RunnableArgs(withIds) && (CompiledIsInterpreted(env, withIds, slots) <==> SameResult(env, withIds, slots))
  {
    hide Run, AllocateProgram, EvalProgram, CompileProgram, LeavesBehind;
    var n, c := CompiledRuns(env, bodies, slots);
    var withIds := AllocateProgram(bodies, 1).0;
    var p, e0: Config<V, S> := CompileProgram(withIds), Entry(slots);
    var a, b := EvalProgram(env, withIds, slots, multiset{}), EvalProgram(NoiseFirst(env), withIds, slots, multiset{});
    if CompiledIsInterpreted(env, withIds, slots) {
      var m: nat :| Finishes(Run(env, p, m, e0), b.0, b.1);
      var d := Run(env, p, m, e0).c;
      RunOnce(env, p, n, m, e0, c, d);
      LeavesOnce(c, a.0, b.0, a.1, b.1);
    }
    if SameResult(env, withIds, slots) {
      assert Finishes(Run(env, p, n, e0), b.0, b.1);
    }
  }

  /** The interpreter and compiled code agree, for any operators, on any market and from any context, if symbolic
      runs in the two orders end alike. */
  lemma InterpreterAgrees<M, V(!new), S>(env: Env<M, V, S>, bodies: seq<Expr>, slots: map<int, S>)
    requires WellFormedArgs(bodies) && LeftToRight(env)
    ensures var withIds := AllocateProgram(bodies, 1).0;
      RunnableArgs(withIds) && (OrderIrrelevant(withIds) ==> CompiledIsInterpreted(env, withIds, slots))
  {
    hide AllocateProgram, CompiledIsInterpreted, SameResult, OrderIrrelevant;
    AgreeIffSameResult(env, bodies, slots);
    var withIds := AllocateProgram(bodies, 1).0;
    if OrderIrrelevant(withIds) { OrderDoesNotMatter(env, withIds, slots); }
  }

  /** And only then: otherwise the operators that build terms tell them apart, for some way the conditions come out. */
  lemma InterpreterAgreesIff(bodies: seq<Expr>)
    requires WellFormedArgs(bodies)
    ensures var withIds := AllocateProgram(bodies, 1).0;
      && RunnableArgs(withIds)
      && (OrderIrrelevant(withIds) <==> forall known :: CompiledIsInterpreted(FreeEnv(known), withIds,
        FreeSlots(withIds)))
  {
    hide AllocateProgram, CompiledIsInterpreted, SameResult, AlikeFrom, FreeEnv, FreeSlots;
    var withIds := AllocateProgram(bodies, 1).0;
    AllocateProgramSound(bodies, 1, {});
    forall known
      ensures CompiledIsInterpreted(FreeEnv(known), withIds, FreeSlots(withIds)) <==>
              SameResult(FreeEnv(known), withIds, FreeSlots(withIds))
      ensures OrderIrrelevant(withIds) ==> SameResult(FreeEnv(known), withIds, FreeSlots(withIds))
    {
      FreeLeftToRight(known);
      AgreeIffSameResult(FreeEnv(known), bodies, FreeSlots(withIds));
      if OrderIrrelevant(withIds) { OrderDoesNotMatter(FreeEnv(known), withIds, FreeSlots(withIds)); }
    }
    if !OrderIrrelevant(withIds) {
      var outcomes := Distinguished(withIds, map[]);
    }
  }

  lemma FreeLeftToRight(known: map<SymTerm, bool>)
    ensures LeftToRight(FreeEnv(known))
  {
  }

  /** It is enough that the noise of every kalman1d shares only whole trees. */
  lemma SharedNoiseIsIrrelevant(bodies: seq<Expr>)
    requires RunnableArgs(bodies) && NoiseSharedArgs(bodies)
    ensures OrderIrrelevant(bodies)
  {
    hide AlikeFrom, SameResult, FreeEnv, FreeSlots;
    if !OrderIrrelevant(bodies) {
      var outcomes := Distinguished(bodies, map[]);
      FreeLeftToRight(outcomes);
      SharedSameResult(FreeEnv(outcomes), bodies, FreeSlots(bodies));
      assert false;
    }
  }

  lemma SharedSameResult<M, V, S>(env: Env<M, V, S>, bodies: seq<Expr>, slots: map<int, S>)
    requires RunnableArgs(bodies) && NoiseSharedArgs(bodies) && LeftToRight(env)
    ensures SameResult(env, bodies, slots)
  {
    hide EvalProgram;
    ProgramOrdersAgree(env, bodies, slots, multiset{});
  }

  /** The whole program, with the steps counted too. */
  lemma {:induction false} ProgramOrdersAgree<M, V, S>(env: Env<M, V, S>, bodies: seq<Expr>, slots: map<int, S>,
                                                       log: multiset<int>)
    requires RunnableArgs(bodies) && NoiseSharedArgs(bodies) && LeftToRight(env)
    ensures EvalProgram(NoiseFirst(env), bodies, slots, log) == EvalProgram(env, bodies, slots, log)
    decreases bodies
  {
    hide Eval, NoiseShared;
    if bodies != [] {
      OrdersAgree(env, bodies[0], EvalState(slots, map[], log));
      var st := Eval(env, bodies[0], EvalState(slots, map[], log)).1;
      ProgramOrdersAgree(env, bodies[1..], st.slots, st.log);
    }
  }
}

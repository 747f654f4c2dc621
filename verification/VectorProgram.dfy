/** Whole vectorised programs against the scalar program, lane by lane. */
module VectorProgram {
  import opened Options
  import opened Ast
  import opened Evaluation
  import opened Sharing
  import opened NodeIds
  import opened Ir
  import opened Codegen
  import opened CodegenCorrect
  import opened Program
  import opened Streams
  import opened StreamsProgram
  import opened AllocSteady
  import opened Vector
  import opened VectorCorrect

  predicate SteadyAll(bodies: seq<Expr>) {
    bodies == [] || (Steady(bodies[0], {}) && SteadyAll(bodies[1..]))
  }

  lemma {:induction false} AllSteadySteady(bodies: seq<Expr>, key: map<int, Expr>)
    requires AllSteady(bodies, key)
    ensures SteadyAll(bodies)
    decreases bodies
  {
    if bodies != [] { AllSteadySteady(bodies[1..], key); }
  }

  /** The stores of one signal: its own K places and no other. */
  lemma {:induction false} StoreLanesSpec<M, V(!new), S>(ve: VEnv<M, V, S>, regs: map<nat, seq<V>>, x: Value,
                                                         start: nat, j: nat, outs: map<nat, V>, k: nat)
    requires j <= |ve.markets| && k < |ve.markets|
    ensures var w := |ve.markets|;
      var o := StoreLanes(ve, regs, x, start, j, outs);
      && (forall at: nat :: at in o <==> at in outs || start + j <= at < start + w)
      && (forall at: nat | at in outs && !(start + j <= at < start + w) :: o[at] == outs[at])
      && (j <= k ==> start + k in o && o[start + k] == LaneOf(ve, regs, x, k))
    decreases |ve.markets| - j
  {
    if j < |ve.markets| {
      var v, at: nat := LaneOf(ve, regs, x, j), start + j;
      var outs1 := outs[at := v];
      StoreLanesSpec(ve, regs, x, start, j + 1, outs1, k);
      assert StoreLanes(ve, regs, x, start, j, outs) == StoreLanes(ve, regs, x, start, j + 1, outs1);
      if j == k { assert at in outs1 && outs1[at] == v; }
    }
  }

  /** What the signals from `index` on have written, seen from lane `k`. */
  ghost predicate LaneOuts<V(!new)>(outs: map<nat, V>, outs': map<nat, V>, width: nat, k: nat, index: nat, vs: seq<V>) {
    && (forall at: nat :: at in outs' <==> at in outs || index * width <= at < (index + |vs|) * width)
    && (forall at: nat | at in outs && at < index * width :: outs'[at] == outs[at])
    && (forall i | 0 <= i < |vs| :: OutAt(outs', width, k, index + i, vs[i]))
  }

  ghost predicate OutAt<V(!new)>(outs: map<nat, V>, width: nat, k: nat, signal: nat, v: V) {
    var at := Place(signal, width, k);
    at in outs && outs[at] == v
  }

  function Place(signal: nat, width: nat, lane: nat): nat {
    signal * width + lane
  }

  /** The stores of one signal. */
  ghost predicate Stored<V(!new)>(o0: map<nat, V>, o1: map<nat, V>, width: nat, k: nat, index: nat, v: V) {
    && (forall at: nat :: at in o1 <==> at in o0 || index * width <= at < index * width + width)
    && (forall at: nat | at in o0 && at < index * width :: o1[at] == o0[at])
    && OutAt(o1, width, k, index, v)
  }

  lemma LaneOutsCons<V(!new)>(o0: map<nat, V>, o1: map<nat, V>, o2: map<nat, V>, width: nat, k: nat, index: nat, v: V,
                              vs: seq<V>)
    requires k < width
    requires Stored(o0, o1, width, k, index, v)
    requires LaneOuts(o1, o2, width, k, index + 1, vs)
    ensures LaneOuts(o0, o2, width, k, index, [v] + vs)
  {
    var start, n := index * width, |vs|;
    assert (index + 1) * width == start + width;
    var end := (index + 1 + n) * width;
    assert end == (index + 1) * width + n * width;
    assert n * width >= 0;
    assert (index + |[v] + vs|) * width == end by { assert index + |[v] + vs| == index + 1 + n; }
    forall i | 0 <= i < 1 + n ensures OutAt(o2, width, k, index + i, ([v] + vs)[i]) {
      if i == 0 {
        assert Place(index + i, width, k) == start + k;
      } else {
        assert OutAt(o2, width, k, index + 1 + (i - 1), vs[i - 1]);
      }
    }
    forall at: nat ensures at in o2 <==> at in o0 || start <= at < end {
      assert at in o2 <==> at in o1 || start + width <= at < end;
    }
    forall at: nat | at in o0 && at < start ensures o2[at] == o0[at] {
      assert at in o1;
    }
  }

  lemma {:induction false} VSignalsSim<M, V(!new), S(!new)>(ve: VEnv<M, V, S>, k: nat, bodies: seq<Expr>, index: nat,
                                                            g: VGen, c: VConfig<V, S>, slots: map<int, S>,
                                                            log: multiset<int>, seen: set<int>)
      returns (c': VConfig<V, S>)
    requires RunnableArgs(bodies) && ProgramShared(bodies, seen) && SteadyAll(bodies)
    requires Lane(ve, k, g, c, EvalState(slots, map[], log), {}, seen)
    ensures k < |ve.markets|
    ensures VRun(ve, VEmitSignals(bodies, index, g), c) == Some(c')
    ensures var (vs, slots', _) := EvalProgram(EnvOf(ve, k), bodies, slots, log);
      && OthersKept(ve.base, |ve.markets|, c.arena, c'.arena)
      && ve.base + k < |c'.arena| && c'.arena[ve.base + k] == slots'
      && LaneOuts(c.outs, c'.outs, |ve.markets|, k, index, vs)
    decreases bodies
  {
    assert k < |ve.markets|;
    hide KindOf, Eval, VEmit, VExec, LaneOuts, Stored, Lane, VRun;
    if bodies == [] {
      assert VRun(ve, [], c) == Some(c) by { VRunNothing(ve, c); }
      c' := c;
      NoOuts(c.outs, |ve.markets|, k, index);
      LaneSlots(ve, k, g, c, EvalState(slots, map[], log), seen);
    } else {
      var env, st := EnvOf(ve, k), EvalState(slots, map[], log);
      var a := VEmit(bodies[0], g);
      var (w, st1) := Eval(env, bodies[0], st);
      var seen1 := SeenAfter(bodies[0], {}, seen);
      var g1 := a.g.(nextReg := a.g.nextReg + 1);
      var c2 := VSignalSim(ve, k, bodies[0], index, g, c, slots, log, seen);
      EvalProgramCons(env, bodies, slots, log);
      VEmitSignalsCons(bodies, index, g);
      hide OthersKept, EvalProgram, VEmitSignals;
      c' := VSignalsSim(ve, k, bodies[1..], index + 1, g1, c2, st1.slots, st1.log, seen1);
      OthersChain(ve.base, |ve.markets|, c.arena, c2.arena, c'.arena);
      VRunAppend(ve, a.code + [(a.g.nextReg, VStore(index, a.v))], VEmitSignals(bodies[1..], index + 1, g1), c, c2);
      var (vs, _, _) := EvalProgram(env, bodies[1..], st1.slots, st1.log);
      LaneOutsCons(c.outs, c2.outs, c'.outs, |ve.markets|, k, index, w, vs);
    }
  }

  lemma VRunNothing<M, V(!new), S(!new)>(ve: VEnv<M, V, S>, c: VConfig<V, S>)
    ensures VRun(ve, [], c) == Some(c)
  {
  }

  lemma EvalProgramCons<M, V, S>(env: Env<M, V, S>, bodies: seq<Expr>, slots: map<int, S>, log: multiset<int>)
    requires RunnableArgs(bodies) && bodies != []
    ensures var (w, st) := Eval(env, bodies[0], EvalState(slots, map[], log));
      var (vs, slots', log') := EvalProgram(env, bodies[1..], st.slots, st.log);
      EvalProgram(env, bodies, slots, log) == ([w] + vs, slots', log')
  {
    hide Eval, KindOf;
  }

  lemma VEmitSignalsCons(bodies: seq<Expr>, index: nat, g: VGen)
    requires RunnableArgs(bodies) && bodies != []
    ensures var a := VEmit(bodies[0], g);
      VEmitSignals(bodies, index, g) ==
        a.code + [(a.g.nextReg, VStore(index, a.v))] +
            VEmitSignals(bodies[1..], index + 1, a.g.(nextReg := a.g.nextReg + 1))
  {
    hide VEmit, KindOf;
  }

  lemma OthersChain<S(!new)>(base: nat, width: nat, a: seq<map<int, S>>, b: seq<map<int, S>>, c: seq<map<int, S>>)
    requires OthersKept(base, width, a, b) && OthersKept(base, width, b, c)
    ensures OthersKept(base, width, a, c)
  {
  }

  /** One signal: its body, then its stores. */
  lemma VSignalSim<M, V(!new), S(!new)>(ve: VEnv<M, V, S>, k: nat, body: Expr, index: nat, g: VGen,
                                        c: VConfig<V, S>, slots: map<int, S>, log: multiset<int>, seen: set<int>)
      returns (c2: VConfig<V, S>)
    requires Runnable(body) && SoundlyShared(body, {}, seen) && Steady(body, {})
    requires Lane(ve, k, g, c, EvalState(slots, map[], log), {}, seen)
    ensures k < |ve.markets|
    ensures var a := VEmit(body, g);
      var (w, st1) := Eval(EnvOf(ve, k), body, EvalState(slots, map[], log));
      && VRun(ve, a.code + [(a.g.nextReg, VStore(index, a.v))], c) == Some(c2)
      && OthersKept(ve.base, |ve.markets|, c.arena, c2.arena) && Stored(c.outs, c2.outs, |ve.markets|, k, index, w)
      && Lane(ve, k, a.g.(nextReg := a.g.nextReg + 1), c2, EvalState(st1.slots, map[], st1.log), {},
              SeenAfter(body, {}, seen))
  {
    assert k < |ve.markets|;
    hide KindOf, Eval, VEmit, VExec, Stored, Lane, VRun, OthersKept;
    var st := EvalState(slots, map[], log);
    var a := VEmit(body, g);
    var (w, st1) := Eval(EnvOf(ve, k), body, st);
    var c1 := VSim(ve, k, body, g, c, st, {}, seen);
    c2 := StoreStep(ve, k, a, c1, st1, AvailAfter(body, {}), SeenAfter(body, {}, seen), index, w);
    OneInstr(ve, a.code, a.g.nextReg, VStore(index, a.v), c, c1, c2);
  }

  lemma NoOuts<V(!new)>(outs: map<nat, V>, width: nat, k: nat, index: nat)
    ensures LaneOuts(outs, outs, width, k, index, [])
  {
  }

  lemma LaneSlots<M, V(!new), S(!new)>(ve: VEnv<M, V, S>, k: nat, g: VGen, c: VConfig<V, S>, st: EvalState<V, S>,
                                       seen: set<int>)
    requires Lane(ve, k, g, c, st, {}, seen)
    ensures k < |ve.markets| && ve.base + |ve.markets| <= |c.arena| && c.arena[ve.base + k] == st.slots
  {
  }

  lemma StoreStep<M, V(!new), S(!new)>(ve: VEnv<M, V, S>, k: nat, a: Emitted, c1: VConfig<V, S>, st1: EvalState<V, S>,
                                       avail: set<int>, seen: set<int>, index: nat, w: V) returns (c2: VConfig<V, S>)
    requires Lane(ve, k, a.g, c1, st1, avail, seen) && VDefined(c1.regs, |ve.markets|, a.v) &&
             LaneOf(ve, c1.regs, a.v, k) == w
    ensures k < |ve.markets|
    ensures VExec(ve, c1, a.g.nextReg, VStore(index, a.v)) == Some(c2) && c2.arena == c1.arena
    ensures Lane(ve, k, a.g.(nextReg := a.g.nextReg + 1), c2, EvalState(st1.slots, map[], st1.log), {}, seen)
    ensures Stored(c1.outs, c2.outs, |ve.markets|, k, index, w)
  {
    StoreLanesSpec(ve, c1.regs, a.v, index * |ve.markets|, 0, c1.outs, k);
    c2 := c1.(outs := StoreLanes(ve, c1.regs, a.v, index * |ve.markets|, 0, c1.outs));
    hide LaneOf, StoreLanes;
  }

  /** The vectorised program, for lane counts 2, 4 and 8: if every stateful call met in a branch equals an
      earlier unconditional one, lane `k` of signal `i` at `outputs[i * K + k]` and the context of symbol
      `base + k` are what the scalar compiled program gives on market `k` from that context.  No other
      output and no other context is written. */
  lemma VectorMatchesScalar<M, V(!new), S(!new)>(ve: VEnv<M, V, S>, bodies: seq<Expr>, arena: seq<map<int, S>>, k: nat)
      returns (c: VConfig<V, S>, n: nat, scalar: Config<V, S>)
    requires WellFormedArgs(bodies) && AllSettled(bodies) && bodies != []
    requires |ve.markets| in {2, 4, 8} && ve.base + |ve.markets| <= |arena| && k < |ve.markets|
    ensures RunnableArgs(AllocateProgram(bodies, 1).0)
    ensures var withIds, width := AllocateProgram(bodies, 1).0, |ve.markets|;
      var code := CompileVectorized(withIds, width);
      && code.Some? && VRun(ve, code.value, VConfig(map[], arena, map[])) == Some(c)
      && Run(EnvOf(ve, k), CompileProgram(withIds), n, Entry(arena[ve.base + k])) == Done(scalar)
      && OthersKept(ve.base, width, arena, c.arena) && c.arena[ve.base + k] == scalar.slots
      && (forall at: nat :: at in c.outs <==> at < |bodies| * width)
      && (forall i: nat | i < |bodies| ::
            i in scalar.outs && Place(i, width, k) in c.outs && c.outs[Place(i, width, k)] == scalar.outs[i])
  {
    hide KindOf, AllocateProgram, EvalProgram, VEmitSignals, VRun, Run, CompileProgram;
    AllocateProgramSound(bodies, 1, {});
    var withIds, width := AllocateProgram(bodies, 1).0, |ve.markets|;
    var key := AllocateSteady(bodies, 1);
    AllSteadySteady(withIds, key);
    var c0: VConfig<V, S> := VConfig(map[], arena, map[]);
    var env := EnvOf(ve, k);
    c := VSignalsSim(ve, k, withIds, 0, VGen(0, map[]), c0, arena[ve.base + k], multiset{}, {});
    n, scalar := ScalarProgramCorrect(env, bodies, arena[ve.base + k]);
    var vs := EvalProgram(env, withIds, arena[ve.base + k], multiset{}).0;
    forall i: nat | i < |bodies|
      ensures i in scalar.outs && Place(i, width, k) in c.outs && c.outs[Place(i, width, k)] == scalar.outs[i]
    {
      assert OutAt(c.outs, width, k, 0 + i, vs[i]);
      assert scalar.outs[i] == vs[i - 0];
    }
  }
}

/** Whole programs: allocation, compilation and execution against evaluation of the trees. */
module Program {
  import opened Ast
  import opened Evaluation
  import opened Ir
  import opened Codegen
  import opened Sharing
  import opened NodeIds
  import opened AllocSound
  import opened EmitFrame
  import opened CodegenCorrect

  /** What parsing, type checking and inlining deliver: `Runnable` but for the ids. */
  predicate WellFormed(e: Expr)
    decreases e, 1
  {
    match e
    case Num(_) => true
    case Ident(_) => false
    case Param(_, _) => true
    case Unary(_, x) => WellFormed(x)
    case Binary(_, l, r) => WellFormed(l) && WellFormed(r)
    case Cond(c, t, f) => WellFormed(c) && WellFormed(t) && WellFormed(f)
    case Call(n, args, id) =>
      && !KindOf(n).Unknown?
      && |args| == Arity(n)
      && (IsTickerFn(n) ==> args[0].Ident?)
      && (HasPeriod(n) ==> args[PeriodIndex(n)].Num?)
      && id == NO_NODE
      && WellFormedArgs(SourceArgs(n, args))
  }

  predicate WellFormedArgs(args: seq<Expr>)
    decreases args, 0
  {
    args == [] || (WellFormed(args[0]) && WellFormedArgs(args[1..]))
  }

  lemma {:induction false} WellFormedUnallocated(e: Expr)
    requires WellFormed(e)
    ensures Unallocated(e)
    decreases e, 1
  {
    hide KindOf;
    match e
    case Unary(_, x) => WellFormedUnallocated(x);
    case Binary(_, l, r) => WellFormedUnallocated(l); WellFormedUnallocated(r);
    case Cond(c, t, f) => WellFormedUnallocated(c); WellFormedUnallocated(t); WellFormedUnallocated(f);
    case Call(n, args, _) =>
      WellFormedArgsUnallocated(SourceArgs(n, args));
      if IsTickerFn(n) {
        assert args[0].Ident? && SourceArgs(n, args) == args[1..];
        assert Unallocated(args[0]);
      }
    case _ => {}
  }

  lemma {:induction false} WellFormedArgsUnallocated(args: seq<Expr>)
    requires WellFormedArgs(args)
    ensures UnallocatedArgs(args)
    decreases args, 0
  {
    if args != [] { WellFormedUnallocated(args[0]); WellFormedArgsUnallocated(args[1..]); }
  }

  /** Allocation places ids on exactly the stateful calls and changes nothing else. */
  lemma {:induction false} WalkRunnable(e: Expr, unconditional: bool, st: AllocState)
    requires Ready(st) && WellFormed(e)
    ensures Ready(Walk(e, unconditional, st).1) && Runnable(Walk(e, unconditional, st).0)
    decreases e, 1
  {
    hide KindOf;
    match e
    case Unary(_, x) => WalkRunnable(x, unconditional, st);
    case Binary(_, l, r) =>
      WalkRunnable(l, unconditional, st);
      WalkRunnable(r, unconditional, Walk(l, unconditional, st).1);
    case Cond(c, t, f) =>
      WalkRunnable(c, unconditional, st);
      var st1 := Walk(c, unconditional, st).1;
      WalkRunnable(t, false, st1);
      WalkRunnable(f, false, Walk(t, false, st1).1);
    case Call(n, args, _) => WalkCallRunnable(e, unconditional, st);
    case _ => {}
  }

  lemma {:induction false} WalkCallRunnable(e: Expr, unconditional: bool, st: AllocState)
    requires Ready(st) && WellFormed(e) && e.Call?
    ensures Ready(Walk(e, unconditional, st).1) && Runnable(Walk(e, unconditional, st).0)
    decreases e, 0
  {
    AssignReady(e, unconditional, st);
    var st1 := Assign(e, unconditional, st).1;
    var args := e.args;
    hide KindOf;
    if IsTickerFn(e.name) {
      WalkArgsRunnable(args[1..], unconditional, st1);
      var rest := WalkArgs(args[1..], unconditional, st1).0;
      var whole := WalkArgs(args, unconditional, st1).0;
      assert Walk(args[0], unconditional, st1) == (args[0], st1);
      assert whole == [args[0]] + rest;
      assert whole[1..] == rest;
      assert forall i | 1 <= i < |args| :: args[i] == args[1..][i - 1] && whole[i] == rest[i - 1];
    } else {
      WalkArgsRunnable(args, unconditional, st1);
    }
  }

  /** What an allocated argument has in common with the original. */
  ghost predicate SameForm(a: Expr, b: Expr) {
    a.Num? <==> b.Num?
  }

  lemma {:induction false} WalkArgsRunnable(args: seq<Expr>, unconditional: bool, st: AllocState)
    requires Ready(st) && WellFormedArgs(args)
    ensures Ready(WalkArgs(args, unconditional, st).1) && RunnableArgs(WalkArgs(args, unconditional, st).0)
    ensures forall i | 0 <= i < |args| :: SameForm(WalkArgs(args, unconditional, st).0[i], args[i])
    decreases args, 0
  {
    hide KindOf;
    if args != [] {
      WalkRunnable(args[0], unconditional, st);
      var (a, st1) := Walk(args[0], unconditional, st);
      WalkArgsRunnable(args[1..], unconditional, st1);
      var rest := WalkArgs(args[1..], unconditional, st1).0;
      assert ([a] + rest)[1..] == rest;
      assert forall i | 1 <= i < |args| :: args[i] == args[1..][i - 1] && ([a] + rest)[i] == rest[i - 1];
    }
  }

  lemma AssignReady(e: Expr, unconditional: bool, st: AllocState)
    requires e.Call? && Ready(st)
    ensures Ready(Assign(e, unconditional, st).1)
    ensures e.nodeId == NO_NODE ==>
      if IsStatefulOp(e.name) then Assign(e, unconditional, st).0 > 0 else Assign(e, unconditional, st).0 == NO_NODE
  {
    AliasFound(st.seen, e);
  }

  /** One body after another: ids of earlier bodies may be in the emit cache, but none is surely
      evaluated in this evaluation. */
  predicate ProgramShared(bodies: seq<Expr>, seen: set<int>) {
    bodies == [] ||
    (SoundlyShared(bodies[0], {}, seen) && ProgramShared(bodies[1..], SeenAfter(bodies[0], {}, seen)))
  }

  /** Allocating ids makes a well-formed program runnable and soundly shared. */
  lemma {:induction false} AllocateProgramSound(bodies: seq<Expr>, nextId: int, seen: set<int>)
    requires WellFormedArgs(bodies) && nextId > 0
    requires forall i <- seen :: 0 < i < nextId
    ensures RunnableArgs(AllocateProgram(bodies, nextId).0)
    ensures ProgramShared(AllocateProgram(bodies, nextId).0, seen)
    ensures CloneArgs(AllocateProgram(bodies, nextId).0) == CloneArgs(bodies)
    decreases bodies
  {
    hide KindOf, Grown, NewConditional, Covered;
    if bodies != [] {
      var st := AllocState(nextId, []);
      var bound := Size(bodies[0]);
      WellFormedUnallocated(bodies[0]);
      WalkRunnable(bodies[0], true, st);
      WalkSound(bodies[0], true, st, {}, seen, bound);
      var (body, st1) := Walk(bodies[0], true, st);
      var seen1 := SeenAfter(body, {}, seen);
      AllocateProgramSound(bodies[1..], st1.nextId, seen1);
      var rest := AllocateProgram(bodies[1..], st1.nextId).0;
      assert ([body] + rest)[1..] == rest;
      ConsClones(body, rest, bodies);
    }
  }

  /** Evaluate every signal in order; the cache is cleared between them, the context is not. */
  function EvalProgram<M, V, S>(env: Env<M, V, S>, bodies: seq<Expr>, slots: map<int, S>, log: multiset<int>)
      : (r: (seq<V>, map<int, S>, multiset<int>))
    requires RunnableArgs(bodies)
    ensures |r.0| == |bodies|
  {
    if bodies == [] then ([], slots, log)
    else
      var (v, st) := Eval(env, bodies[0], EvalState(slots, map[], log));
      var (vs, slots', log') := EvalProgram(env, bodies[1..], st.slots, st.log);
      ([v] + vs, slots', log')
  }

  /** Outputs written by the signals from `index` on. */
  ghost predicate OutputsAre<V(!new)>(outs: map<nat, V>, index: nat, vs: seq<V>) {
    forall k: nat | index <= k < index + |vs| :: k in outs && outs[k] == vs[k - index]
  }

  lemma EmitSignalsExtends(bodies: seq<Expr>, index: nat, cg: CodegenState, p: seq<Block>)
    requires RunnableArgs(bodies) && Usable(cg)
    requires Extends(EmitSignals(bodies, index, cg).blocks, p)
    ensures Extends(cg.blocks, p)
    decreases bodies
  {
    hide Emit, Extends, Append, Terminate;
    if bodies == [] {
      TerminateExtends(cg, Ret, cg.cur, p);
    } else {
      EmitUsable(bodies[0], cg);
      var (v, cg1) := Emit(bodies[0], cg);
      GrewAppend(cg1, IStore(index, v));
      GrewUsable(cg1, Append(cg1, IStore(index, v)).1);
      EmitSignalsExtends(bodies[1..], index + 1, Append(cg1, IStore(index, v)).1, p);
      AppendExtends(cg1, IStore(index, v), p);
      EmitExtends(bodies[0], cg, p);
    }
  }

  lemma StoreSim<M, V(!new), S>(env: Env<M, V, S>, p: seq<Block>, c: Config<V, S>, n: nat, c1: Config<V, S>,
                                cg1: CodegenState, index: nat, v: Value, w: V, st1: EvalState<V, S>, avail: set<int>,
                                seen: set<int>) returns (c2: Config<V, S>)
    requires Usable(cg1) && Simulated(env, p, c, n, c1, v, cg1, w, st1, avail, seen)
    requires Extends(Append(cg1, IStore(index, v)).1.blocks, p)
    ensures Run(env, p, n + 1, c) == Running(c2) && c2.outs == c.outs[index := w]
    ensures Agree(env, Append(cg1, IStore(index, v)).1, c2, EvalState(st1.slots, map[], st1.log), {}, seen)
    ensures Usable(Append(cg1, IStore(index, v)).1)
  {
    hide KindOf, Extends, Step, Run;
    AppendStep(env, p, cg1, IStore(index, v), c1);
    c2 := c1.(outs := c1.outs[index := w], pos := c1.pos + 1);
    RunOne(env, p, n, c, c1, c2);
  }

  lemma {:induction false} SignalsSim<M, V(!new), S>(env: Env<M, V, S>, p: seq<Block>, bodies: seq<Expr>, index: nat,
                                                     cg: CodegenState, c: Config<V, S>, slots: map<int, S>,
                                                     log: multiset<int>, seen: set<int>)
      returns (n: nat, c': Config<V, S>)
    requires RunnableArgs(bodies) && LeftToRight(env) && ProgramShared(bodies, seen) && Usable(cg)
    requires Agree(env, cg, c, EvalState(slots, map[], log), {}, seen)
    requires Extends(EmitSignals(bodies, index, cg).blocks, p)
    ensures Run(env, p, n, c) == Done(c')
    ensures var (vs, slots', log') := EvalProgram(env, bodies, slots, log);
      && c'.slots == slots' && c'.log == log' && OutputsAre(c'.outs, index, vs)
      && (forall k <- c.outs | k < index :: k in c'.outs && c'.outs[k] == c.outs[k])
      && (forall k <- c'.outs :: k in c.outs || index <= k < index + |bodies|)
    decreases bodies
  {
    hide KindOf, Emit, Eval, Extends, Append, Agree, Step, Simulated;
    if bodies == [] {
      n, c' := 1, c;
      FinishSim(env, p, cg, c, EvalState(slots, map[], log), seen);
    } else {
      var st := EvalState(slots, map[], log);
      EmitUsable(bodies[0], cg);
      var (v, cg1) := Emit(bodies[0], cg);
      GrewAppend(cg1, IStore(index, v));
      GrewUsable(cg1, Append(cg1, IStore(index, v)).1);
      EmitSignalsExtends(bodies[1..], index + 1, Append(cg1, IStore(index, v)).1, p);
      AppendExtends(cg1, IStore(index, v), p);
      var n1, c1 := EmitSim(env, p, bodies[0], cg, c, st, {}, seen);
      var (w, st1) := Eval(env, bodies[0], st);
      var seen1 := SeenAfter(bodies[0], {}, seen);
      SimulatedOuts(env, p, c, n1, c1, v, cg1, w, st1, AvailAfter(bodies[0], {}), seen1);
      var c2 := StoreSim(env, p, c, n1, c1, cg1, index, v, w, st1, AvailAfter(bodies[0], {}), seen1);
      var n3, c3 := SignalsSim(env, p, bodies[1..], index + 1, Append(cg1, IStore(index, v)).1, c2, st1.slots, st1.log,
                               seen1);
      RunThenDone(env, p, n1 + 1, n3, c, c2);
      n, c' := n1 + 1 + n3, c3;
      var vs := EvalProgram(env, bodies, slots, log).0;
      assert c2.outs[index] == w;
      forall k: nat | index <= k < index + |vs| ensures k in c'.outs && c'.outs[k] == vs[k - index] {
        if k > index { assert vs[k - index] == vs[1..][k - (index + 1)]; }
      }
    }
  }

  lemma SimulatedOuts<M, V(!new), S>(env: Env<M, V, S>, p: seq<Block>, c: Config<V, S>, n: nat, c': Config<V, S>,
                                     v: Value, cg': CodegenState, w: V, st': EvalState<V, S>, avail': set<int>,
                                     seen': set<int>)
    requires Simulated(env, p, c, n, c', v, cg', w, st', avail', seen')
    ensures c'.outs == c.outs
  {
  }

  lemma RunThenDone<M, V, S>(env: Env<M, V, S>, p: seq<Block>, n: nat, m: nat, c: Config<V, S>, c1: Config<V, S>)
    requires Run(env, p, n, c) == Running(c1) && Run(env, p, m, c1).Done?
    ensures Run(env, p, n + m, c) == Run(env, p, m, c1)
  {
    RunCompose(env, p, n, m, c, c1);
  }

  lemma FinishSim<M, V(!new), S>(env: Env<M, V, S>, p: seq<Block>, cg: CodegenState, c: Config<V, S>,
                                 st: EvalState<V, S>, seen: set<int>)
    requires Usable(cg) && Agree(env, cg, c, st, {}, seen)
    requires Extends(Terminate(cg, Ret, cg.cur).blocks, p)
    ensures Run(env, p, 1, c) == Done(c)
    ensures c.slots == st.slots && c.log == st.log
  {
    TerminateExtends(cg, Ret, cg.cur, p);
    assert Step(env, p, c) == Done(c);
  }

  /** The machine at the entry of a compiled program. */
  function Entry<V, S>(slots: map<int, S>): Config<V, S> {
    Config(0, 0, 0, map[], slots, multiset{}, map[])
  }

  /** Compiler correctness.  For every well-formed program, allocate ids and compile: from any context,
      on any market, execution returns (it is never stuck, so no undefined register is read), writes at
      output i the value that evaluation from left to right gives signal i, leaves the same context, and
      steps the same slots.  When that is also what the interpreter does, whose kalman1d takes its noise
      first, is decided in `InterpreterOrder`. */
  lemma ScalarProgramCorrect<M, V(!new), S>(env: Env<M, V, S>, bodies: seq<Expr>, slots: map<int, S>)
      returns (n: nat, c: Config<V, S>)
    requires WellFormedArgs(bodies) && LeftToRight(env)
    ensures var withIds := AllocateProgram(bodies, 1).0;
      && RunnableArgs(withIds)
      && Run(env, CompileProgram(withIds), n, Entry(slots)) == Done(c)
      && var (vs, slots', log') := EvalProgram(env, withIds, slots, multiset{});
         && c.slots == slots' && c.log == log'
         && (forall k: nat :: k in c.outs <==> k < |bodies|) && OutputsAre(c.outs, 0, vs)
  {
    hide KindOf, Run, Emit, Eval, EmitSignals, EvalProgram, Walk, AllocateProgram;
    AllocateProgramSound(bodies, 1, {});
    var withIds := AllocateProgram(bodies, 1).0;
    var p := CompileProgram(withIds);
    var c0: Config<V, S> := Entry(slots);
    assert Agree(env, START, c0, EvalState(slots, map[], multiset{}), {}, {});
    n, c := SignalsSim(env, p, withIds, 0, START, c0, slots, multiset{}, {});
  }
}

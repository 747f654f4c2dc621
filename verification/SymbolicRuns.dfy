/** A symbolic run stands for the evaluations whose conditions come out as it lists them. */
module SymbolicRuns {
  import opened Ast
  import opened Evaluation
  import opened CodegenCorrect
  import opened Program
  import opened NoiseExchange
  import opened NoiseOrder
  import opened Symbolic

  /** What terms and slot states stand for; a slot not yet stepped may depend on the call that asks. */
  datatype Reading<!V, !S> = Reading(value: SymTerm -> V, slot: (Machine, Expr) -> S)

  ghost function Values<V, S>(rd: Reading<V, S>, ts: seq<SymTerm>): (vs: seq<V>)
    ensures |vs| == |ts| && forall i :: 0 <= i < |ts| ==> vs[i] == rd.value(ts[i])
  {
    seq(|ts|, i requires 0 <= i < |ts| => rd.value(ts[i]))
  }

  function Root(m: Machine): int {
    match m
    case Start(id) => id
    case After(_, _, before) => Root(before)
  }

  ghost predicate ReadsStep<M, V, S>(env: Env<M, V, S>, rd: Reading<V, S>, c: Expr, ins: seq<SymTerm>, before: Machine)
  {
    c.Call? && Root(before) == c.nodeId ==>
      var (v, s) := StepAt(env, c, Values(rd, ins), rd.slot(before, c));
      && rd.value(Out(CloneExpr(c), ins, before)) == v
      && (forall d :: rd.slot(After(CloneExpr(c), ins, before), d) == s)
  }

  /** The reading follows the operators, and finds the slots of `calls` as `slots` has them. */
  ghost predicate Reads<M, V, S>(env: Env<M, V, S>, slots: map<int, S>, rd: Reading<V, S>, calls: set<Expr>) {
    && (forall b :: rd.value(Literal(b)) == env.ops.num(b))
    && (forall i :: rd.value(Parameter(i)) == env.params(i))
    && (forall t :: rd.value(Negated(t)) == env.ops.neg(rd.value(t)))
    && (forall op, l, r :: rd.value(Applied(op, l, r)) == env.ops.bin(op, rd.value(l), rd.value(r)))
    && (forall fn, ticker :: rd.value(Quoted(fn, ticker)) == env.ops.market(env.market, fn, ticker))
    && (forall fn, t :: rd.value(Mapped(fn, t)) == env.ops.math(fn, rd.value(t)))
    && (forall c <- calls :: c.Call? && rd.slot(Start(c.nodeId), c) == SlotOf(env, slots, c))
    && (forall c, ins, before | c in calls :: ReadsStep(env, rd, c, ins, before))
  }

  /** The conditions come out as listed. */
  ghost predicate Outcomes<M, V, S>(env: Env<M, V, S>, rd: Reading<V, S>, known: map<SymTerm, bool>) {
    forall t <- known :: env.ops.isTrue(rd.value(t)) == known[t]
  }

  ghost predicate DenotesSlots<V, S>(slots: map<int, S>, rd: Reading<V, S>, sym: map<int, Machine>, got: map<int, S>) {
    && got.Keys == slots.Keys + sym.Keys
    && (forall id <- sym :: sym[id].After? && Root(sym[id]) == id && forall d :: rd.slot(sym[id], d) == got[id])
    && (forall id <- slots :: id in sym || got[id] == slots[id])
  }

  ghost predicate Denotes<V, S>(slots: map<int, S>, rd: Reading<V, S>, sym: SymState, got: EvalState<V, S>) {
    && DenotesSlots(slots, rd, sym.slots, got.slots)
    && got.cache.Keys == sym.cache.Keys && (forall id <- sym.cache :: got.cache[id] == rd.value(sym.cache[id]))
  }

  ghost predicate Follows<M, V, S>(env: Env<M, V, S>, slots: map<int, S>, rd: Reading<V, S>, calls: set<Expr>,
                                   known: map<SymTerm, bool>)
  {
    Reads(env, slots, rd, calls) && Outcomes(env, rd, known)
  }

  lemma LeafRead<M, V, S>(env: Env<M, V, S>, slots: map<int, S>, rd: Reading<V, S>, calls: set<Expr>,
                          known: map<SymTerm, bool>, b: Bits64, i: int)
    requires Follows(env, slots, rd, calls, known)
    ensures rd.value(Literal(b)) == env.ops.num(b) && rd.value(Parameter(i)) == env.params(i)
  {
    hide ReadsStep, SlotOf;
  }

  lemma NegatedRead<M, V, S>(env: Env<M, V, S>, slots: map<int, S>, rd: Reading<V, S>, calls: set<Expr>,
                             known: map<SymTerm, bool>, t: SymTerm)
    requires Follows(env, slots, rd, calls, known)
    ensures rd.value(Negated(t)) == env.ops.neg(rd.value(t))
  {
    hide ReadsStep, SlotOf;
  }

  lemma AppliedRead<M, V, S>(env: Env<M, V, S>, slots: map<int, S>, rd: Reading<V, S>, calls: set<Expr>,
                             known: map<SymTerm, bool>, op: BinaryOpKind, l: SymTerm, r: SymTerm)
    requires Follows(env, slots, rd, calls, known)
    ensures rd.value(Applied(op, l, r)) == env.ops.bin(op, rd.value(l), rd.value(r))
  {
    hide ReadsStep, SlotOf;
  }

  lemma OutcomeListed<M, V, S>(env: Env<M, V, S>, slots: map<int, S>, rd: Reading<V, S>, calls: set<Expr>,
                               known: map<SymTerm, bool>, t: SymTerm)
    requires Follows(env, slots, rd, calls, known) && t in known
    ensures env.ops.isTrue(rd.value(t)) == known[t]
  {
    hide Reads;
  }

  lemma {:induction false} TraceSound<M, V, S>(env: Env<M, V, S>, slots: map<int, S>, rd: Reading<V, S>,
                                               calls: set<Expr>, known: map<SymTerm, bool>, e: Expr, s: SymState,
                                               r: EvalState<V, S>)
    requires Runnable(e) && StatefulIn(e) <= calls && Follows(env, slots, rd, calls, known) && Denotes(slots, rd, s, r)
    requires Trace(known, env.noiseFirst, e, s).Reached?
    ensures var t := Trace(known, env.noiseFirst, e, s);
      Eval(env, e, r).0 == rd.value(t.value) && Denotes(slots, rd, t.st, Eval(env, e, r).1)
    decreases Size(e), 1
  {
    hide KindOf, Denotes, TraceCond, TraceCall, Follows;
    match e
    case Num(b) => LeafRead(env, slots, rd, calls, known, b, 0);
    case Param(_, i) => LeafRead(env, slots, rd, calls, known, 0, i);
    case Unary(_, x) =>
      TraceSound(env, slots, rd, calls, known, x, s, r);
      NegatedRead(env, slots, rd, calls, known, Trace(known, env.noiseFirst, x, s).value);
    case Binary(op, l, r') =>
      TraceSound(env, slots, rd, calls, known, l, s, r);
      var tl, r1 := Trace(known, env.noiseFirst, l, s), Eval(env, l, r).1;
      TraceSound(env, slots, rd, calls, known, r', tl.st, r1);
      AppliedRead(env, slots, rd, calls, known, op, tl.value, Trace(known, env.noiseFirst, r', tl.st).value);
    case Cond(_, _, _) => TraceCondSound(env, slots, rd, calls, known, e, s, r);
    case Call(_, _, _) => TraceCallSound(env, slots, rd, calls, known, e, s, r);
  }

  lemma {:induction false} TraceCondSound<M, V, S>(env: Env<M, V, S>, slots: map<int, S>, rd: Reading<V, S>,
                                                   calls: set<Expr>, known: map<SymTerm, bool>, e: Expr, s: SymState,
                                                   r: EvalState<V, S>)
    requires Runnable(e) && StatefulIn(e) <= calls && Follows(env, slots, rd, calls, known) && Denotes(slots, rd, s, r)
    requires e.Cond? && TraceCond(known, env.noiseFirst, e, s).Reached?
    ensures var t := TraceCond(known, env.noiseFirst, e, s);
      Eval(env, e, r).0 == rd.value(t.value) && Denotes(slots, rd, t.st, Eval(env, e, r).1)
    decreases Size(e), 0
  {
    hide KindOf, Denotes, Follows;
    TraceSound(env, slots, rd, calls, known, e.cond, s, r);
    var p, r1 := Trace(known, env.noiseFirst, e.cond, s), Eval(env, e.cond, r).1;
    var st1 := p.st.(asked := p.st.asked + 1);
    AskedIgnored(slots, rd, p.st, st1, r1);
    OutcomeListed(env, slots, rd, calls, known, p.value);
    TraceSound(env, slots, rd, calls, known, if known[p.value] then e.thn else e.els, st1, r1);
  }

  lemma AskedIgnored<V, S>(slots: map<int, S>, rd: Reading<V, S>, s: SymState, s': SymState, r: EvalState<V, S>)
    requires Denotes(slots, rd, s, r) && s'.slots == s.slots && s'.cache == s.cache
    ensures Denotes(slots, rd, s', r)
  {
  }

  lemma {:induction false} TraceCallSound<M, V, S>(env: Env<M, V, S>, slots: map<int, S>, rd: Reading<V, S>,
                                                   calls: set<Expr>, known: map<SymTerm, bool>, e: Expr, s: SymState,
                                                   r: EvalState<V, S>)
    requires Runnable(e) && StatefulIn(e) <= calls && Follows(env, slots, rd, calls, known) && Denotes(slots, rd, s, r)
    requires e.Call? && TraceCall(known, env.noiseFirst, e, s).Reached?
    ensures var t := TraceCall(known, env.noiseFirst, e, s);
      Eval(env, e, r).0 == rd.value(t.value) && Denotes(slots, rd, t.st, Eval(env, e, r).1)
    decreases Size(e), 0
  {
    var n, args := e.name, e.args;
    hide KindOf, DenotesSlots, StepAt, ReadsStep, Fire, FireTerm;
    if e.nodeId > 0 && e.nodeId in s.cache {
    } else if IsMarketFn(n) {
    } else if IsMathFn(n) {
      SingleArg(args);
      assert args[1..] == [];
      TraceSound(env, slots, rd, calls, known, args[0], s, r);
    } else {
      OrderRunnable(env.noiseFirst, e);
      OrderCalls(env.noiseFirst, e);
      var order := ArgOrder(env.noiseFirst, n, args);
      TraceArgsSound(env, slots, rd, calls, known, order, s, r);
      var ts := TraceArgs(known, env.noiseFirst, order, s);
      InputsRead(env, slots, rd, calls, n, args, ts.value);
      FireSound(env, slots, rd, calls, known, e, MarketTerm(n, args) + SourceOrder(env.noiseFirst, n, ts.value), ts.st,
                EvalArgs(env, order, r).1);
    }
  }

  lemma OrderCalls(noiseFirst: bool, e: Expr)
    requires Runnable(e) && e.Call? && IsStatefulOp(e.name)
    ensures StatefulInArgs(ArgOrder(noiseFirst, e.name, e.args)) == StatefulInArgs(e.args)
  {
    SourceCalls(e);
    if KindOf(e.name).Kalman1d? {
      var x, q, r := e.args[0], e.args[1], e.args[2];
      assert e.args == [x, q, r];
      CallsOfThree(x, q, r);
      CallsOfThree(q, r, x);
    }
  }

  lemma CallsOfThree(a: Expr, b: Expr, c: Expr)
    ensures StatefulInArgs([a, b, c]) == StatefulIn(a) + StatefulIn(b) + StatefulIn(c)
  {
    hide StatefulIn;
    assert [a, b, c][1..] == [b, c] && [b, c][1..] == [c] && [c][1..] == [];
    assert StatefulInArgs([c]) == StatefulIn(c) && StatefulInArgs([b, c]) == StatefulIn(b) + StatefulIn(c);
  }

  /** The inputs of a step, read from their terms. */
  lemma InputsRead<M, V, S>(env: Env<M, V, S>, slots: map<int, S>, rd: Reading<V, S>, calls: set<Expr>, n: string,
                            args: seq<Expr>, ts: seq<SymTerm>)
    requires Reads(env, slots, rd, calls)
    ensures Values(rd, MarketTerm(n, args) + SourceOrder(env.noiseFirst, n, ts))
         == MarketInput(env, n, args) + SourceOrder(env.noiseFirst, n, Values(rd, ts))
  {
    hide KindOf, ReadsStep;
    assert Values(rd, MarketTerm(n, args)) == MarketInput(env, n, args);
    assert Values(rd, SourceOrder(env.noiseFirst, n, ts)) == SourceOrder(env.noiseFirst, n, Values(rd, ts));
    ValuesConcat(rd, MarketTerm(n, args), SourceOrder(env.noiseFirst, n, ts));
  }

  lemma ValuesConcat<V, S>(rd: Reading<V, S>, a: seq<SymTerm>, b: seq<SymTerm>)
    ensures Values(rd, a + b) == Values(rd, a) + Values(rd, b)
  {
  }

  lemma FireSound<M, V, S>(env: Env<M, V, S>, slots: map<int, S>, rd: Reading<V, S>, calls: set<Expr>,
                           known: map<SymTerm, bool>, e: Expr, ins: seq<SymTerm>, s: SymState, r: EvalState<V, S>)
    requires e in calls && e.Call? && Follows(env, slots, rd, calls, known) && Denotes(slots, rd, s, r)
    ensures var t, (v, r') := FireTerm(e, ins, s), Fire(env, e, Values(rd, ins), r);
      v == rd.value(t.value) && Denotes(slots, rd, t.st, r')
  {
    hide StepAt, Values;
    var id := e.nodeId;
    var before := if id in s.slots then s.slots[id] else Start(id);
    var after := After(CloneExpr(e), ins, before);
    assert rd.slot(before, e) == SlotOf(env, r.slots, e);
    assert ReadsStep(env, rd, e, ins, before);
    var step := StepAt(env, e, Values(rd, ins), SlotOf(env, r.slots, e)).1;
    assert forall d :: rd.slot(after, d) == step;
    SlotStepped(slots, rd, s.slots, r.slots, id, after, step);
  }

  lemma SlotStepped<V, S>(slots: map<int, S>, rd: Reading<V, S>, sym: map<int, Machine>, got: map<int, S>, id: int,
                          after: Machine, step: S)
    requires DenotesSlots(slots, rd, sym, got) && after.After? && Root(after) == id &&
             forall d :: rd.slot(after, d) == step
    ensures DenotesSlots(slots, rd, sym[id := after], got[id := step])
  {
  }

  lemma {:induction false} TraceArgsSound<M, V, S>(env: Env<M, V, S>, slots: map<int, S>, rd: Reading<V, S>,
                                                   calls: set<Expr>, known: map<SymTerm, bool>, args: seq<Expr>,
                                                   s: SymState, r: EvalState<V, S>)
    requires RunnableArgs(args) && StatefulInArgs(args) <= calls && Follows(env, slots, rd, calls, known) &&
             Denotes(slots, rd, s, r)
    requires TraceArgs(known, env.noiseFirst, args, s).Reached?
    ensures var t := TraceArgs(known, env.noiseFirst, args, s);
      EvalArgs(env, args, r).0 == Values(rd, t.value) && Denotes(slots, rd, t.st, EvalArgs(env, args, r).1)
    decreases SizeArgs(args), 2, |args|
  {
    hide Denotes, Follows, Eval, Trace, KindOf, Runnable, StatefulIn;
    if args != [] {
      TraceSound(env, slots, rd, calls, known, args[0], s, r);
      TraceArgsSound(env, slots, rd, calls, known, args[1..], Trace(known, env.noiseFirst, args[0], s).st,
                     Eval(env, args[0], r).1);
    }
  }

  lemma {:induction false} ProgramSound<M, V, S>(env: Env<M, V, S>, slots: map<int, S>, rd: Reading<V, S>,
                                                 calls: set<Expr>, known: map<SymTerm, bool>, bodies: seq<Expr>,
                                                 s: SymState, slots1: map<int, S>, log: multiset<int>)
    requires RunnableArgs(bodies) && StatefulInArgs(bodies) <= calls && Follows(env, slots, rd, calls, known)
    requires DenotesSlots(slots, rd, s.slots, slots1) && TraceProgram(known, env.noiseFirst, bodies, s).Reached?
    ensures var t, r := TraceProgram(known, env.noiseFirst, bodies, s), EvalProgram(env, bodies, slots1, log);
      r.0 == Values(rd, t.value) && DenotesSlots(slots, rd, t.st.slots, r.1)
    decreases bodies
  {
    hide Follows, DenotesSlots, Eval, Trace, KindOf, Runnable, StatefulIn;
    if bodies != [] {
      var s0, r0: EvalState<V, S> := s.(cache := map[]), EvalState(slots1, map[], log);
      TraceSound(env, slots, rd, calls, known, bodies[0], s0, r0);
      var r1 := Eval(env, bodies[0], r0).1;
      ProgramSound(env, slots, rd, calls, known, bodies[1..], Trace(known, env.noiseFirst, bodies[0], s0).st, r1.slots,
                   r1.log);
    }
  }
}

/** Exactly when compiled code, which evaluates from left to right, agrees with the interpreter, which takes
    kalman1d's noise first: when symbolic runs in the two orders end alike. */
module OrderExact {
  import opened Ast
  import opened Evaluation
  import opened Ir
  import opened Codegen
  import opened CodegenCorrect
  import opened NodeIds
  import opened Program
  import opened NoiseExchange
  import opened NoiseOrder
  import opened Symbolic
  import opened SymbolicRuns

  // ---- Reading terms with given operators, from given slots ----

  function Named(c: CallExpr, id: int): CallExpr {
    Call(c.name, c.args, id)
  }

  ghost function TermValue<M, V, S>(env: Env<M, V, S>, slots: map<int, S>, t: SymTerm): V
    decreases t
  {
    match t
    case Literal(b) => env.ops.num(b)
    case Parameter(i) => env.params(i)
    case Negated(x) => env.ops.neg(TermValue(env, slots, x))
    case Applied(op, l, r) => env.ops.bin(op, TermValue(env, slots, l), TermValue(env, slots, r))
    case Quoted(fn, ticker) => env.ops.market(env.market, fn, ticker)
    case Mapped(fn, x) => env.ops.math(fn, TermValue(env, slots, x))
    case Out(c, ins, before) =>
      var call := Named(c, Root(before));
      StepAt(env, call, seq(|ins|, i requires 0 <= i < |ins| => TermValue(env, slots, ins[i])),
             MachineState(env, slots, before, call)).0
  }

  ghost function MachineState<M, V, S>(env: Env<M, V, S>, slots: map<int, S>, m: Machine, asker: Expr): S
    decreases m
  {
    match m
    case Start(_) => if asker.Call? then SlotOf(env, slots, asker) else env.ops.init(asker)
    case After(c, ins, before) =>
      var call := Named(c, Root(before));
      StepAt(env, call, seq(|ins|, i requires 0 <= i < |ins| => TermValue(env, slots, ins[i])),
             MachineState(env, slots, before, call)).1
  }

  ghost function ReadingFrom<M, V, S>(env: Env<M, V, S>, slots: map<int, S>): Reading<V, S> {
    Reading(t => TermValue(env, slots, t), (m, c) => MachineState(env, slots, m, c))
  }

  lemma ReadingReads<M, V, S>(env: Env<M, V, S>, slots: map<int, S>, calls: set<Expr>)
    requires forall c <- calls :: c.Call?
    ensures Reads(env, slots, ReadingFrom(env, slots), calls)
  {
    hide StepAt, ReadsStep, SlotOf;
    forall c, ins, before | c in calls ensures ReadsStep(env, ReadingFrom(env, slots), c, ins, before) {
      StepReads(env, slots, c, ins, before);
    }
  }

  lemma StepReads<M, V, S>(env: Env<M, V, S>, slots: map<int, S>, c: Expr, ins: seq<SymTerm>, before: Machine)
    requires c.Call?
    ensures ReadsStep(env, ReadingFrom(env, slots), c, ins, before)
  {
    var rd, call := ReadingFrom(env, slots), Named(CloneExpr(c), Root(before));
    CloneIdempotent(c);
    assert CloneExpr(call) == CloneExpr(c);
    assert seq(|ins|, i requires 0 <= i < |ins| => TermValue(env, slots, ins[i])) == Values(rd, ins);
    if Root(before) == c.nodeId {
      assert MachineState(env, slots, before, call) == MachineState(env, slots, before, c);
    }
  }

  // ---- Alike symbolically, alike under any operators ----

  /** The same outputs and the same context. */
  ghost predicate SameResult<M, V, S>(env: Env<M, V, S>, bodies: seq<Expr>, slots: map<int, S>)
    requires RunnableArgs(bodies)
  {
    var a, b := EvalProgram(env, bodies, slots, multiset{}), EvalProgram(NoiseFirst(env), bodies, slots, multiset{});
    a.0 == b.0 && a.1 == b.1
  }

  lemma SlotsDenotedOnce<V, S>(slots: map<int, S>, rd: Reading<V, S>, sym: map<int, Machine>, a: map<int, S>,
                               b: map<int, S>)
    requires DenotesSlots(slots, rd, sym, a) && DenotesSlots(slots, rd, sym, b)
    ensures a == b
  {
    forall id | id in a ensures a[id] == b[id] {
      if id in sym { assert rd.slot(sym[id], Num(0)) == a[id] && rd.slot(sym[id], Num(0)) == b[id]; }
    }
  }

  lemma CompleteRuns<M, V, S>(env: Env<M, V, S>, bodies: seq<Expr>, slots: map<int, S>, rd: Reading<V, S>,
                              known: map<SymTerm, bool>)
    requires RunnableArgs(bodies) && LeftToRight(env) && Follows(env, slots, rd, StatefulInArgs(bodies), known)
    requires BothReached(known, bodies)
    ensures var a, b := TraceProgram(known, false, bodies, NOTHING), TraceProgram(known, true, bodies, NOTHING);
      var (vs, slots1, _) := EvalProgram(env, bodies, slots, multiset{});
      var (ws, slots2, _) := EvalProgram(NoiseFirst(env), bodies, slots, multiset{});
      && vs == Values(rd, a.value) && DenotesSlots(slots, rd, a.st.slots, slots1)
      && ws == Values(rd, b.value) && DenotesSlots(slots, rd, b.st.slots, slots2)
  {
    hide Reads, TraceProgram, EvalProgram, Values;
    assert DenotesSlots(slots, rd, map[], slots);
    assert Follows(NoiseFirst(env), slots, rd, StatefulInArgs(bodies),
                   known) by { NoiseFirstReads(env, slots, rd, StatefulInArgs(bodies)); }
    ProgramSound(env, slots, rd, StatefulInArgs(bodies), known, bodies, NOTHING, slots, multiset{});
    ProgramSound(NoiseFirst(env), slots, rd, StatefulInArgs(bodies), known, bodies, NOTHING, slots, multiset{});
  }

  lemma NoiseFirstReads<M, V, S>(env: Env<M, V, S>, slots: map<int, S>, rd: Reading<V, S>, calls: set<Expr>)
    requires Reads(env, slots, rd, calls)
    ensures Reads(NoiseFirst(env), slots, rd, calls)
  {
    forall c, ins, before | c in calls ensures ReadsStep(NoiseFirst(env), rd, c, ins, before) {
      assert ReadsStep(env, rd, c, ins, before);
    }
  }

  lemma {:induction false} AlikeRuns<M, V, S>(env: Env<M, V, S>, bodies: seq<Expr>, slots: map<int, S>,
                                              rd: Reading<V, S>, known: map<SymTerm, bool>)
    requires RunnableArgs(bodies) && LeftToRight(env) && Follows(env, slots, rd, StatefulInArgs(bodies), known)
    requires AlikeFrom(known, bodies)
    ensures SameResult(env, bodies, slots)
    decreases Distance(known, bodies)
  {
    hide Reads, TraceProgram, EvalProgram, Values, DenotesSlots, Distance, Unlisted;
    if BothReached(known, bodies) {
      var a, b := TraceProgram(known, false, bodies, NOTHING), TraceProgram(known, true, bodies, NOTHING);
      CompleteRuns(env, bodies, slots, rd, known);
      SlotsDenotedOnce(slots, rd, a.st.slots, EvalProgram(env, bodies, slots, multiset{}).1,
                       EvalProgram(NoiseFirst(env), bodies, slots, multiset{}).1);
    } else {
      var t := Unlisted(known, bodies);
      Closer(known, true, bodies);
      Closer(known, false, bodies);
      var b := env.ops.isTrue(rd.value(t));
      assert Follows(env, slots, rd, StatefulInArgs(bodies), known[t := b]);
      AlikeRuns(env, bodies, slots, rd, known[t := b]);
    }
  }

  /** If symbolic runs in the two orders end alike, the interpreter's order does not matter: for any operators,
      market and context. */
  lemma OrderDoesNotMatter<M, V, S>(env: Env<M, V, S>, bodies: seq<Expr>, slots: map<int, S>)
    requires RunnableArgs(bodies) && LeftToRight(env) && OrderIrrelevant(bodies)
    ensures SameResult(env, bodies, slots)
  {
    hide Reads, AlikeFrom;
    ReadingReads(env, slots, StatefulInArgs(bodies));
    AlikeRuns(env, bodies, slots, ReadingFrom(env, slots), map[]);
  }

  // ---- Not alike symbolically: operators that tell the orders apart ----

  function Build(c: Expr, ins: seq<SymTerm>, before: Machine): (SymTerm, Machine) {
    if c.Call? then (Out(c, ins, before), After(c, ins, before)) else (Literal(0), before)
  }

  /** Operators that build terms, with conditions that come out as `known` lists them. */
  function FreeEnv(known: map<SymTerm, bool>): Env<bool, SymTerm, Machine> {
    var ops := Ops(
      (b: Bits64) => Literal(b), (t: SymTerm) => Negated(t),
          (op: BinaryOpKind, l: SymTerm, r: SymTerm) => Applied(op, l, r),
      (t: SymTerm) => t in known && known[t], (m: bool, fn: string, ticker: string) => Quoted(fn, ticker),
      (fn: string, t: SymTerm) => Mapped(fn, t), (c: Expr) => Start(NO_NODE), Build, Build);
    Env(ops, true, id => Parameter(id), {}, false)
  }

  /** Every slot of the program, where the evaluation finds it. */
  function FreeSlots(bodies: seq<Expr>): map<int, Machine> {
    map id | id in (set c <- StatefulInArgs(bodies) :: c.nodeId) :: Start(id)
  }

  const FREE: Reading<SymTerm, Machine> := Reading(t => t, (m, c) => m)

  lemma FreeStep(known: map<SymTerm, bool>, c: Expr, ins: seq<SymTerm>, before: Machine)
    requires c.Call?
    ensures ReadsStep(FreeEnv(known), FREE, c, ins, before)
  {
    assert Values(FREE, ins) == ins;
  }

  lemma FreeReads(known: map<SymTerm, bool>, bodies: seq<Expr>)
    ensures Follows(FreeEnv(known), FreeSlots(bodies), FREE, StatefulInArgs(bodies), known)
  {
    var env := FreeEnv(known);
    hide ReadsStep;
    forall c, ins, before | c in StatefulInArgs(bodies) ensures ReadsStep(env, FREE, c, ins, before) {
      FreeStep(known, c, ins, before);
    }
    assert forall c <- StatefulInArgs(bodies) :: c.nodeId in FreeSlots(bodies);
  }

  lemma FreeSlotsTell(bodies: seq<Expr>, a: map<int, Machine>, b: map<int, Machine>, got: map<int, Machine>)
    requires DenotesSlots(FreeSlots(bodies), FREE, a, got) && DenotesSlots(FreeSlots(bodies), FREE, b, got)
    ensures a == b
  {
    forall id: int ensures id in a <==> id in b ensures id in a ==> a[id] == b[id] {
      if id in a { assert FREE.slot(a[id], Num(0)) == got[id]; }
      if id in b { assert FREE.slot(b[id], Num(0)) == got[id]; }
    }
  }

  lemma {:induction false} Distinguished(bodies: seq<Expr>, known: map<SymTerm, bool>)
      returns (outcomes: map<SymTerm, bool>)
    requires RunnableArgs(bodies) && !AlikeFrom(known, bodies)
    ensures !SameResult(FreeEnv(outcomes), bodies, FreeSlots(bodies))
    decreases Distance(known, bodies)
  {
    hide Reads, TraceProgram, EvalProgram, DenotesSlots, Distance, Unlisted;
    if BothReached(known, bodies) {
      var a, b := TraceProgram(known, false, bodies, NOTHING), TraceProgram(known, true, bodies, NOTHING);
      outcomes := known;
      var env, slots := FreeEnv(known), FreeSlots(bodies);
      FreeReads(known, bodies);
      CompleteRuns(env, bodies, slots, FREE, known);
      assert Values(FREE, a.value) == a.value && Values(FREE, b.value) == b.value;
      if SameResult(env, bodies, slots) {
        FreeSlotsTell(bodies, a.st.slots, b.st.slots, EvalProgram(env, bodies, slots, multiset{}).1);
        assert false;
      }
    } else {
      var t := Unlisted(known, bodies);
      Closer(known, true, bodies);
      Closer(known, false, bodies);
      if AlikeFrom(known[t := true], bodies) {
        outcomes := Distinguished(bodies, known[t := false]);
      } else {
        outcomes := Distinguished(bodies, known[t := true]);
      }
    }
  }
}

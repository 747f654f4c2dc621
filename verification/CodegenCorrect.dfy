/** The emitted code computes what evaluation from left to right computes: same values, same slot updates, on
    every market and from every state; and it never reads a register that was not defined. */
module CodegenCorrect {
  import opened Ast
  import opened Evaluation
  import opened Ir
  import opened Codegen
  import opened Sharing
  import opened EmitFrame

  lemma EvalCons<M, V, S>(env: Env<M, V, S>, a: Expr, rest: seq<Expr>, st: EvalState<V, S>)
    requires Runnable(a) && RunnableArgs(rest)
    ensures RunnableArgs([a] + rest)
    ensures var (v, st1) := Eval(env, a, st);
      var (vs, st2) := EvalArgs(env, rest, st1);
      EvalArgs(env, [a] + rest, st) == ([v] + vs, st2)
  {
    hide Eval, Runnable;
    assert ([a] + rest)[1..] == rest;
  }

  lemma EvalThree<M, V, S>(env: Env<M, V, S>, a: Expr, b: Expr, c: Expr, st: EvalState<V, S>)
    requires Runnable(a) && Runnable(b) && Runnable(c)
    ensures RunnableArgs([a, b, c])
    ensures var (av, st1) := Eval(env, a, st);
      var (bv, st2) := Eval(env, b, st1);
      var (cv, st3) := Eval(env, c, st2);
      EvalArgs(env, [a, b, c], st) == ([av, bv, cv], st3)
  {
    hide Eval, Runnable, EvalArgs;
    var (av, st1) := Eval(env, a, st);
    var (bv, st2) := Eval(env, b, st1);
    var (cv, st3) := Eval(env, c, st2);
    EvalNone(env, st3);
    EvalCons(env, c, [], st2);
    EvalCons(env, b, [c], st1);
    EvalCons(env, a, [b, c], st);
    assert [c] + [] == [c] && [b] + [c] == [b, c] && [a] + [b, c] == [a, b, c];
    assert [cv] + [] == [cv] && [bv] + [cv] == [bv, cv] && [av] + [bv, cv] == [av, bv, cv];
  }

  lemma EvalNone<M, V, S>(env: Env<M, V, S>, st: EvalState<V, S>)
    ensures RunnableArgs([]) && EvalArgs(env, [], st) == ([], st)
  {
  }

  lemma InputsInOrder<M, V, S>(env: Env<M, V, S>, e: Expr)
    requires LeftToRight(env) && Runnable(e) && e.Call? && IsStatefulOp(e.name)
    ensures RunnableArgs(SourceArgs(e.name, e.args))
    ensures ArgOrder(env.noiseFirst, e.name, e.args) == SourceArgs(e.name, e.args)
    ensures forall vs: seq<V> :: SourceOrder(env.noiseFirst, e.name, vs) == vs
  {
    hide KindOf;
  }

  ghost predicate SubRegs<V(!new)>(a: map<nat, V>, b: map<nat, V>) {
    forall r <- a :: r in b && b[r] == a[r]
  }

  /** The machine about to execute what is emitted next, and the interpreter about to evaluate it. */
  ghost predicate Agree<M, V(!new), S>(env: Env<M, V, S>, cg: CodegenState, c: Config<V, S>, st: EvalState<V, S>,
                                 avail: set<int>, seen: set<int>)
  {
    && cg.cur < |cg.blocks|
    && c.block == cg.cur && c.pos == |cg.blocks[cg.cur].instrs|
    && c.slots == st.slots && c.log == st.log
    && avail <= st.cache.Keys <= seen
    && avail <= cg.cache.Keys <= seen
    && (forall id <- avail :: Defined(c.regs, cg.cache[id]) && ValueOf(env, c.regs, cg.cache[id]) == st.cache[id])
    && (forall r <- c.regs :: r < cg.nextReg)
  }

  lemma ValueKept<M, V(!new), S>(env: Env<M, V, S>, a: map<nat, V>, b: map<nat, V>, v: Value)
    requires SubRegs(a, b) && Defined(a, v)
    ensures Defined(b, v) && ValueOf(env, b, v) == ValueOf(env, a, v)
  {
  }

  /** Where the machine is, the next instruction appended is the next one it executes. */
  lemma AppendStep<M, V, S>(env: Env<M, V, S>, p: seq<Block>, cg: CodegenState, i: Instr, c: Config<V, S>)
    requires Usable(cg) && c.block == cg.cur && c.pos == |cg.blocks[cg.cur].instrs|
    requires Extends(Append(cg, i).1.blocks, p)
    ensures Step(env, p, c) == Exec(env, c, cg.nextReg, i)
  {
    hide Exec;
    var b := Append(cg, i).1.blocks[cg.cur];
    assert b.instrs[c.pos] == (cg.nextReg, i);
    assert p[cg.cur].instrs[c.pos] == b.instrs[c.pos];
  }

  /** A pure instruction: one more register, everything else as before. */
  lemma AgreeDefine<M, V(!new), S>(env: Env<M, V, S>, cg: CodegenState, i: Instr, c: Config<V, S>, st: EvalState<V, S>,
                             avail: set<int>, seen: set<int>, w: V) returns (c': Config<V, S>)
    requires Usable(cg) && Agree(env, cg, c, st, avail, seen)
    requires Exec(env, c, cg.nextReg, i) == Define(c, cg.nextReg, w)
    ensures Running(c') == Define(c, cg.nextReg, w)
    ensures Agree(env, Append(cg, i).1, c', st, avail, seen)
    ensures SubRegs(c.regs, c'.regs)
    ensures Defined(c'.regs, Append(cg, i).0) && ValueOf(env, c'.regs, Append(cg, i).0) == w
  {
    hide Exec;
    c' := c.(regs := c.regs[cg.nextReg := w], pos := c.pos + 1);
  }

  lemma SubRegsTrans<V(!new)>(a: map<nat, V>, b: map<nat, V>, c: map<nat, V>)
    requires SubRegs(a, b) && SubRegs(b, c)
    ensures SubRegs(a, c)
  {
  }

  lemma RunOne<M, V, S>(env: Env<M, V, S>, p: seq<Block>, n: nat, c: Config<V, S>, c1: Config<V, S>, c2: Config<V, S>)
    requires Run(env, p, n, c) == Running(c1) && Step(env, p, c1) == Running(c2)
    ensures Run(env, p, n + 1, c) == Running(c2)
  {
    hide Step;
    RunCompose(env, p, n, 1, c, c1);
    assert Run(env, p, 0, c2) == Running(c2);
    assert Run(env, p, 1, c1) == Running(c2);
  }

  /** What the simulation of one expression gives. */
  ghost predicate Simulated<M, V(!new), S>(env: Env<M, V, S>, p: seq<Block>, c: Config<V, S>, n: nat, c': Config<V, S>,
                                           v: Value, cg': CodegenState, w: V, st': EvalState<V, S>, avail': set<int>,
                                           seen': set<int>)
  {
    && Run(env, p, n, c) == Running(c')
    && c'.outs == c.outs && SubRegs(c.regs, c'.regs)
    && Agree(env, cg', c', st', avail', seen')
    && Defined(c'.regs, v) && ValueOf(env, c'.regs, v) == w
  }

  /** After a simulated operand, one pure instruction. */
  lemma SimulateAppend<M, V(!new), S>(env: Env<M, V, S>, p: seq<Block>, c: Config<V, S>, n: nat, c1: Config<V, S>,
                                      cg1: CodegenState, st1: EvalState<V, S>, avail: set<int>, seen: set<int>,
                                      i: Instr, w: V)
      returns (c': Config<V, S>)
    requires Run(env, p, n, c) == Running(c1) && c1.outs == c.outs && SubRegs(c.regs, c1.regs)
    requires Usable(cg1) && Agree(env, cg1, c1, st1, avail, seen)
    requires Exec(env, c1, cg1.nextReg, i) == Define(c1, cg1.nextReg, w)
    requires Extends(Append(cg1, i).1.blocks, p)
    ensures Simulated(env, p, c, n + 1, c', Append(cg1, i).0, Append(cg1, i).1, w, st1, avail, seen)
  {
    hide Exec, Step, Append, Agree;
    assert c1.block == cg1.cur && c1.pos == |cg1.blocks[cg1.cur].instrs| by { AgreePlace(env, cg1, c1, st1, avail,
      seen); }
    AppendStep(env, p, cg1, i, c1);
    c' := AgreeDefine(env, cg1, i, c1, st1, avail, seen, w);
    RunOne(env, p, n, c, c1, c');
    SubRegsTrans(c.regs, c1.regs, c'.regs);
  }

  lemma AgreePlace<M, V(!new), S>(env: Env<M, V, S>, cg: CodegenState, c: Config<V, S>, st: EvalState<V, S>,
                                  avail: set<int>, seen: set<int>)
    requires Agree(env, cg, c, st, avail, seen)
    ensures cg.cur < |cg.blocks| && c.block == cg.cur && c.pos == |cg.blocks[cg.cur].instrs|
  {
  }

  lemma SimulateTrans<M, V(!new), S>(env: Env<M, V, S>, p: seq<Block>, c: Config<V, S>, n: nat, c1: Config<V, S>,
                                     m: nat, c2: Config<V, S>, v: Value, cg2: CodegenState, w: V, st2: EvalState<V, S>,
                                     avail2: set<int>, seen2: set<int>)
    requires Run(env, p, n, c) == Running(c1) && c1.outs == c.outs && SubRegs(c.regs, c1.regs)
    requires Simulated(env, p, c1, m, c2, v, cg2, w, st2, avail2, seen2)
    ensures Simulated(env, p, c, n + m, c2, v, cg2, w, st2, avail2, seen2)
  {
    hide Step, Agree;
    RunCompose(env, p, n, m, c, c1);
    SubRegsTrans(c.regs, c1.regs, c2.regs);
  }

  lemma SimulateNothing<M, V(!new), S>(env: Env<M, V, S>, p: seq<Block>, cg: CodegenState, c: Config<V, S>,
                                 st: EvalState<V, S>, avail: set<int>, seen: set<int>, v: Value)
    requires Agree(env, cg, c, st, avail, seen) && Defined(c.regs, v)
    ensures Simulated(env, p, c, 0, c, v, cg, ValueOf(env, c.regs, v), st, avail, seen)
  {
  }

  lemma {:induction false} EmitSim<M, V(!new), S>(env: Env<M, V, S>, p: seq<Block>, e: Expr, cg: CodegenState,
                                                  c: Config<V, S>, st: EvalState<V, S>, avail: set<int>, seen: set<int>)
      returns (n: nat, c': Config<V, S>)
    requires Runnable(e) && LeftToRight(env) && Usable(cg) && SoundlyShared(e, avail, seen)
    requires Agree(env, cg, c, st, avail, seen)
    requires Extends(Emit(e, cg).1.blocks, p)
    ensures Simulated(env, p, c, n, c', Emit(e, cg).0, Emit(e, cg).1, Eval(env, e, st).0, Eval(env, e, st).1,
                      AvailAfter(e, avail), SeenAfter(e, avail, seen))
    decreases e, 1
  {
    hide KindOf, Extends, Grew, Agree, Append, Step;
    match e
    case Num(b) =>
      n, c' := 0, c;
      SimulateNothing(env, p, cg, c, st, avail, seen, ConstV(b));
    case Param(_, id) =>
      c' := SimulateAppend(env, p, c, 0, c, cg, st, avail, seen, IParam(id), env.params(id));
      n := 1;
    case Unary(op, x) => n, c' := EmitSimUnary(env, p, e, cg, c, st, avail, seen);
    case Binary(_, _, _) => n, c' := EmitSimBinary(env, p, e, cg, c, st, avail, seen);
    case Cond(_, _, _) => n, c' := EmitSimCond(env, p, e, cg, c, st, avail, seen);
    case Call(name, _, _) =>
      if IsStatefulOp(name) {
        n, c' := EmitSimStateful(env, p, e, cg, c, st, avail, seen);
      } else {
        n, c' := EmitSimStateless(env, p, e, cg, c, st, avail, seen);
      }
  }

  lemma AppendExtends(cg: CodegenState, i: Instr, p: seq<Block>)
    requires Usable(cg) && Extends(Append(cg, i).1.blocks, p)
    ensures Extends(cg.blocks, p)
  {
    GrewAppend(cg, i);
    GrewExtends(cg, Append(cg, i).1, p);
  }

  lemma EmitUsable(e: Expr, cg: CodegenState)
    requires Runnable(e) && Usable(cg)
    ensures Usable(Emit(e, cg).1)
  {
    hide Emit;
    EmitGrew(e, cg);
  }

  lemma EmitExtends(e: Expr, cg: CodegenState, p: seq<Block>)
    requires Runnable(e) && Usable(cg) && Extends(Emit(e, cg).1.blocks, p)
    ensures Extends(cg.blocks, p)
  {
    hide Emit, Extends;
    EmitGrew(e, cg);
    GrewExtends(cg, Emit(e, cg).1, p);
  }

  lemma {:induction false} EmitSimUnary<M, V(!new), S>(env: Env<M, V, S>, p: seq<Block>, e: Expr, cg: CodegenState,
                                                       c: Config<V, S>, st: EvalState<V, S>, avail: set<int>,
                                                       seen: set<int>)
      returns (n: nat, c': Config<V, S>)
    requires e.Unary? && Runnable(e) && LeftToRight(env) && Usable(cg) && SoundlyShared(e, avail, seen)
    requires Agree(env, cg, c, st, avail, seen)
    requires Extends(Emit(e, cg).1.blocks, p)
    ensures Simulated(env, p, c, n, c', Emit(e, cg).0, Emit(e, cg).1, Eval(env, e, st).0, Eval(env, e, st).1,
                      AvailAfter(e, avail), SeenAfter(e, avail, seen))
    decreases e, 0
  {
    hide KindOf, Extends, Grew, Agree, Append, Step;
    var x := e.operand;
    EmitUsable(x, cg);
    var (v, cg1) := Emit(x, cg);
    if e.uop == Minus { AppendExtends(cg1, INeg(v), p); }
    n, c' := EmitSim(env, p, x, cg, c, st, avail, seen);
    if e.uop == Minus {
      var (w, st1) := Eval(env, x, st);
      c' := SimulateAppend(env, p, c, n, c', cg1, st1, AvailAfter(x, avail), SeenAfter(x, avail, seen), INeg(v),
                           env.ops.neg(w));
      n := n + 1;
    }
  }

  lemma {:induction false} EmitSimBinary<M, V(!new), S>(env: Env<M, V, S>, p: seq<Block>, e: Expr, cg: CodegenState,
                                                        c: Config<V, S>, st: EvalState<V, S>, avail: set<int>,
                                                        seen: set<int>)
      returns (n: nat, c': Config<V, S>)
    requires e.Binary? && Runnable(e) && LeftToRight(env) && Usable(cg) && SoundlyShared(e, avail, seen)
    requires Agree(env, cg, c, st, avail, seen)
    requires Extends(Emit(e, cg).1.blocks, p)
    ensures Simulated(env, p, c, n, c', Emit(e, cg).0, Emit(e, cg).1, Eval(env, e, st).0, Eval(env, e, st).1,
                      AvailAfter(e, avail), SeenAfter(e, avail, seen))
    decreases e, 0
  {
    hide KindOf, Extends, Grew, Agree, Append, Step;
    var l, r := e.left, e.right;
    EmitUsable(l, cg);
    var (lv, cg1) := Emit(l, cg);
    EmitUsable(r, cg1);
    var (rv, cg2) := Emit(r, cg1);
    AppendExtends(cg2, IBin(e.bop, lv, rv), p);
    EmitExtends(r, cg1, p);
    var n1, c1 := EmitSim(env, p, l, cg, c, st, avail, seen);
    var (lw, st1) := Eval(env, l, st);
    var a1, s1 := AvailAfter(l, avail), SeenAfter(l, avail, seen);
    var n2, c2 := EmitSim(env, p, r, cg1, c1, st1, a1, s1);
    var (rw, st2) := Eval(env, r, st1);
    var a2, s2 := AvailAfter(r, a1), SeenAfter(r, a1, s1);
    SimulateTrans(env, p, c, n1, c1, n2, c2, rv, cg2, rw, st2, a2, s2);
    ValueKept(env, c1.regs, c2.regs, lv);
    c' := SimulateAppend(env, p, c, n1 + n2, c2, cg2, st2, a2, s2, IBin(e.bop, lv, rv), env.ops.bin(e.bop, lw, rw));
    n := n1 + n2 + 1;
  }

  lemma {:induction false} EmitSimStateless<M, V(!new), S>(env: Env<M, V, S>, p: seq<Block>, e: Expr, cg: CodegenState,
                                                           c: Config<V, S>, st: EvalState<V, S>, avail: set<int>,
                                                           seen: set<int>)
      returns (n: nat, c': Config<V, S>)
    requires e.Call? && !IsStatefulOp(e.name) && Runnable(e) && LeftToRight(env) && Usable(cg) &&
             SoundlyShared(e, avail, seen)
    requires Agree(env, cg, c, st, avail, seen)
    requires Extends(Emit(e, cg).1.blocks, p)
    ensures Simulated(env, p, c, n, c', Emit(e, cg).0, Emit(e, cg).1, Eval(env, e, st).0, Eval(env, e, st).1,
                      AvailAfter(e, avail), SeenAfter(e, avail, seen))
    decreases e, 0
  {
    hide KindOf, Extends, Grew, Agree, Append, Step;
    if IsMarketFn(e.name) {
      assert e.args == [e.args[0]];
      StatelessArgsShared(e.args, avail, seen);
      c' := SimulateAppend(env, p, c, 0, c, cg, st, avail, seen, IMarket(e.name, e.args),
                           MarketInput(env, e.name, e.args)[0]);
      n := 1;
    } else {
      SingleArg(e.args);
      var x := e.args[0];
      SingleArgShared(e.args, avail, seen);
      EmitUsable(x, cg);
      var (v, cg1) := Emit(x, cg);
      AppendExtends(cg1, IMath(e.name, v), p);
      n, c' := EmitSim(env, p, x, cg, c, st, avail, seen);
      var (w, st1) := Eval(env, x, st);
      c' := SimulateAppend(env, p, c, n, c', cg1, st1, AvailAfter(x, avail), SeenAfter(x, avail, seen),
                           IMath(e.name, v), env.ops.math(e.name, w));
      n := n + 1;
    }
  }

  lemma SingleArgShared(args: seq<Expr>, avail: set<int>, seen: set<int>)
    requires |args| == 1
    ensures AvailAfterArgs(args, avail) == AvailAfter(args[0], avail)
    ensures SeenAfterArgs(args, avail, seen) == SeenAfter(args[0], avail, seen)
    ensures SoundlySharedArgs(args, avail, seen) <==> SoundlyShared(args[0], avail, seen)
  {
    assert args[1..] == [];
  }

  /** A leading ticker has no effect on sharing. */
  lemma SourceArgsShared(e: Expr, avail: set<int>, seen: set<int>)
    requires Runnable(e) && e.Call?
    ensures var args := SourceArgs(e.name, e.args);
      && AvailAfterArgs(args, avail) == AvailAfterArgs(e.args, avail)
      && SeenAfterArgs(args, avail, seen) == SeenAfterArgs(e.args, avail, seen)
      && (SoundlySharedArgs(args, avail, seen) <==> SoundlySharedArgs(e.args, avail, seen))
  {
    hide KindOf;
    if IsTickerFn(e.name) && |e.args| > 0 {
      assert AvailAfter(e.args[0], avail) == avail && SeenAfter(e.args[0], avail, seen) == seen;
    }
  }

  lemma StatelessArgsShared(args: seq<Expr>, avail: set<int>, seen: set<int>)
    requires |args| == 1 && args[0].Ident?
    ensures AvailAfterArgs(args, avail) == avail && SeenAfterArgs(args, avail, seen) == seen
  {
    SingleArgShared(args, avail, seen);
  }

  lemma {:induction false} EmitArgsSim<M, V(!new), S>(env: Env<M, V, S>, p: seq<Block>, args: seq<Expr>,
                                                      cg: CodegenState, c: Config<V, S>, st: EvalState<V, S>,
                                                      avail: set<int>, seen: set<int>)
      returns (n: nat, c': Config<V, S>)
    requires RunnableArgs(args) && LeftToRight(env) && Usable(cg) && SoundlySharedArgs(args, avail, seen)
    requires Agree(env, cg, c, st, avail, seen)
    requires Extends(EmitArgs(args, cg).1.blocks, p)
    ensures Run(env, p, n, c) == Running(c') && c'.outs == c.outs && SubRegs(c.regs, c'.regs)
    ensures Agree(env, EmitArgs(args, cg).1, c', EvalArgs(env, args, st).1, AvailAfterArgs(args, avail),
                  SeenAfterArgs(args, avail, seen))
    ensures AllDefined(c'.regs, EmitArgs(args, cg).0)
    ensures ValuesOf(env, c'.regs, EmitArgs(args, cg).0) == EvalArgs(env, args, st).0
    decreases args, 0
  {
    hide KindOf, Extends, Grew, Agree, Append, Step, Eval, Emit;
    if args == [] {
      n, c' := 0, c;
    } else {
      var e := args[0];
      EmitUsable(e, cg);
      var (v, cg1) := Emit(e, cg);
      EmitArgsGrew(args[1..], cg1);
      GrewExtends(cg1, EmitArgs(args[1..], cg1).1, p);
      var n1, c1 := EmitSim(env, p, e, cg, c, st, avail, seen);
      var (w, st1) := Eval(env, e, st);
      var n2, c2 := EmitArgsSim(env, p, args[1..], cg1, c1, st1, AvailAfter(e, avail), SeenAfter(e, avail, seen));
      RunCompose(env, p, n1, n2, c, c1);
      SubRegsTrans(c.regs, c1.regs, c2.regs);
      ValueKept(env, c1.regs, c2.regs, v);
      n, c' := n1 + n2, c2;
      ConsValues(env, c2.regs, v, EmitArgs(args[1..], cg1).0);
    }
  }

  lemma ConsValues<M, V, S>(env: Env<M, V, S>, regs: map<nat, V>, v: Value, vs: seq<Value>)
    requires Defined(regs, v) && AllDefined(regs, vs)
    ensures AllDefined(regs, [v] + vs)
    ensures ValuesOf(env, regs, [v] + vs) == [ValueOf(env, regs, v)] + ValuesOf(env, regs, vs)
  {
    assert ([v] + vs)[1..] == vs;
  }

  /** Stateful call: a hit returns the cached value on both sides; a miss evaluates and steps once. */
  lemma {:induction false} EmitSimStateful<M, V(!new), S>(env: Env<M, V, S>, p: seq<Block>, e: Expr, cg: CodegenState,
                                                          c: Config<V, S>, st: EvalState<V, S>, avail: set<int>,
                                                          seen: set<int>)
      returns (n: nat, c': Config<V, S>)
    requires e.Call? && IsStatefulOp(e.name) && Runnable(e) && LeftToRight(env) && Usable(cg) &&
             SoundlyShared(e, avail, seen)
    requires Agree(env, cg, c, st, avail, seen)
    requires Extends(Emit(e, cg).1.blocks, p)
    ensures Simulated(env, p, c, n, c', Emit(e, cg).0, Emit(e, cg).1, Eval(env, e, st).0, Eval(env, e, st).1,
                      AvailAfter(e, avail), SeenAfter(e, avail, seen))
    decreases e, 0
  {
    hide KindOf, Extends, Grew, Append, Step;
    if e.nodeId in avail {
      SimulateNothing(env, p, cg, c, st, avail, seen, cg.cache[e.nodeId]);
      n, c' := 0, c;
    } else {
      var args := SourceArgs(e.name, e.args);
      SourceArgsShared(e, avail, seen);
      assert e.nodeId !in cg.cache && e.nodeId !in st.cache;
      var (vs, cg1) := EmitArgs(args, cg);
      EmitArgsGrew(args, cg);
      assert Usable(cg1) by { GrewUsable(cg, cg1); }
      AppendExtends(cg1, IStep(e, vs), p);
      n, c' := EmitArgsSim(env, p, args, cg, c, st, avail, seen);
      InputsInOrder(env, e);
      c' := StepSim(env, p, e, c, n, c', cg1, vs, EvalArgs(env, args, st).0, EvalArgs(env, args, st).1,
                    AvailAfterArgs(e.args, avail), SeenAfterArgs(e.args, avail, seen));
      n := n + 1;
    }
  }

  lemma GrewUsable(a: CodegenState, b: CodegenState)
    requires Grew(a, b)
    ensures Usable(b)
  {
  }

  lemma StepSim<M, V(!new), S>(env: Env<M, V, S>, p: seq<Block>, e: Expr, c: Config<V, S>, n: nat, c1: Config<V, S>,
                               cg1: CodegenState, vs: seq<Value>, ws: seq<V>, st1: EvalState<V, S>, avail: set<int>,
                               seen: set<int>)
      returns (c': Config<V, S>)
    requires e.Call? && Usable(cg1) && Agree(env, cg1, c1, st1, avail, seen) && e.nodeId !in seen
    requires Run(env, p, n, c) == Running(c1) && c1.outs == c.outs && SubRegs(c.regs, c1.regs)
    requires AllDefined(c1.regs, vs) && ValuesOf(env, c1.regs, vs) == ws
    requires Extends(Append(cg1, IStep(e, vs)).1.blocks, p)
    ensures var (v, cg2) := Append(cg1, IStep(e, vs));
      var (w, st2) := Fire(env, e, MarketInput(env, e.name, e.args) + ws, st1);
      Simulated(env, p, c, n + 1, c', v, cg2.(cache := cg2.cache[e.nodeId := v]), w, st2, avail + {e.nodeId},
                seen + {e.nodeId})
  {
    hide KindOf, Extends, Step, StepAt, SlotOf, MarketInput, ValuesOf, AllDefined;
    AppendStep(env, p, cg1, IStep(e, vs), c1);
    var (w, st2) := Fire(env, e, MarketInput(env, e.name, e.args) + ws, st1);
    c' := c1.(slots := st2.slots, log := st2.log, regs := c1.regs[cg1.nextReg := w], pos := c1.pos + 1);
    RunOne(env, p, n, c, c1, c');
  }

  /** The emit cache holds exactly ids the judgement accounts for. */
  lemma {:induction false} EmitKeys(e: Expr, cg: CodegenState, avail: set<int>, seen: set<int>)
    requires Runnable(e) && cg.cur < |cg.blocks| && SoundlyShared(e, avail, seen)
    requires avail <= cg.cache.Keys <= seen
    ensures AvailAfter(e, avail) <= Emit(e, cg).1.cache.Keys <= SeenAfter(e, avail, seen)
    decreases e, 1
  {
    hide KindOf;
    match e
    case Num(_) => {}
    case Param(_, _) => {}
    case Unary(_, x) => EmitKeys(x, cg, avail, seen);
    case Binary(_, l, r) =>
      EmitKeys(l, cg, avail, seen);
      EmitKeys(r, Emit(l, cg).1, AvailAfter(l, avail), SeenAfter(l, avail, seen));
    case Cond(c, t, f) =>
      var tr := TraceCond(e, cg);
      EmitKeys(c, tr.cg0, avail, seen);
      var a1, s1 := AvailAfter(c, avail), SeenAfter(c, avail, seen);
      EmitKeys(t, tr.open1, a1, s1);
      EmitKeys(f, tr.open2, a1, SeenAfter(t, a1, s1));
    case Call(n, args, id) =>
      if IsMathFn(n) {
        SingleArg(args);
        SingleArgShared(args, avail, seen);
        EmitKeys(args[0], cg, avail, seen);
      } else if IsMarketFn(n) {
        StatelessArgsShared(args, avail, seen);
      } else if id !in avail {
        SourceArgsShared(e, avail, seen);
        assert id !in cg.cache;
        EmitArgsKeys(SourceArgs(n, args), cg, avail, seen);
      }
  }

  lemma {:induction false} EmitArgsKeys(args: seq<Expr>, cg: CodegenState, avail: set<int>, seen: set<int>)
    requires RunnableArgs(args) && cg.cur < |cg.blocks| && SoundlySharedArgs(args, avail, seen)
    requires avail <= cg.cache.Keys <= seen
    ensures AvailAfterArgs(args, avail) <= EmitArgs(args, cg).1.cache.Keys <= SeenAfterArgs(args, avail, seen)
    decreases args, 0
  {
    hide KindOf;
    if args != [] {
      EmitKeys(args[0], cg, avail, seen);
      EmitArgsKeys(args[1..], Emit(args[0], cg).1, AvailAfter(args[0], avail), SeenAfter(args[0], avail, seen));
    }
  }

  /** Entering a branch: its block is empty, and what was surely cached before still is. */
  lemma EnterBranch<M, V(!new), S>(env: Env<M, V, S>, cg1: CodegenState, c1: Config<V, S>, st1: EvalState<V, S>,
                                   avail: set<int>, seen1: set<int>, open: CodegenState, seen: set<int>)
      returns (cb: Config<V, S>)
    requires Agree(env, cg1, c1, st1, avail, seen1)
    requires open.cur < |open.blocks| && open.blocks[open.cur] == EMPTY
    requires CacheKept(cg1.cache, open.cache) && cg1.nextReg <= open.nextReg
    requires seen1 <= seen && open.cache.Keys <= seen
    ensures Running(cb) == Jump(c1, open.cur) && cb.block == open.cur && cb.prev == c1.block
    ensures cb.outs == c1.outs && cb.regs == c1.regs
    ensures Agree(env, open, cb, st1, avail, seen)
  {
    cb := c1.(block := open.cur, pos := 0, prev := c1.block);
    KeptKeys(cg1.cache, open.cache);
  }

  lemma KeptKeys(a: map<int, Value>, b: map<int, Value>)
    requires CacheKept(a, b)
    ensures a.Keys <= b.Keys
  {
    forall id | id in a.Keys ensures id in b.Keys { assert id in a; }
  }

  /** Leaving a branch through the phi of the merge block. */
  lemma LeaveBranch<M, V(!new), S>(env: Env<M, V, S>, p: seq<Block>, c: Config<V, S>, n: nat, c1: Config<V, S>,
                                   cgEnd: CodegenState, st: EvalState<V, S>, availEnd: set<int>, seenEnd: set<int>,
                                   v: Value, w: V, open: CodegenState, phi: Instr, avail: set<int>, seen: set<int>)
      returns (c': Config<V, S>)
    requires Simulated(env, p, c, n, c1, v, cgEnd, w, st, availEnd, seenEnd)
    requires cgEnd.cur < |p| && p[cgEnd.cur].instrs == cgEnd.blocks[cgEnd.cur].instrs &&
             p[cgEnd.cur].term == Br(open.cur)
    requires Usable(open) && open.blocks[open.cur] == EMPTY && Extends(Append(open, phi).1.blocks, p)
    requires phi.IPhi?
    requires (phi.thenBlock == cgEnd.cur && phi.thenValue == v) ||
             (phi.thenBlock != cgEnd.cur && phi.elseBlock == cgEnd.cur && phi.elseValue == v)
    requires CacheKept(cgEnd.cache, open.cache) && cgEnd.nextReg <= open.nextReg
    requires avail <= availEnd && seenEnd <= seen && open.cache.Keys <= seen
    ensures Simulated(env, p, c, n + 2, c', Append(open, phi).0, Append(open, phi).1, w, st, avail, seen)
  {
    hide KindOf, Extends, Run;
    KeptKeys(cgEnd.cache, open.cache);
    var cj := c1.(block := open.cur, pos := 0, prev := cgEnd.cur);
    assert Step(env, p, c1) == Running(cj);
    RunOne(env, p, n, c, c1, cj);
    AppendStep(env, p, open, phi, cj);
    c' := cj.(regs := cj.regs[open.nextReg := w], pos := 1);
    assert Exec(env, cj, open.nextReg, phi) == Running(c');
    RunOne(env, p, n + 1, c, cj, c');
    assert Append(open, phi).1.blocks[open.cur].instrs == [] + [(open.nextReg, phi)];
    assert Agree(env, Append(open, phi).1, c', st, avail, seen);
  }

  lemma {:induction false} EmitSimCond<M, V(!new), S>(env: Env<M, V, S>, p: seq<Block>, e: Expr, cg: CodegenState,
                                                      c: Config<V, S>, st: EvalState<V, S>, avail: set<int>,
                                                      seen: set<int>)
      returns (n: nat, c': Config<V, S>)
    requires e.Cond? && Runnable(e) && LeftToRight(env) && Usable(cg) && SoundlyShared(e, avail, seen)
    requires Agree(env, cg, c, st, avail, seen)
    requires Extends(Emit(e, cg).1.blocks, p)
    ensures Simulated(env, p, c, n, c', Emit(e, cg).0, Emit(e, cg).1, Eval(env, e, st).0, Eval(env, e, st).1,
                      AvailAfter(e, avail), SeenAfter(e, avail, seen))
    decreases e, 0
  {
    var t := TraceCond(e, cg);
    assert Emit(e, cg) == Append(t.open3, PhiOf(t));
    TraceParts(e, cg);
    hide KindOf, Extends, Append, Step, Exec, Emit, TraceCond, Agree, Run, Terminate, Grew, SubRegs, CacheKept;
    TraceCondShape(e, cg);
    CondExtends(cg, t, p);
    var a1, s1 := AvailAfter(e.cond, avail), SeenAfter(e.cond, avail, seen);
    var s2 := SeenAfter(e.thn, a1, s1);
    AgreeKeys(env, cg, c, st, avail, seen);
    EmitKeys(e.cond, t.cg0, avail, seen);
    EmitKeys(e.thn, t.open1, a1, s1);
    EmitKeys(e.els, t.open2, a1, s2);
    var n1, c1 := EmitSim(env, p, e.cond, t.cg0, c, st, avail, seen);
    var (cw, st1) := Eval(env, e.cond, st);
    if env.ops.isTrue(cw) {
      n, c' := ThenSim(env, p, e, c, n1, c1, st1, a1, s1, SeenAfter(e.els, a1, s2), cg, t);
    } else {
      n, c' := ElseSim(env, p, e, c, n1, c1, st1, a1, s1, s2, cg, t);
    }
  }

  lemma TraceParts(e: Expr, cg: CodegenState)
    requires Runnable(e) && e.Cond? && Usable(cg)
    ensures var t := TraceCond(e, cg);
      && t.cg0 == cg.(blocks := cg.blocks + [EMPTY, EMPTY, EMPTY])
      && t.cg0.cur < |t.cg0.blocks| && (t.cv, t.cg1) == Emit(e.cond, t.cg0)
      && t.open1.cur < |t.open1.blocks| && (t.tv, t.cg2) == Emit(e.thn, t.open1)
      && t.open2.cur < |t.open2.blocks| && (t.ev, t.cg3) == Emit(e.els, t.open2)
      && t.open1.cache == t.cg1.cache && t.open2.cache == t.cg2.cache && t.open3.cache == t.cg3.cache
  {
    hide Emit, KindOf;
  }

  lemma AgreeKeys<M, V(!new), S>(env: Env<M, V, S>, cg: CodegenState, c: Config<V, S>, st: EvalState<V, S>,
                                 avail: set<int>, seen: set<int>)
    requires Agree(env, cg, c, st, avail, seen)
    ensures avail <= cg.cache.Keys <= seen
    ensures Agree(env, cg.(blocks := cg.blocks + [EMPTY, EMPTY, EMPTY]), c, st, avail, seen)
  {
  }

  lemma GrewFacts(a: CodegenState, b: CodegenState)
    requires Grew(a, b)
    ensures Usable(a) && Usable(b) && CacheKept(a.cache, b.cache) && a.nextReg <= b.nextReg
  {
  }

  lemma CacheKeptRefl(a: map<int, Value>)
    ensures CacheKept(a, a)
  {
  }

  /** What entering and leaving the branches needs of the final program. */
  ghost predicate Placed(t: CondTrace, p: seq<Block>) {
    && Usable(t.open1) && Usable(t.open2) && Usable(t.open3)
    && Extends(t.cg1.blocks, p) && Extends(t.cg2.blocks, p) && Extends(t.cg3.blocks, p)
    && Closed(p, t.cg1, CondBr(t.cv, t.open1.cur, t.open2.cur)) && Closed(p, t.cg2, Br(t.open3.cur)) &&
       Closed(p, t.cg3, Br(t.open3.cur))
    && t.open1.blocks[t.open1.cur] == EMPTY && t.open2.blocks[t.open2.cur] == EMPTY &&
       t.open3.blocks[t.open3.cur] == EMPTY
    && CacheKept(t.cg1.cache, t.open1.cache) && CacheKept(t.cg1.cache, t.open2.cache)
    && CacheKept(t.cg2.cache, t.open3.cache) && CacheKept(t.cg3.cache, t.open3.cache)
    && t.cg1.nextReg <= t.open1.nextReg && t.cg1.nextReg <= t.open2.nextReg
    && t.cg2.nextReg <= t.open3.nextReg && t.cg3.nextReg <= t.open3.nextReg
    && t.cg2.cur != t.cg3.cur
    && Extends(Append(t.open3, PhiOf(t)).1.blocks, p)
  }

  lemma CondExtends(cg: CodegenState, t: CondTrace, p: seq<Block>)
    requires CondShape(cg, t)
    requires Extends(Append(t.open3, PhiOf(t)).1.blocks, p)
    ensures Placed(t, p) && Usable(t.cg0)
  {
    hide Grew, Extends, CacheKept, Append;
    GrewFacts(t.open1, t.cg2);
    GrewFacts(t.open2, t.cg3);
    GrewFacts(t.cg0, t.cg1);
    CacheKeptRefl(t.cg1.cache);
    CacheKeptRefl(t.cg3.cache);
    AppendExtends(t.open3, PhiOf(t), p);
    TerminateExtends(t.cg3, Br(t.open3.cur), t.open3.cur, p);
    GrewExtends(t.open2, t.cg3, p);
    TerminateExtends(t.cg2, Br(t.open3.cur), t.open2.cur, p);
    GrewExtends(t.open1, t.cg2, p);
    TerminateExtends(t.cg1, CondBr(t.cv, t.open1.cur, t.open2.cur), t.open1.cur, p);
  }

  /** A block of the final program, closed where the state left it. */
  ghost predicate Closed(p: seq<Block>, cg: CodegenState, t: Term) {
    cg.cur < |cg.blocks| && cg.cur < |p| && p[cg.cur].instrs == cg.blocks[cg.cur].instrs && p[cg.cur].term == t
  }

  lemma {:induction false} ThenSim<M, V(!new), S>(env: Env<M, V, S>, p: seq<Block>, e: Expr, c: Config<V, S>, n1: nat,
                                                  c1: Config<V, S>, st1: EvalState<V, S>, a1: set<int>, s1: set<int>,
                                                  s3: set<int>, cg: CodegenState, t: CondTrace)
      returns (n: nat, c': Config<V, S>)
    requires e.Cond? && Runnable(e.thn) && LeftToRight(env) && SoundlyShared(e.thn, a1, s1)
    requires Run(env, p, n1, c) == Running(c1) && c1.outs == c.outs && SubRegs(c.regs, c1.regs)
    requires Agree(env, t.cg1, c1, st1, a1, s1) && Defined(c1.regs, t.cv) && env.ops.isTrue(ValueOf(env, c1.regs, t.cv))
    requires Placed(t, p) && Emit(e.thn, t.open1) == (t.tv, t.cg2)
    requires t.open1.cache.Keys <= s1 && t.open3.cache.Keys <= s3 && SeenAfter(e.thn, a1, s1) <= s3
    ensures var (w, st2) := Eval(env, e.thn, st1);
      Simulated(env, p, c, n, c', Append(t.open3, PhiOf(t)).0, Append(t.open3, PhiOf(t)).1, w, st2, a1, s3)
    decreases e, -1
  {
    hide KindOf, Extends, Append, Step, Agree, Grew, SubRegs, Exec;
    AgreePlace(env, t.cg1, c1, st1, a1, s1);
    var cb := EnterBranch(env, t.cg1, c1, st1, a1, s1, t.open1, s1);
    BranchTaken(env, p, c1, t.cv, cb, t.open1.cur, t.open2.cur, true);
    RunOne(env, p, n1, c, c1, cb);
    var n2, c2 := EmitSim(env, p, e.thn, t.open1, cb, st1, a1, s1);
    var (w, st2) := Eval(env, e.thn, st1);
    var at, s2 := AvailAfter(e.thn, a1), SeenAfter(e.thn, a1, s1);
    SimulateTrans(env, p, c, n1 + 1, cb, n2, c2, t.tv, t.cg2, w, st2, at, s2);
    c' := LeaveBranch(env, p, c, n1 + 1 + n2, c2, t.cg2, st2, at, s2, t.tv, w, t.open3, PhiOf(t), a1, s3);
    n := n1 + 1 + n2 + 2;
  }

  lemma {:induction false} ElseSim<M, V(!new), S>(env: Env<M, V, S>, p: seq<Block>, e: Expr, c: Config<V, S>, n1: nat,
                                                  c1: Config<V, S>, st1: EvalState<V, S>, a1: set<int>, s1: set<int>,
                                                  s2: set<int>, cg: CodegenState, t: CondTrace)
      returns (n: nat, c': Config<V, S>)
    requires e.Cond? && Runnable(e.els) && LeftToRight(env) && s1 <= s2 && SoundlyShared(e.els, a1, s2)
    requires Run(env, p, n1, c) == Running(c1) && c1.outs == c.outs && SubRegs(c.regs, c1.regs)
    requires Agree(env, t.cg1, c1, st1, a1, s1) && Defined(c1.regs, t.cv) &&
             !env.ops.isTrue(ValueOf(env, c1.regs, t.cv))
    requires Placed(t, p) && Emit(e.els, t.open2) == (t.ev, t.cg3)
    requires t.open2.cache.Keys <= s2 && t.open3.cache.Keys <= SeenAfter(e.els, a1, s2)
    ensures var (w, st2) := Eval(env, e.els, st1);
      Simulated(env, p, c, n, c', Append(t.open3, PhiOf(t)).0, Append(t.open3, PhiOf(t)).1, w, st2, a1,
                SeenAfter(e.els, a1, s2))
    decreases e, -1
  {
    hide KindOf, Extends, Append, Step, Agree, Grew, SubRegs, Exec;
    AgreePlace(env, t.cg1, c1, st1, a1, s1);
    var cb := EnterBranch(env, t.cg1, c1, st1, a1, s1, t.open2, s2);
    BranchTaken(env, p, c1, t.cv, cb, t.open1.cur, t.open2.cur, false);
    RunOne(env, p, n1, c, c1, cb);
    var n2, c2 := EmitSim(env, p, e.els, t.open2, cb, st1, a1, s2);
    var (w, st2) := Eval(env, e.els, st1);
    var ae, s3 := AvailAfter(e.els, a1), SeenAfter(e.els, a1, s2);
    SimulateTrans(env, p, c, n1 + 1, cb, n2, c2, t.ev, t.cg3, w, st2, ae, s3);
    c' := LeaveBranch(env, p, c, n1 + 1 + n2, c2, t.cg3, st2, ae, s3, t.ev, w, t.open3, PhiOf(t), a1, s3);
    n := n1 + 1 + n2 + 2;
  }

  lemma BranchTaken<M, V, S>(env: Env<M, V, S>, p: seq<Block>, c: Config<V, S>, v: Value, cb: Config<V, S>, t: nat,
                             f: nat, taken: bool)
    requires c.block < |p| && c.pos == |p[c.block].instrs| && p[c.block].term == CondBr(v, t, f)
    requires Defined(c.regs, v) && env.ops.isTrue(ValueOf(env, c.regs, v)) == taken
    requires Running(cb) == Jump(c, if taken then t else f)
    ensures Step(env, p, c) == Running(cb)
  {
  }
}

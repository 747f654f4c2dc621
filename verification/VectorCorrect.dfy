/** Lane `k` of the vectorised program is the scalar evaluation on market `k` and context `base + k`. */
module VectorCorrect {
  import opened Options
  import opened Ast
  import opened Evaluation
  import opened Sharing
  import opened Ir
  import opened CodegenCorrect
  import opened Streams
  import opened Vector

  /** A branch that only looks up adds nothing to what is available or seen. */
  lemma {:induction false} HitsShape(e: Expr, avail: set<int>, seen: set<int>)
    requires Hits(e, avail)
    ensures AvailAfter(e, avail) == avail && SeenAfter(e, avail, seen) == seen && Steady(e, avail)
    decreases e, 1
  {
    hide KindOf;
    match e
    case Unary(_, x) => HitsShape(x, avail, seen);
    case Binary(_, l, r) => HitsShape(l, avail, seen); HitsShape(r, avail, seen);
    case Cond(c, t, f) => HitsShape(c, avail, seen); HitsShape(t, avail, seen); HitsShape(f, avail, seen);
    case Call(n, args, _) => if !IsStatefulOp(n) { HitsShapeArgs(args, avail, seen); }
    case _ => {}
  }

  lemma {:induction false} HitsShapeArgs(args: seq<Expr>, avail: set<int>, seen: set<int>)
    requires HitsArgs(args, avail)
    ensures AvailAfterArgs(args, avail) == avail && SeenAfterArgs(args, avail, seen) == seen && SteadyArgs(args, avail)
    decreases args, 0
  {
    if args != [] {
      HitsShape(args[0], avail, seen);
      HitsShapeArgs(args[1..], avail, seen);
    }
  }

  /** Evaluating it changes nothing. */
  lemma {:induction false} HitsPure<M, V, S>(env: Env<M, V, S>, e: Expr, st: EvalState<V, S>, avail: set<int>)
    requires Runnable(e) && Hits(e, avail) && avail <= st.cache.Keys
    ensures Eval(env, e, st).1 == st
    decreases e
  {
    hide KindOf;
    match e
    case Num(_) => {}
    case Param(_, _) => {}
    case Unary(_, x) => HitsPure(env, x, st, avail);
    case Binary(_, l, r) => HitsPure(env, l, st, avail); HitsPure(env, r, st, avail);
    case Cond(c, t, f) => HitsPure(env, c, st, avail); HitsPure(env, t, st, avail); HitsPure(env, f, st, avail);
    case Call(n, args, _) =>
      if IsMathFn(n) && !IsStatefulOp(n) { SingleArg(args); HitsPure(env, args[0], st, avail); }
  }

  ghost predicate VSub<V(!new)>(a: map<nat, seq<V>>, b: map<nat, seq<V>>) {
    forall r <- a :: r in b && b[r] == a[r]
  }

  ghost predicate OthersKept<S(!new)>(base: nat, width: nat, a: seq<map<int, S>>, b: seq<map<int, S>>) {
    |a| == |b| && forall j | 0 <= j < |a| && !(base <= j < base + width) :: b[j] == a[j]
  }

  /** Lane `k` of the machine against the evaluation of that lane. */
  ghost predicate Lane<M, V(!new), S(!new)>(ve: VEnv<M, V, S>, k: nat, g: VGen, c: VConfig<V, S>, st: EvalState<V, S>,
                                            avail: set<int>, seen: set<int>)
  {
    && k < |ve.markets| && ve.base + |ve.markets| <= |c.arena|
    && c.arena[ve.base + k] == st.slots
    && avail <= st.cache.Keys <= seen && avail <= g.cache.Keys <= seen
    && (forall id <- avail ::
          VDefined(c.regs, |ve.markets|, g.cache[id]) && LaneOf(ve, c.regs, g.cache[id], k) == st.cache[id])
    && (forall r <- c.regs :: r < g.nextReg)
  }

  /** Code was executed, and lane `k` holds the value `w`. */
  ghost predicate Sim<M, V(!new), S(!new)>(ve: VEnv<M, V, S>, k: nat, c: VConfig<V, S>, em: Emitted, c': VConfig<V, S>,
                                           w: V, st': EvalState<V, S>, avail: set<int>, seen: set<int>)
  {
    && VRun(ve, em.code, c) == Some(c')
    && Lane(ve, k, em.g, c', st', avail, seen)
    && VDefined(c'.regs, |ve.markets|, em.v) && LaneOf(ve, c'.regs, em.v, k) == w
    && Grows(ve, c, c')
  }

  ghost predicate Grows<M, V(!new), S(!new)>(ve: VEnv<M, V, S>, c: VConfig<V, S>, c': VConfig<V, S>) {
    VSub(c.regs, c'.regs) && c'.outs == c.outs && OthersKept(ve.base, |ve.markets|, c.arena, c'.arena)
  }

  lemma GrowsTrans<M, V(!new), S(!new)>(ve: VEnv<M, V, S>, a: VConfig<V, S>, b: VConfig<V, S>, c: VConfig<V, S>)
    requires Grows(ve, a, b) && Grows(ve, b, c)
    ensures Grows(ve, a, c)
  {
  }

  lemma OperandKept<M, V(!new), S>(ve: VEnv<M, V, S>, a: map<nat, seq<V>>, b: map<nat, seq<V>>, v: Value, k: nat)
    requires VSub(a, b) && VDefined(a, |ve.markets|, v)
    ensures VDefined(b, |ve.markets|, v) && LaneOf(ve, b, v, k) == LaneOf(ve, a, v, k)
  {
  }

  lemma SimNothing<M, V(!new), S(!new)>(ve: VEnv<M, V, S>, k: nat, g: VGen, c: VConfig<V, S>, st: EvalState<V, S>,
                                        avail: set<int>, seen: set<int>, v: Value)
    requires Lane(ve, k, g, c, st, avail, seen) && VDefined(c.regs, |ve.markets|, v)
    ensures Sim(ve, k, c, Emitted(v, [], g), c, LaneOf(ve, c.regs, v, k), st, avail, seen)
  {
  }

  lemma SimSeq<M, V(!new), S(!new)>(ve: VEnv<M, V, S>, k: nat, c: VConfig<V, S>, code: seq<(nat, VInstr)>,
                                    c1: VConfig<V, S>, em: Emitted, c2: VConfig<V, S>, w: V, st2: EvalState<V, S>,
                                    avail: set<int>, seen: set<int>)
    requires VRun(ve, code, c) == Some(c1) && Grows(ve, c, c1)
    requires Sim(ve, k, c1, em, c2, w, st2, avail, seen)
    ensures Sim(ve, k, c, Emitted(em.v, code + em.code, em.g), c2, w, st2, avail, seen)
  {
    hide Lane, Grows;
    VRunAppend(ve, code, em.code, c, c1);
    GrowsTrans(ve, c, c1, c2);
  }

  predicate LaneWise(i: VInstr) {
    !i.VStep? && !i.VStore?
  }

  /** Append one lane-wise instruction. */
  lemma SimThen<M, V(!new), S(!new)>(ve: VEnv<M, V, S>, k: nat, c: VConfig<V, S>, em: Emitted, c1: VConfig<V, S>,
                                     st1: EvalState<V, S>, avail: set<int>, seen: set<int>, i: VInstr, w: V)
      returns (c2: VConfig<V, S>)
    requires VRun(ve, em.code, c) == Some(c1) && Grows(ve, c, c1) && Lane(ve, k, em.g, c1, st1, avail, seen)
    requires LaneWise(i) && OperandsDefined(c1.regs, |ve.markets|, i) && LaneResult(ve, c1.regs, i, k) == w
    ensures Sim(ve, k, c, Then(em, i), c2, w, st1, avail, seen)
  {
    var r, width := em.g.nextReg, |ve.markets|;
    var lanes := seq(width, j requires 0 <= j < width => LaneResult(ve, c1.regs, i, j));
    c2 := c1.(regs := c1.regs[r := lanes]);
    assert VExec(ve, c1, r, i) == Some(c2);
    OneInstr(ve, em.code, r, i, c, c1, c2);
    assert VSub(c1.regs, c2.regs);
    forall id | id in avail
      ensures VDefined(c2.regs, width, em.g.cache[id]) && LaneOf(ve, c2.regs, em.g.cache[id], k) == st1.cache[id]
    {
      OperandKept(ve, c1.regs, c2.regs, em.g.cache[id], k);
    }
    hide LaneResult, OperandsDefined, VExec;
    assert Grows(ve, c1, c2);
    GrowsTrans(ve, c, c1, c2);
  }

  lemma OneInstr<M, V, S>(ve: VEnv<M, V, S>, code: seq<(nat, VInstr)>, r: nat, i: VInstr,
                          c: VConfig<V, S>, c1: VConfig<V, S>, c2: VConfig<V, S>)
    requires VRun(ve, code, c) == Some(c1) && VExec(ve, c1, r, i) == Some(c2)
    ensures VRun(ve, code + [(r, i)], c) == Some(c2)
  {
    hide VExec;
    VRunAppend(ve, code, [(r, i)], c, c1);
    assert VRun(ve, [(r, i)][1..], c2) == Some(c2);
  }

  lemma {:induction false} VSim<M, V(!new), S(!new)>(ve: VEnv<M, V, S>, k: nat, e: Expr, g: VGen, c: VConfig<V, S>,
                                                     st: EvalState<V, S>, avail: set<int>, seen: set<int>)
      returns (c': VConfig<V, S>)
    requires Runnable(e) && SoundlyShared(e, avail, seen) && Steady(e, avail)
    requires Lane(ve, k, g, c, st, avail, seen)
    ensures k < |ve.markets|
    ensures var (w, st') := Eval(EnvOf(ve, k), e, st);
      Sim(ve, k, c, VEmit(e, g), c', w, st', AvailAfter(e, avail), SeenAfter(e, avail, seen))
    decreases e, 1
  {
    assert k < |ve.markets|;
    hide KindOf, Lane, Grows, VRun, Then;
    match e
    case Num(b) =>
      c' := c;
      SimNothing(ve, k, g, c, st, avail, seen, ConstV(b));
    case Param(_, id) =>
      SimNothing(ve, k, g, c, st, avail, seen, ConstV(0));
      c' := SimThen(ve, k, c, Emitted(ConstV(0), [], g), c, st, avail, seen, VParam(id), ve.params(id));
    case Unary(op, x) =>
      c' := VSim(ve, k, x, g, c, st, avail, seen);
      if op == Minus {
        var a := VEmit(x, g);
        var (w, st1) := Eval(EnvOf(ve, k), x, st);
        c' := SimThen(ve, k, c, a, c', st1, AvailAfter(x, avail), SeenAfter(x, avail, seen), VNeg(a.v), ve.ops.neg(w));
      }
    case Binary(_, _, _) => c' := VSimBinary(ve, k, e, g, c, st, avail, seen);
    case Cond(_, _, _) => c' := VSimCond(ve, k, e, g, c, st, avail, seen);
    case Call(n, _, _) =>
      if IsStatefulOp(n) {
        c' := VSimStateful(ve, k, e, g, c, st, avail, seen);
      } else {
        c' := VSimStateless(ve, k, e, g, c, st, avail, seen);
      }
  }

  lemma {:induction false} VSimBinary<M, V(!new), S(!new)>(ve: VEnv<M, V, S>, k: nat, e: Expr, g: VGen,
                                                           c: VConfig<V, S>, st: EvalState<V, S>, avail: set<int>,
                                                           seen: set<int>) returns (c': VConfig<V, S>)
    requires e.Binary?
    requires Runnable(e) && SoundlyShared(e, avail, seen) && Steady(e, avail)
    requires Lane(ve, k, g, c, st, avail, seen)
    ensures k < |ve.markets|
    ensures var (w, st') := Eval(EnvOf(ve, k), e, st);
      Sim(ve, k, c, VEmit(e, g), c', w, st', AvailAfter(e, avail), SeenAfter(e, avail, seen))
    decreases e, 0
  {
    assert k < |ve.markets|;
    hide KindOf, Lane, VRun, Then, Grows;
    var env, l, r := EnvOf(ve, k), e.left, e.right;
    var a1, s1 := AvailAfter(l, avail), SeenAfter(l, avail, seen);
    var a := VEmit(l, g);
    var (lv, st1) := Eval(env, l, st);
    var c1 := VSim(ve, k, l, g, c, st, avail, seen);
    var b := VEmit(r, a.g);
    var (rv, st2) := Eval(env, r, st1);
    var c2 := VSim(ve, k, r, a.g, c1, st1, a1, s1);
    SimSeq(ve, k, c, a.code, c1, b, c2, rv, st2, AvailAfter(r, a1), SeenAfter(r, a1, s1));
    GrowsRegs(ve, c1, c2);
    OperandKept(ve, c1.regs, c2.regs, a.v, k);
    c' := SimThen(ve, k, c, Emitted(b.v, a.code + b.code, b.g), c2, st2, AvailAfter(r, a1), SeenAfter(r, a1, s1),
                  VBin(e.bop, a.v, b.v), ve.ops.bin(e.bop, lv, rv));
  }

  lemma GrowsRegs<M, V(!new), S(!new)>(ve: VEnv<M, V, S>, a: VConfig<V, S>, b: VConfig<V, S>)
    requires Grows(ve, a, b)
    ensures VSub(a.regs, b.regs)
  {
  }

  lemma LaneCache<M, V(!new), S(!new)>(ve: VEnv<M, V, S>, k: nat, g: VGen, c: VConfig<V, S>, st: EvalState<V, S>,
                                       avail: set<int>, seen: set<int>)
    requires Lane(ve, k, g, c, st, avail, seen)
    ensures k < |ve.markets| && ve.base + |ve.markets| <= |c.arena|
    ensures avail <= st.cache.Keys <= seen && avail <= g.cache.Keys <= seen
  {
  }

  /** Both branches run; neither changes anything, and the lane selects the one its condition takes. */
  lemma {:induction false} VSimCond<M, V(!new), S(!new)>(ve: VEnv<M, V, S>, k: nat, e: Expr, g: VGen, c: VConfig<V, S>,
                                                         st: EvalState<V, S>, avail: set<int>, seen: set<int>)
      returns (c': VConfig<V, S>)
    requires e.Cond?
    requires Runnable(e) && SoundlyShared(e, avail, seen) && Steady(e, avail)
    requires Lane(ve, k, g, c, st, avail, seen)
    ensures k < |ve.markets|
    ensures var (w, st') := Eval(EnvOf(ve, k), e, st);
      Sim(ve, k, c, VEmit(e, g), c', w, st', AvailAfter(e, avail), SeenAfter(e, avail, seen))
    decreases e, 0
  {
    assert k < |ve.markets|;
    hide KindOf, Lane, VRun, Then, Grows;
    var env := EnvOf(ve, k);
    var a1, s1 := AvailAfter(e.cond, avail), SeenAfter(e.cond, avail, seen);
    HitsShape(e.thn, a1, s1);
    HitsShape(e.els, a1, s1);
    var a := VEmit(e.cond, g);
    var (cv, st1) := Eval(env, e.cond, st);
    var c1 := VSim(ve, k, e.cond, g, c, st, avail, seen);
    LaneCache(ve, k, a.g, c1, st1, a1, s1);
    HitsPure(env, e.thn, st1, a1);
    HitsPure(env, e.els, st1, a1);
    var b := VEmit(e.thn, a.g);
    var c2 := VSim(ve, k, e.thn, a.g, c1, st1, a1, s1);
    var d := VEmit(e.els, b.g);
    var c3 := VSim(ve, k, e.els, b.g, c2, st1, a1, s1);
    var tv, fv := Eval(env, e.thn, st1).0, Eval(env, e.els, st1).0;
    SimSeq(ve, k, c, a.code, c1, b, c2, tv, st1, a1, s1);
    SimSeq(ve, k, c, a.code + b.code, c2, d, c3, fv, st1, a1, s1);
    GrowsTrans(ve, c1, c2, c3);
    GrowsRegs(ve, c1, c3);
    GrowsRegs(ve, c2, c3);
    OperandKept(ve, c1.regs, c3.regs, a.v, k);
    OperandKept(ve, c2.regs, c3.regs, b.v, k);
    c' := SimThen(ve, k, c, Emitted(d.v, a.code + b.code + d.code, d.g), c3, st1, a1, s1,
                  VSelect(a.v, b.v, d.v), if ve.ops.isTrue(cv) then tv else fv);
  }

  lemma {:induction false} VSimStateless<M, V(!new), S(!new)>(ve: VEnv<M, V, S>, k: nat, e: Expr, g: VGen,
                                                              c: VConfig<V, S>, st: EvalState<V, S>, avail: set<int>,
                                                              seen: set<int>) returns (c': VConfig<V, S>)
    requires e.Call? && !IsStatefulOp(e.name)
    requires Runnable(e) && SoundlyShared(e, avail, seen) && Steady(e, avail)
    requires Lane(ve, k, g, c, st, avail, seen)
    ensures k < |ve.markets|
    ensures var (w, st') := Eval(EnvOf(ve, k), e, st);
      Sim(ve, k, c, VEmit(e, g), c', w, st', AvailAfter(e, avail), SeenAfter(e, avail, seen))
    decreases e, 0
  {
    assert k < |ve.markets|;
    hide KindOf, Lane, VRun, Then, Grows;
    var env, args := EnvOf(ve, k), e.args;
    SingleArgShared(args, avail, seen);
    if IsMathFn(e.name) {
      SingleArg(args);
      assert SteadyArgs(args, avail) <==> Steady(args[0], avail) by { assert args[1..] == []; }
      c' := VSim(ve, k, args[0], g, c, st, avail, seen);
      var a := VEmit(args[0], g);
      var (w, st1) := Eval(env, args[0], st);
      c' := SimThen(ve, k, c, a, c', st1, AvailAfter(args[0], avail), SeenAfter(args[0], avail, seen),
                    VMath(e.name, a.v), ve.ops.math(e.name, w));
    } else {
      assert AvailAfter(args[0], avail) == avail && SeenAfter(args[0], avail, seen) == seen;
      SimNothing(ve, k, g, c, st, avail, seen, ConstV(0));
      c' := SimThen(ve, k, c, Emitted(ConstV(0), [], g), c, st, avail, seen,
                    VMarket(e.name, args), MarketInput(env, e.name, args)[0]);
    }
  }

  /** The values of a list of operands, in lane `k`. */
  ghost predicate ArgsHold<M, V(!new), S>(ve: VEnv<M, V, S>, k: nat, regs: map<nat, seq<V>>, vs: seq<Value>, ws: seq<V>)
  {
    AllVDefined(regs, |ve.markets|, vs) && LanesOf(ve, regs, vs, k) == ws
  }

  lemma ArgsCons<M, V(!new), S>(ve: VEnv<M, V, S>, k: nat, regs: map<nat, seq<V>>, v: Value, w: V, vs: seq<Value>,
                                ws: seq<V>)
    requires VDefined(regs, |ve.markets|, v) && LaneOf(ve, regs, v, k) == w && ArgsHold(ve, k, regs, vs, ws)
    ensures ArgsHold(ve, k, regs, [v] + vs, [w] + ws)
  {
    assert ([v] + vs)[1..] == vs;
  }

  lemma {:induction false} VSimArgs<M, V(!new), S(!new)>(ve: VEnv<M, V, S>, k: nat, args: seq<Expr>, g: VGen,
                                                         c: VConfig<V, S>, st: EvalState<V, S>, avail: set<int>,
                                                         seen: set<int>) returns (c': VConfig<V, S>)
    requires RunnableArgs(args) && SoundlySharedArgs(args, avail, seen) && SteadyArgs(args, avail)
    requires Lane(ve, k, g, c, st, avail, seen)
    ensures k < |ve.markets|
    ensures var (ws, st') := EvalArgs(EnvOf(ve, k), args, st);
      var (vs, code, g') := VEmitArgs(args, g);
      && VRun(ve, code, c) == Some(c')
      && Lane(ve, k, g', c', st', AvailAfterArgs(args, avail), SeenAfterArgs(args, avail, seen))
      && ArgsHold(ve, k, c'.regs, vs, ws) && Grows(ve, c, c')
    decreases args, 0
  {
    assert k < |ve.markets|;
    if args == [] {
      c' := c;
    } else {
      hide KindOf, Lane, Grows, ArgsHold;
      var env := EnvOf(ve, k);
      var a := VEmit(args[0], g);
      var (w, st1) := Eval(env, args[0], st);
      var c1 := VSim(ve, k, args[0], g, c, st, avail, seen);
      var a1, s1 := AvailAfter(args[0], avail), SeenAfter(args[0], avail, seen);
      c' := VSimArgs(ve, k, args[1..], a.g, c1, st1, a1, s1);
      var (vs, code, g') := VEmitArgs(args[1..], a.g);
      VRunAppend(ve, a.code, code, c, c1);
      GrowsTrans(ve, c, c1, c');
      GrowsRegs(ve, c1, c');
      OperandKept(ve, c1.regs, c'.regs, a.v, k);
      ArgsCons(ve, k, c'.regs, a.v, w, vs, EvalArgs(env, args[1..], st1).0);
    }
  }

  /** The fan-out steps context `base + k` once, from where it stood, with the inputs of lane `k`. */
  lemma {:induction false} FanOutLane<M, V, S(!new)>(ve: VEnv<M, V, S>, regs: map<nat, seq<V>>, call: Expr,
                                                     inputs: seq<Value>, j: nat, arena: seq<map<int, S>>, k: nat)
    requires call.Call? && j <= |ve.markets| && ve.base + |ve.markets| <= |arena| && k < |ve.markets|
    ensures var (lanes, arena') := FanOut(ve, regs, call, inputs, j, arena);
      && OthersKept(ve.base, |ve.markets|, arena, arena')
      && (if k < j then arena'[ve.base + k] == arena[ve.base + k]
          else
            var env, before := EnvOf(ve, k), arena[ve.base + k];
            var (v, s) := StepAt(env, call, MarketInput(env, call.name, call.args) + LanesOf(ve, regs, inputs, k),
                                 SlotOf(env, before, call));
            lanes[k - j] == v && arena'[ve.base + k] == before[call.nodeId := s])
    decreases |ve.markets| - j
  {
    hide StepAt, MarketInput, SlotOf, LanesOf;
    if j < |ve.markets| {
      var env, symbol := EnvOf(ve, j), ve.base + j;
      var s := StepAt(env, call, MarketInput(env, call.name, call.args) + LanesOf(ve, regs, inputs, j),
                      SlotOf(env, arena[symbol], call)).1;
      FanOutLane(ve, regs, call, inputs, j + 1, arena[symbol := arena[symbol][call.nodeId := s]], k);
    }
  }

  /** The lane after a step: one more register, one more cached id, one slot replaced. */
  lemma LaneStepped<M, V(!new), S(!new)>(ve: VEnv<M, V, S>, k: nat, g: VGen, c: VConfig<V, S>, st: EvalState<V, S>,
                                         avail: set<int>, seen: set<int>, id: int, lanes: seq<V>,
                                         arena: seq<map<int, S>>, w: V, s: S)
    requires Lane(ve, k, g, c, st, avail, seen) && id !in seen
    requires |lanes| == |ve.markets| && lanes[k] == w
    requires OthersKept(ve.base, |ve.markets|, c.arena, arena) && arena[ve.base + k] == st.slots[id := s]
    ensures var c' := VConfig(c.regs[g.nextReg := lanes], arena, c.outs);
      var st' := EvalState(st.slots[id := s], st.cache[id := w], st.log + multiset{id});
      && Lane(ve, k, VGen(g.nextReg + 1, g.cache[id := Reg(g.nextReg)]), c', st', avail + {id}, seen + {id})
      && VDefined(c'.regs, |ve.markets|, Reg(g.nextReg)) && LaneOf(ve, c'.regs, Reg(g.nextReg), k) == w &&
         Grows(ve, c, c')
  {
    var v := Reg(g.nextReg);
    var regs, cache := c.regs[g.nextReg := lanes], g.cache[id := v];
    var st' := EvalState(st.slots[id := s], st.cache[id := w], st.log + multiset{id});
    assert VSub(c.regs, regs);
    forall i | i in avail + {id}
      ensures VDefined(regs, |ve.markets|, cache[i]) && LaneOf(ve, regs, cache[i], k) == st'.cache[i]
    {
      if i in avail { OperandKept(ve, c.regs, regs, g.cache[i], k); }
    }
  }

  lemma StepLane<M, V(!new), S(!new)>(ve: VEnv<M, V, S>, k: nat, e: Expr, g: VGen, c: VConfig<V, S>,
                                      st: EvalState<V, S>, avail: set<int>, seen: set<int>, vs: seq<Value>, ws: seq<V>)
      returns (c': VConfig<V, S>)
    requires e.Call? && Lane(ve, k, g, c, st, avail, seen) && ArgsHold(ve, k, c.regs, vs, ws) && e.nodeId !in seen
    ensures k < |ve.markets|
    ensures var env := EnvOf(ve, k);
      var (w, st') := Fire(env, e, MarketInput(env, e.name, e.args) + ws, st);
      var v := Reg(g.nextReg);
      && VExec(ve, c, g.nextReg, VStep(e, vs)) == Some(c')
      && Lane(ve, k, VGen(g.nextReg + 1, g.cache[e.nodeId := v]), c', st', avail + {e.nodeId}, seen + {e.nodeId})
      && VDefined(c'.regs, |ve.markets|, v) && LaneOf(ve, c'.regs, v, k) == w && Grows(ve, c, c')
  {
    LaneCache(ve, k, g, c, st, avail, seen);
    var (lanes, arena) := FanOut(ve, c.regs, e, vs, 0, c.arena);
    FanOutLane(ve, c.regs, e, vs, 0, c.arena, k);
    var env := EnvOf(ve, k);
    assert c.arena[ve.base + k] == st.slots;
    var (w, s) := StepAt(env, e, MarketInput(env, e.name, e.args) + ws, SlotOf(env, st.slots, e));
    c' := VConfig(c.regs[g.nextReg := lanes], arena, c.outs);
    assert VExec(ve, c, g.nextReg, VStep(e, vs)) == Some(c');
    hide Lane, FanOut, StepAt, SlotOf, MarketInput, LanesOf, VExec, Grows, OthersKept;
    LaneStepped(ve, k, g, c, st, avail, seen, e.nodeId, lanes, arena, w, s);
  }

  lemma {:induction false} VSimStateful<M, V(!new), S(!new)>(ve: VEnv<M, V, S>, k: nat, e: Expr, g: VGen,
                                                             c: VConfig<V, S>, st: EvalState<V, S>, avail: set<int>,
                                                             seen: set<int>) returns (c': VConfig<V, S>)
    requires e.Call? && IsStatefulOp(e.name)
    requires Runnable(e) && SoundlyShared(e, avail, seen) && Steady(e, avail)
    requires Lane(ve, k, g, c, st, avail, seen)
    ensures k < |ve.markets|
    ensures var (w, st') := Eval(EnvOf(ve, k), e, st);
      Sim(ve, k, c, VEmit(e, g), c', w, st', AvailAfter(e, avail), SeenAfter(e, avail, seen))
    decreases e, 0
  {
    assert k < |ve.markets|;
    NotOther(e.name);
    var id, env := e.nodeId, EnvOf(ve, k);
    LaneCache(ve, k, g, c, st, avail, seen);
    if id in avail {
      c' := c;
      SimNothing(ve, k, g, c, st, avail, seen, g.cache[id]);
    } else {
      c' := VSimFresh(ve, k, e, g, c, st, avail, seen);
    }
  }

  lemma EvalFresh<M, V, S>(env: Env<M, V, S>, e: Expr, st: EvalState<V, S>)
    requires Runnable(e) && LeftToRight(env) && e.Call? && IsStatefulOp(e.name) && e.nodeId !in st.cache
    ensures RunnableArgs(SourceArgs(e.name, e.args))
    ensures var (ws, st1) := EvalArgs(env, SourceArgs(e.name, e.args), st);
      Eval(env, e, st) == Fire(env, e, MarketInput(env, e.name, e.args) + ws, st1)
  {
    NotOther(e.name);
    InputsInOrder(env, e);
    hide KindOf, Fire, MarketInput;
  }

  lemma EmitFresh(e: Expr, g: VGen)
    requires Runnable(e) && e.Call? && IsStatefulOp(e.name) && e.nodeId !in g.cache
    ensures RunnableArgs(SourceArgs(e.name, e.args))
    ensures var (vs, code, g1) := VEmitArgs(SourceArgs(e.name, e.args), g);
      VEmit(e, g) == Emitted(Reg(g1.nextReg), code + [(g1.nextReg, VStep(e, vs))],
                             VGen(g1.nextReg + 1, g1.cache[e.nodeId := Reg(g1.nextReg)]))
  {
    NotOther(e.name);
    hide KindOf;
  }

  lemma {:induction false} VSimFresh<M, V(!new), S(!new)>(ve: VEnv<M, V, S>, k: nat, e: Expr, g: VGen, c: VConfig<V, S>,
                                                          st: EvalState<V, S>, avail: set<int>, seen: set<int>)
      returns (c': VConfig<V, S>)
    requires e.Call? && IsStatefulOp(e.name) && e.nodeId !in avail
    requires Runnable(e) && SoundlyShared(e, avail, seen) && Steady(e, avail)
    requires Lane(ve, k, g, c, st, avail, seen)
    ensures k < |ve.markets|
    ensures var (w, st') := Eval(EnvOf(ve, k), e, st);
      Sim(ve, k, c, VEmit(e, g), c', w, st', AvailAfter(e, avail), SeenAfter(e, avail, seen))
    decreases e, -1
  {
    assert k < |ve.markets|;
    LaneCache(ve, k, g, c, st, avail, seen);
    hide KindOf, Lane, Grows, ArgsHold;
    var id, env, args := e.nodeId, EnvOf(ve, k), SourceArgs(e.name, e.args);
    SourceArgsShared(e, avail, seen);
    SourceArgsSteadyToo(e, avail);
    var a1, s1 := AvailAfterArgs(args, avail), SeenAfterArgs(args, avail, seen);
    assert id !in s1 && seen <= s1;
    EvalFresh(env, e, st);
    EmitFresh(e, g);
    assert AvailAfter(e, avail) == a1 + {id} && SeenAfter(e, avail, seen) == s1 + {id};
    hide Eval, VEmit, Fire, VRun, VExec, MarketInput, SoundlyShared, Steady;
    var (ws, st1) := EvalArgs(env, args, st);
    var c1 := VSimArgs(ve, k, args, g, c, st, avail, seen);
    var (vs, code, g1) := VEmitArgs(args, g);
    c' := StepLane(ve, k, e, g1, c1, st1, a1, s1, vs, ws);
    OneInstr(ve, code, g1.nextReg, VStep(e, vs), c, c1, c');
    GrowsTrans(ve, c, c1, c');
  }

  lemma SourceArgsSteadyToo(e: Expr, avail: set<int>)
    requires Runnable(e) && e.Call?
    ensures SteadyArgs(SourceArgs(e.name, e.args), avail) <==> SteadyArgs(e.args, avail)
  {
    SourceArgsSteady(e, map[], avail);
  }
}

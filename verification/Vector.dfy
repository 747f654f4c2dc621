/** The vectorised program: K symbols at once, in straight-line code over registers of K lanes.

    Arithmetic works on all lanes together, a conditional evaluates both branches and selects lane by lane,
    and a stateful call runs once per lane, in lane order, each on the signal context of its own symbol. */
module Vector {
  import opened Options
  import opened Ast
  import opened Evaluation
  import opened Ir

  /** As in the scalar code, a store's register number stays unused. */
  datatype VInstr =
    | VParam(id: int)
    | VNeg(x: Value)
    | VBin(op: BinaryOpKind, l: Value, r: Value)
    | VMath(name: string, x: Value)
    | VMarket(name: string, args: seq<Expr>)
    | VSelect(cond: Value, onTrue: Value, onFalse: Value)
    | VStep(call: Expr, inputs: seq<Value>)
    | VStore(index: nat, x: Value)

  /** What a call of the compiled function is given: one market per lane and the first symbol. */
  datatype VEnv<!M, !V, !S> = VEnv(ops: Ops<M, V, S>, markets: seq<M>, params: int -> V, base: nat)

  datatype VConfig<V, S> = VConfig(regs: map<nat, seq<V>>, arena: seq<map<int, S>>, outs: map<nat, V>)

  function EnvOf<M, V, S>(ve: VEnv<M, V, S>, k: nat): Env<M, V, S>
    requires k < |ve.markets|
  {
    Env(ve.ops, ve.markets[k], ve.params, {}, false)
  }

  predicate VDefined<V>(regs: map<nat, seq<V>>, width: nat, v: Value) {
    v.Reg? ==> v.r in regs && |regs[v.r]| == width
  }

  predicate AllVDefined<V>(regs: map<nat, seq<V>>, width: nat, vs: seq<Value>) {
    forall i | 0 <= i < |vs| :: VDefined(regs, width, vs[i])
  }

  /** One lane of an operand; a constant is the same in every lane. */
  function LaneOf<M, V, S>(ve: VEnv<M, V, S>, regs: map<nat, seq<V>>, v: Value, k: nat): V {
    match v
    case ConstV(b) => ve.ops.num(b)
    case Reg(r) => if r in regs && k < |regs[r]| then regs[r][k] else ve.ops.num(0)
  }

  function LanesOf<M, V, S>(ve: VEnv<M, V, S>, regs: map<nat, seq<V>>, vs: seq<Value>, k: nat): (r: seq<V>)
    ensures |r| == |vs|
  {
    if vs == [] then [] else [LaneOf(ve, regs, vs[0], k)] + LanesOf(ve, regs, vs[1..], k)
  }

  /** The lanes of one stateful call, one after another, from lane `k` on. */
  function FanOut<M, V, S>(ve: VEnv<M, V, S>, regs: map<nat, seq<V>>, call: Expr, inputs: seq<Value>, k: nat,
                           arena: seq<map<int, S>>): (r: (seq<V>, seq<map<int, S>>))
    requires call.Call? && k <= |ve.markets| && ve.base + |ve.markets| <= |arena|
    ensures |r.0| == |ve.markets| - k && |r.1| == |arena|
    decreases |ve.markets| - k
  {
    if k == |ve.markets| then ([], arena)
    else
      var env, symbol := EnvOf(ve, k), ve.base + k;
      var (v, s) := StepAt(env, call, MarketInput(env, call.name, call.args) + LanesOf(ve, regs, inputs, k),
                           SlotOf(env, arena[symbol], call));
      var (rest, arena') := FanOut(ve, regs, call, inputs, k + 1, arena[symbol := arena[symbol][call.nodeId := s]]);
      ([v] + rest, arena')
  }

  function VDefine<V, S>(c: VConfig<V, S>, r: nat, lanes: seq<V>): Option<VConfig<V, S>> {
    Some(c.(regs := c.regs[r := lanes]))
  }

  /** Lane `k` of what a lane-wise instruction computes. */
  function LaneResult<M, V, S>(ve: VEnv<M, V, S>, regs: map<nat, seq<V>>, i: VInstr, k: nat): V
    requires k < |ve.markets|
  {
    match i
    case VParam(id) => ve.params(id)
    case VNeg(x) => ve.ops.neg(LaneOf(ve, regs, x, k))
    case VBin(op, x, y) => ve.ops.bin(op, LaneOf(ve, regs, x, k), LaneOf(ve, regs, y, k))
    case VMath(n, x) => ve.ops.math(n, LaneOf(ve, regs, x, k))
    case VMarket(n, args) =>
      var m := MarketInput(EnvOf(ve, k), n, args);
      if |m| == 1 then m[0] else ve.ops.num(0)
    case VSelect(b, x, y) => if ve.ops.isTrue(LaneOf(ve, regs, b, k))
        then LaneOf(ve, regs, x, k) else LaneOf(ve, regs, y, k)
    case _ => ve.ops.num(0)
  }

  predicate OperandsDefined<V>(regs: map<nat, seq<V>>, width: nat, i: VInstr) {
    match i
    case VParam(_) => true
    case VNeg(x) => VDefined(regs, width, x)
    case VBin(_, x, y) => VDefined(regs, width, x) && VDefined(regs, width, y)
    case VMath(_, x) => VDefined(regs, width, x)
    case VMarket(n, args) => IsTickerFn(n) && |args| > 0 && args[0].Ident?
    case VSelect(b, x, y) => VDefined(regs, width, b) && VDefined(regs, width, x) && VDefined(regs, width, y)
    case VStep(call, vs) => call.Call? && AllVDefined(regs, width, vs)
    case VStore(_, x) => VDefined(regs, width, x)
  }

  /** Execute one instruction; `None` when an operand was not defined. */
  function VExec<M, V, S>(ve: VEnv<M, V, S>, c: VConfig<V, S>, r: nat, i: VInstr): Option<VConfig<V, S>> {
    var width := |ve.markets|;
    if !OperandsDefined(c.regs, width, i) || ve.base + width > |c.arena| then None
    else
      match i
      case VStep(call, vs) =>
        var (lanes, arena) := FanOut(ve, c.regs, call, vs, 0, c.arena);
        VDefine(c.(arena := arena), r, lanes)
      case VStore(index, x) => Some(c.(outs := StoreLanes(ve, c.regs, x, index * width, 0, c.outs)))
      case _ => VDefine(c, r, seq(width, k requires 0 <= k < width => LaneResult(ve, c.regs, i, k)))
  }

  /** Signal-major, lane-minor: lane k of signal `index` goes to `index * K + k`. */
  function StoreLanes<M, V, S>(ve: VEnv<M, V, S>, regs: map<nat, seq<V>>, x: Value, start: nat, k: nat,
                               outs: map<nat, V>): map<nat, V>
    requires k <= |ve.markets|
    decreases |ve.markets| - k
  {
    if k == |ve.markets| then outs
    else StoreLanes(ve, regs, x, start, k + 1, outs[start + k := LaneOf(ve, regs, x, k)])
  }

  function VRun<M, V, S>(ve: VEnv<M, V, S>, code: seq<(nat, VInstr)>, c: VConfig<V, S>): Option<VConfig<V, S>> {
    if code == [] then Some(c)
    else
      match VExec(ve, c, code[0].0, code[0].1)
      case None => None
      case Some(c1) => VRun(ve, code[1..], c1)
  }

  lemma {:induction false} VRunAppend<M, V, S>(ve: VEnv<M, V, S>, a: seq<(nat, VInstr)>, b: seq<(nat, VInstr)>,
                                               c: VConfig<V, S>, c1: VConfig<V, S>)
    requires VRun(ve, a, c) == Some(c1)
    ensures VRun(ve, a + b, c) == VRun(ve, b, c1)
    decreases |a|
  {
    hide VExec;
    if a == [] {
      assert a + b == b;
    } else {
      assert (a + b)[1..] == a[1..] + b;
      VRunAppend(ve, a[1..], b, VExec(ve, c, a[0].0, a[0].1).value, c1);
    }
  }

  /** The generator's counters: the next register and the values of the stateful calls emitted so far. */
  datatype VGen = VGen(nextReg: nat, cache: map<int, Value>)

  datatype Emitted = Emitted(v: Value, code: seq<(nat, VInstr)>, g: VGen)

  function Then(before: Emitted, i: VInstr): Emitted {
    Emitted(Reg(before.g.nextReg), before.code + [(before.g.nextReg, i)], before.g.(nextReg := before.g.nextReg + 1))
  }

  function VEmit(e: Expr, g: VGen): Emitted
    requires Runnable(e)
    decreases e, 1
  {
    match e
    case Num(b) => Emitted(ConstV(b), [], g)
    case Param(_, id) => Then(Emitted(ConstV(0), [], g), VParam(id))
    case Unary(op, x) =>
      var a := VEmit(x, g);
      if op == Plus then a else Then(a, VNeg(a.v))
    case Binary(op, l, r) =>
      var a := VEmit(l, g);
      var b := VEmit(r, a.g);
      Then(Emitted(b.v, a.code + b.code, b.g), VBin(op, a.v, b.v))
    case Cond(c, t, f) =>
      var a := VEmit(c, g);
      var b := VEmit(t, a.g);
      var d := VEmit(f, b.g);
      Then(Emitted(d.v, a.code + b.code + d.code, d.g), VSelect(a.v, b.v, d.v))
    case Call(n, args, id) =>
      if id > 0 && id in g.cache then Emitted(g.cache[id], [], g)
      else if IsMarketFn(n) then Then(Emitted(ConstV(0), [], g), VMarket(n, args))
      else if IsMathFn(n) then
        SingleArg(args);
        var a := VEmit(args[0], g);
        Then(a, VMath(n, a.v))
      else
        var (vs, code, g1) := VEmitArgs(SourceArgs(n, args), g);
        var r := Then(Emitted(ConstV(0), code, g1), VStep(e, vs));
        r.(g := r.g.(cache := r.g.cache[id := r.v]))
  }

  function VEmitArgs(args: seq<Expr>, g: VGen): (r: (seq<Value>, seq<(nat, VInstr)>, VGen))
    requires RunnableArgs(args)
    ensures |r.0| == |args|
    decreases args, 0
  {
    if args == [] then ([], [], g)
    else
      var a := VEmit(args[0], g);
      var (vs, code, g1) := VEmitArgs(args[1..], a.g);
      ([a.v] + vs, a.code + code, g1)
  }

  function VEmitSignals(bodies: seq<Expr>, index: nat, g: VGen): seq<(nat, VInstr)>
    requires RunnableArgs(bodies)
  {
    if bodies == [] then []
    else
      var a := VEmit(bodies[0], g);
      a.code + [(a.g.nextReg, VStore(index, a.v))] +
          VEmitSignals(bodies[1..], index + 1, a.g.(nextReg := a.g.nextReg + 1))
  }

  /** The entry point of vectorised compilation. */
  function CompileVectorized(bodies: seq<Expr>, laneCount: nat): Option<seq<(nat, VInstr)>>
    requires RunnableArgs(bodies)
  {
    if bodies == [] || laneCount !in {2, 4, 8} then None else Some(VEmitSignals(bodies, 0, VGen(0, map[])))
  }

  lemma SignalsStep(bodies: seq<Expr>, i: nat, g: VGen, code: seq<(nat, VInstr)>)
    requires i < |bodies| && RunnableArgs(bodies[i..])
    ensures RunnableArgs(bodies[i + 1..])
    ensures var a := VEmit(bodies[i], g);
      code + VEmitSignals(bodies[i..], i, g) ==
        code + a.code + [(a.g.nextReg, VStore(i, a.v))] +
            VEmitSignals(bodies[i + 1..], i + 1, a.g.(nextReg := a.g.nextReg + 1))
  {
    assert bodies[i..][1..] == bodies[i + 1..];
    var a := VEmit(bodies[i], g);
    AppendFour(code, a.code, [(a.g.nextReg, VStore(i, a.v))],
               VEmitSignals(bodies[i + 1..], i + 1, a.g.(nextReg := a.g.nextReg + 1)), []);
    hide VEmit, KindOf, Runnable;
  }

  lemma AppendFour<T>(o: seq<T>, a: seq<T>, b: seq<T>, c: seq<T>, d: seq<T>)
    ensures o + a + b + c + d == o + (a + b + c + d)
  {
  }

  /** Emission in its own form: instructions appended to one buffer. */
  class VectorEmitter {
    var code: seq<(nat, VInstr)>
    var nextReg: nat
    var cache: map<int, Value>

    ghost function State(): VGen
      reads this
    {
      VGen(nextReg, cache)
    }

    constructor ()
      ensures code == [] && State() == VGen(0, map[])
    {
      code := [];
      nextReg := 0;
      cache := map[];
    }

    method Insert(i: VInstr) returns (v: Value)
      modifies this`code, this`nextReg
      ensures v == Reg(old(nextReg)) && nextReg == old(nextReg) + 1 && code == old(code) + [(old(nextReg), i)]
    {
      v := Reg(nextReg);
      code := code + [(nextReg, i)];
      nextReg := nextReg + 1;
    }

    method EmitExpr(e: Expr) returns (v: Value)
      requires Runnable(e)
      modifies this
      ensures var r := VEmit(e, old(State())); v == r.v && State() == r.g && code == old(code) + r.code
      decreases e, 1
    {
      hide KindOf;
      match e
      case Num(b) => v := ConstV(b);
      case Param(_, id) => v := Insert(VParam(id));
      case Unary(op, x) =>
        v := EmitExpr(x);
        if op == Minus { v := Insert(VNeg(v)); }
      case Binary(op, l, r) =>
        var lv := EmitExpr(l);
        var rv := EmitExpr(r);
        v := Insert(VBin(op, lv, rv));
      case Cond(_, _, _) => v := EmitSelect(e);
      case Call(_, _, _) => v := EmitCall(e);
    }

    method EmitSelect(e: Expr) returns (v: Value)
      requires Runnable(e) && e.Cond?
      modifies this
      ensures var r := VEmit(e, old(State())); v == r.v && State() == r.g && code == old(code) + r.code
      decreases e, 0
    {
      ghost var a := VEmit(e.cond, State());
      ghost var b := VEmit(e.thn, a.g);
      ghost var d := VEmit(e.els, b.g);
      ghost var select := [(d.g.nextReg, VSelect(a.v, b.v, d.v))];
      assert VEmit(e, State()) == Emitted(Reg(d.g.nextReg), a.code + b.code + d.code + select,
                                          d.g.(nextReg := d.g.nextReg + 1));
      hide KindOf, VEmit;
      AppendFour(code, a.code, b.code, d.code, select);
      var cv := EmitExpr(e.cond);
      var tv := EmitExpr(e.thn);
      var fv := EmitExpr(e.els);
      v := Insert(VSelect(cv, tv, fv));
    }

    method EmitCall(e: Expr) returns (v: Value)
      requires Runnable(e) && e.Call?
      modifies this
      ensures var r := VEmit(e, old(State())); v == r.v && State() == r.g && code == old(code) + r.code
      decreases e, 0
    {
      hide KindOf;
      if e.nodeId > 0 && e.nodeId in cache {
        v := cache[e.nodeId];
      } else if IsMarketFn(e.name) {
        v := Insert(VMarket(e.name, e.args));
      } else if IsMathFn(e.name) {
        SingleArg(e.args);
        var x := EmitExpr(e.args[0]);
        v := Insert(VMath(e.name, x));
      } else {
        var vs := EmitEach(SourceArgs(e.name, e.args));
        v := Insert(VStep(e, vs));
        cache := cache[e.nodeId := v];
      }
    }

    method EmitEach(args: seq<Expr>) returns (vs: seq<Value>)
      requires RunnableArgs(args)
      modifies this
      ensures var r := VEmitArgs(args, old(State())); vs == r.0 && State() == r.2 && code == old(code) + r.1
      decreases args, 0
    {
      vs := [];
      if args != [] {
        var v := EmitExpr(args[0]);
        var rest := EmitEach(args[1..]);
        vs := [v] + rest;
      }
    }
  
    method EmitSignal(body: Expr, i: nat)
      requires Runnable(body)
      modifies this
      ensures var a := VEmit(body, old(State()));
        State() == a.g.(nextReg := a.g.nextReg + 1) && code == old(code) + a.code + [(a.g.nextReg, VStore(i, a.v))]
    {
      hide VEmit, KindOf, Runnable;
      var v := EmitExpr(body);
      var _ := Insert(VStore(i, v));
    }

    /** The loop of the vectorised compiler over its signals. */
    method EmitProgram(bodies: seq<Expr>)
      requires RunnableArgs(bodies) && code == [] && State() == VGen(0, map[])
      modifies this
      ensures code == VEmitSignals(bodies, 0, VGen(0, map[]))
    {
      hide VEmit, KindOf, Runnable;
      ghost var whole := VEmitSignals(bodies, 0, VGen(0, map[]));
      assert bodies[0..] == bodies && [] + whole == whole;
      for i := 0 to |bodies|
        invariant RunnableArgs(bodies[i..])
        invariant code + VEmitSignals(bodies[i..], i, State()) == whole
      {
        SignalsStep(bodies, i, State(), code);
        EmitSignal(bodies[i], i);
      }
      assert bodies[|bodies|..] == [];
    }
  }
}

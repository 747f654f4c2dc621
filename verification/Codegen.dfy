/** Emission of one signal body: what `EmitExpr` appends, where it leaves the insert point, and what it
    puts in the per-compile cache of stateful results. */
module Codegen {
  import opened Ast
  import opened Evaluation
  import opened Ir

  datatype CodegenState = CodegenState(blocks: seq<Block>, cur: nat, nextReg: nat, cache: map<int, Value>)

  ghost predicate Usable(cg: CodegenState) {
    cg.cur < |cg.blocks| && cg.blocks[cg.cur].term.Open?
  }

  function Append(cg: CodegenState, i: Instr): (r: (Value, CodegenState))
    requires cg.cur < |cg.blocks|
    ensures r.1.cur == cg.cur && |r.1.blocks| == |cg.blocks|
  {
    var b := cg.blocks[cg.cur];
    (Reg(cg.nextReg),
     cg.(blocks := cg.blocks[cg.cur := b.(instrs := b.instrs + [(cg.nextReg, i)])], nextReg := cg.nextReg + 1))
  }

  /** Close the current block and move the insert point. */
  function Terminate(cg: CodegenState, t: Term, next: nat): (r: CodegenState)
    requires cg.cur < |cg.blocks|
    ensures |r.blocks| == |cg.blocks|
  {
    cg.(blocks := cg.blocks[cg.cur := cg.blocks[cg.cur].(term := t)], cur := next)
  }

  const EMPTY := Block([], Open)

  function Emit(e: Expr, cg: CodegenState): (r: (Value, CodegenState))
    requires Runnable(e) && cg.cur < |cg.blocks|
    ensures r.1.cur < |r.1.blocks| && |cg.blocks| <= |r.1.blocks|
    decreases e, 1
  {
    match e
    case Num(b) => (ConstV(b), cg)
    case Param(_, id) => Append(cg, IParam(id))
    case Unary(op, x) =>
      var (v, cg1) := Emit(x, cg);
      if op == Plus then (v, cg1) else Append(cg1, INeg(v))
    case Binary(op, l, r) =>
      var (lv, cg1) := Emit(l, cg);
      var (rv, cg2) := Emit(r, cg1);
      Append(cg2, IBin(op, lv, rv))
    case Cond(_, _, _) => var t := TraceCond(e, cg); Append(t.open3, PhiOf(t))
    case Call(n, args, id) =>
      if id > 0 && id in cg.cache then (cg.cache[id], cg)
      else if IsMarketFn(n) then Append(cg, IMarket(n, args))
      else if IsMathFn(n) then
        SingleArg(args);
        var (x, cg1) := Emit(args[0], cg);
        Append(cg1, IMath(n, x))
      else
        var (vs, cg1) := EmitArgs(SourceArgs(n, args), cg);
        var (v, cg2) := Append(cg1, IStep(e, vs));
        (v, cg2.(cache := cg2.cache[id := v]))
  }

  /** The states a conditional goes through: at its start, after each part, and at the start of each
      block it opens. */
  datatype CondTrace = CondTrace(
    cg0: CodegenState, cv: Value, cg1: CodegenState, open1: CodegenState,
    tv: Value, cg2: CodegenState, open2: CodegenState,
    ev: Value, cg3: CodegenState, open3: CodegenState)

  function TraceCond(e: Expr, cg: CodegenState): (t: CondTrace)
    requires Runnable(e) && e.Cond? && cg.cur < |cg.blocks|
    ensures t.open3.cur < |t.open3.blocks| && |cg.blocks| <= |t.open3.blocks|
    decreases e, 0
  {
    var thenB := |cg.blocks|;
    var elseB, merge := thenB + 1, thenB + 2;
    var cg0 := cg.(blocks := cg.blocks + [EMPTY, EMPTY, EMPTY]);
    var (cv, cg1) := Emit(e.cond, cg0);
    var open1 := Terminate(cg1, CondBr(cv, thenB, elseB), thenB);
    var (tv, cg2) := Emit(e.thn, open1);
    var open2 := Terminate(cg2, Br(merge), elseB);
    var (ev, cg3) := Emit(e.els, open2);
    CondTrace(cg0, cv, cg1, open1, tv, cg2, open2, ev, cg3, Terminate(cg3, Br(merge), merge))
  }

  /** The phi names the blocks in which the branches end, which need not be the ones they began in. */
  function PhiOf(t: CondTrace): Instr {
    IPhi(t.tv, t.cg2.cur, t.ev, t.cg3.cur)
  }

  lemma TraceCondSteps(e: Expr, cg: CodegenState)
    requires Runnable(e) && e.Cond? && cg.cur < |cg.blocks|
    ensures var t, n := TraceCond(e, cg), |cg.blocks|;
      && t.cg0 == cg.(blocks := cg.blocks + [EMPTY, EMPTY, EMPTY])
      && (t.cv, t.cg1) == Emit(e.cond, t.cg0) && t.open1 == Terminate(t.cg1, CondBr(t.cv, n, n + 1), n)
      && (t.tv, t.cg2) == Emit(e.thn, t.open1) && t.open2 == Terminate(t.cg2, Br(n + 2), n + 1)
      && (t.ev, t.cg3) == Emit(e.els, t.open2) && t.open3 == Terminate(t.cg3, Br(n + 2), n + 2)
      && Emit(e, cg) == Append(t.open3, PhiOf(t))
  {
    hide KindOf, Append, Terminate, EmitArgs, RunnableArgs;
  }

  function EmitArgs(args: seq<Expr>, cg: CodegenState): (r: (seq<Value>, CodegenState))
    requires RunnableArgs(args) && cg.cur < |cg.blocks|
    ensures |r.0| == |args| && r.1.cur < |r.1.blocks| && |cg.blocks| <= |r.1.blocks|
    decreases args, 0
  {
    if args == [] then ([], cg)
    else
      var (v, cg1) := Emit(args[0], cg);
      var (vs, cg2) := EmitArgs(args[1..], cg1);
      ([v] + vs, cg2)
  }

  /** Emit every body and store its value at its output index, then return. */
  function EmitSignals(bodies: seq<Expr>, index: nat, cg: CodegenState): (r: CodegenState)
    requires RunnableArgs(bodies) && cg.cur < |cg.blocks|
    ensures r.cur < |r.blocks|
  {
    if bodies == [] then Terminate(cg, Ret, cg.cur)
    else
      var (v, cg1) := Emit(bodies[0], cg);
      EmitSignals(bodies[1..], index + 1, Append(cg1, IStore(index, v)).1)
  }

  const START := CodegenState([EMPTY], 0, 0, map[])

  function CompileProgram(bodies: seq<Expr>): seq<Block>
    requires RunnableArgs(bodies)
  {
    EmitSignals(bodies, 0, START).blocks
  }

  /** The code generator in its own form: an insert point, a growing function and a cache. */
  class CodegenContext {
    var blocks: seq<Block>
    var cur: nat
    var nextReg: nat
    var cache: map<int, Value>

    ghost function State(): CodegenState
      reads this
    {
      CodegenState(blocks, cur, nextReg, cache)
    }

    constructor ()
      ensures State() == START
    {
      blocks := [EMPTY];
      cur := 0;
      nextReg := 0;
      cache := map[];
    }

    method CreateBlock() returns (b: nat)
      modifies this`blocks
      ensures b == old(|blocks|) && blocks == old(blocks) + [EMPTY]
    {
      b := |blocks|;
      blocks := blocks + [EMPTY];
    }

    method Insert(i: Instr) returns (v: Value)
      requires cur < |blocks|
      modifies this`blocks, this`nextReg
      ensures (v, State()) == Append(old(State()), i)
    {
      var b := blocks[cur];
      v := Reg(nextReg);
      blocks := blocks[cur := b.(instrs := b.instrs + [(nextReg, i)])];
      nextReg := nextReg + 1;
    }

    method CloseBlock(t: Term, next: nat)
      requires cur < |blocks|
      modifies this`blocks, this`cur
      ensures State() == Terminate(old(State()), t, next)
    {
      blocks := blocks[cur := blocks[cur].(term := t)];
      cur := next;
    }

    method EmitExpr(e: Expr) returns (v: Value)
      requires Runnable(e) && cur < |blocks|
      modifies this
      ensures (v, State()) == Emit(e, old(State()))
      decreases e, 1
    {
      match e
      case Num(b) => v := ConstV(b);
      case Param(_, id) => v := Insert(IParam(id));
      case Unary(op, x) =>
        v := EmitExpr(x);
        if op == Minus { v := Insert(INeg(v)); }
      case Binary(op, l, r) =>
        var lv := EmitExpr(l);
        var rv := EmitExpr(r);
        v := Insert(IBin(op, lv, rv));
      case Cond(_, _, _) => v := EmitConditional(e);
      case Call(_, _, _) => v := EmitCall(e);
    }

    method EmitConditional(e: Expr) returns (v: Value)
      requires Runnable(e) && e.Cond? && cur < |blocks|
      modifies this
      ensures (v, State()) == Emit(e, old(State()))
      decreases e, 0
    {
      ghost var t := TraceCond(e, State());
      TraceCondSteps(e, State());
      hide KindOf, Emit, TraceCond, Terminate, Append;
      var thenB := CreateBlock();
      var elseB := CreateBlock();
      var merge := CreateBlock();
      assert State() == t.cg0;
      var cv := EmitExpr(e.cond);
      CloseBlock(CondBr(cv, thenB, elseB), thenB);
      var tv := EmitExpr(e.thn);
      var thenEnd := cur;
      CloseBlock(Br(merge), elseB);
      var ev := EmitExpr(e.els);
      var elseEnd := cur;
      CloseBlock(Br(merge), merge);
      v := Insert(IPhi(tv, thenEnd, ev, elseEnd));
    }

    method EmitCall(e: Expr) returns (v: Value)
      requires Runnable(e) && e.Call? && cur < |blocks|
      modifies this
      ensures (v, State()) == Emit(e, old(State()))
      decreases e, 0
    {
      if e.nodeId > 0 && e.nodeId in cache {
        v := cache[e.nodeId];
      } else if IsMarketFn(e.name) {
        v := Insert(IMarket(e.name, e.args));
      } else if IsMathFn(e.name) {
        SingleArg(e.args);
        var x := EmitExpr(e.args[0]);
        v := Insert(IMath(e.name, x));
      } else {
        var vs := EmitEach(SourceArgs(e.name, e.args));
        v := Insert(IStep(e, vs));
        cache := cache[e.nodeId := v];
      }
    }

    method EmitEach(args: seq<Expr>) returns (vs: seq<Value>)
      requires RunnableArgs(args) && cur < |blocks|
      modifies this
      ensures (vs, State()) == EmitArgs(args, old(State()))
      decreases args, 0
    {
      vs := [];
      if args != [] {
        var v := EmitExpr(args[0]);
        vs := EmitEach(args[1..]);
        vs := [v] + vs;
      }
    }

    method EmitProgram(bodies: seq<Expr>)
      requires RunnableArgs(bodies) && State() == START
      modifies this
      ensures blocks == CompileProgram(bodies)
    {
      ghost var whole := CompileProgram(bodies);
      assert bodies[0..] == bodies;
      for i := 0 to |bodies|
        invariant cur < |blocks|
        invariant RunnableArgs(bodies[i..])
        invariant EmitSignals(bodies[i..], i, State()).blocks == whole
      {
        assert bodies[i..][1..] == bodies[i + 1..];
        var v := EmitExpr(bodies[i]);
        var _ := Insert(IStore(i, v));
      }
      assert bodies[|bodies|..] == [];
      CloseBlock(Ret, cur);
    }
  }
}

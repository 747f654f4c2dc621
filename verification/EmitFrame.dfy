/** What emission leaves alone: other blocks, closed blocks and cached values. */
module EmitFrame {
  import opened Ast
  import opened Evaluation
  import opened Ir
  import opened Codegen
  import opened Sharing

  ghost predicate CacheKept(a: map<int, Value>, b: map<int, Value>) {
    forall id <- a :: id in b && b[id] == a[id]
  }

  /** From one insert point to a later one: only the current block and new blocks change, and a block
      that was current and no longer is has been closed. */
  ghost predicate Grew(a: CodegenState, b: CodegenState) {
    && Usable(a) && Usable(b)
    && |a.blocks| <= |b.blocks| && a.nextReg <= b.nextReg
    && CacheKept(a.cache, b.cache)
    && (b.cur == a.cur || b.cur >= |a.blocks|)
    && a.blocks[a.cur].instrs <= b.blocks[a.cur].instrs
    && (b.cur != a.cur ==> !b.blocks[a.cur].term.Open?)
    && (forall i | 0 <= i < |a.blocks| && i != a.cur :: b.blocks[i] == a.blocks[i])
  }

  lemma GrewTrans(a: CodegenState, b: CodegenState, c: CodegenState)
    requires Grew(a, b) && Grew(b, c)
    ensures Grew(a, c)
  {
    if b.cur != a.cur {
      assert c.blocks[a.cur] == b.blocks[a.cur];
    }
  }

  lemma GrewAppend(cg: CodegenState, i: Instr)
    requires Usable(cg)
    ensures Grew(cg, Append(cg, i).1)
  {
  }

  lemma {:induction false} EmitGrew(e: Expr, cg: CodegenState)
    requires Runnable(e) && Usable(cg)
    ensures Grew(cg, Emit(e, cg).1)
    decreases e, 1
  {
    hide KindOf;
    match e
    case Num(_) => {}
    case Param(_, id) => GrewAppend(cg, IParam(id));
    case Unary(op, x) =>
      EmitGrew(x, cg);
      var (v, cg1) := Emit(x, cg);
      GrewAppend(cg1, INeg(v));
      GrewTrans(cg, cg1, Append(cg1, INeg(v)).1);
    case Binary(op, l, r) =>
      EmitGrew(l, cg);
      var (lv, cg1) := Emit(l, cg);
      EmitGrew(r, cg1);
      var (rv, cg2) := Emit(r, cg1);
      GrewAppend(cg2, IBin(op, lv, rv));
      GrewTrans(cg, cg1, cg2);
      GrewTrans(cg, cg2, Append(cg2, IBin(op, lv, rv)).1);
    case Cond(_, _, _) => EmitCondGrew(e, cg);
    case Call(_, _, _) => EmitCallGrew(e, cg);
  }

  lemma {:induction false} EmitCallGrew(e: Expr, cg: CodegenState)
    requires Runnable(e) && e.Call? && Usable(cg)
    ensures Grew(cg, Emit(e, cg).1)
    decreases e, 0
  {
    hide KindOf;
    if e.nodeId > 0 && e.nodeId in cg.cache {
    } else if IsMarketFn(e.name) {
      GrewAppend(cg, IMarket(e.name, e.args));
    } else if IsMathFn(e.name) {
      SingleArg(e.args);
      EmitGrew(e.args[0], cg);
      var (x, cg1) := Emit(e.args[0], cg);
      GrewAppend(cg1, IMath(e.name, x));
      GrewTrans(cg, cg1, Append(cg1, IMath(e.name, x)).1);
    } else {
      var args := SourceArgs(e.name, e.args);
      EmitArgsGrew(args, cg);
      var (vs, cg1) := EmitArgs(args, cg);
      GrewAppend(cg1, IStep(e, vs));
      GrewTrans(cg, cg1, Append(cg1, IStep(e, vs)).1);
    }
  }

  lemma {:induction false} EmitArgsGrew(args: seq<Expr>, cg: CodegenState)
    requires RunnableArgs(args) && Usable(cg)
    ensures Grew(cg, EmitArgs(args, cg).1)
    decreases args, 0
  {
    hide KindOf;
    if args != [] {
      EmitGrew(args[0], cg);
      var cg1 := Emit(args[0], cg).1;
      EmitArgsGrew(args[1..], cg1);
      GrewTrans(cg, cg1, EmitArgs(args[1..], cg1).1);
    }
  }

  /** How the states of a conditional relate, and what the fresh blocks hold when they are entered. */
  ghost predicate CondShape(cg: CodegenState, t: CondTrace) {
    var thenB := |cg.blocks|;
    && Usable(t.cg0) && Grew(t.cg0, t.cg1) && Grew(t.open1, t.cg2) && Grew(t.open2, t.cg3)
    && |t.cg0.blocks| == thenB + 3 && Usable(t.open3)
    && t.open1 == Terminate(t.cg1, CondBr(t.cv, thenB, thenB + 1), thenB)
    && t.open2 == Terminate(t.cg2, Br(thenB + 2), thenB + 1)
    && t.open3 == Terminate(t.cg3, Br(thenB + 2), thenB + 2)
    && t.open1.blocks[thenB] == EMPTY
    && t.open2.blocks[thenB + 1] == EMPTY
    && t.open3.blocks[thenB + 2] == EMPTY
    && t.cg2.cur != t.cg3.cur
  }

  lemma {:induction false} TraceCondShape(e: Expr, cg: CodegenState)
    requires Runnable(e) && e.Cond? && Usable(cg)
    ensures CondShape(cg, TraceCond(e, cg))
    decreases e, -1
  {
    hide KindOf, Emit;
    var t := TraceCond(e, cg);
    var thenB := |cg.blocks|;
    EmitGrew(e.cond, t.cg0);
    assert t.cg1.blocks[thenB] == EMPTY && t.cg1.blocks[thenB + 1] == EMPTY && t.cg1.blocks[thenB + 2] == EMPTY;
    assert t.cg1.cur < thenB || t.cg1.cur > thenB + 2;
    EmitGrew(e.thn, t.open1);
    assert t.cg2.blocks[thenB + 1] == EMPTY && t.cg2.blocks[thenB + 2] == EMPTY;
    EmitGrew(e.els, t.open2);
    assert t.cg3.blocks[thenB + 2] == EMPTY;
    assert !t.open2.blocks[t.cg2.cur].term.Open?;
    if t.cg2.cur != t.open2.cur { assert t.cg3.blocks[t.cg2.cur] == t.open2.blocks[t.cg2.cur]; }
  }

  lemma {:induction false} EmitCondGrew(e: Expr, cg: CodegenState)
    requires Runnable(e) && e.Cond? && Usable(cg)
    ensures Grew(cg, Emit(e, cg).1)
    decreases e, 0
  {
    hide KindOf;
    TraceCondShape(e, cg);
    var t := TraceCond(e, cg);
    CondKept(cg, t);
    GrewAppend(t.open3, PhiOf(t));
    GrewTrans(cg, t.open3, Append(t.open3, PhiOf(t)).1);
  }

  lemma CondKept(cg: CodegenState, t: CondTrace)
    requires Usable(cg) && t.cg0 == cg.(blocks := cg.blocks + [EMPTY, EMPTY, EMPTY])
    requires CondShape(cg, t)
    ensures Grew(cg, t.open3)
  {
    forall i | 0 <= i < |cg.blocks| && i != cg.cur ensures t.open3.blocks[i] == cg.blocks[i] {
      assert t.cg1.blocks[i] == t.cg0.blocks[i];
      assert i != t.cg1.cur && t.open1.blocks[i] == t.cg1.blocks[i];
      assert t.cg2.blocks[i] == t.open1.blocks[i];
      assert i != t.cg2.cur && t.open2.blocks[i] == t.cg2.blocks[i];
      assert t.cg3.blocks[i] == t.open2.blocks[i];
    }
    var k := cg.cur;
    assert t.open1.blocks[k].instrs == t.cg1.blocks[k].instrs && !t.open1.blocks[k].term.Open?;
    assert t.cg2.blocks[k] == t.open1.blocks[k];
    assert t.open2.blocks[k] == t.cg2.blocks[k];
    assert t.cg3.blocks[k] == t.open2.blocks[k];
    assert t.open3.blocks[k] == t.cg3.blocks[k];
  }

  /** `p` completes `blocks`: open blocks may still grow, closed ones are final. */
  ghost predicate Extends(blocks: seq<Block>, p: seq<Block>) {
    && |blocks| <= |p|
    && (forall i | 0 <= i < |blocks| ::
          blocks[i].instrs <= p[i].instrs && (!blocks[i].term.Open? ==> p[i] == blocks[i]))
  }

  lemma GrewExtends(a: CodegenState, b: CodegenState, p: seq<Block>)
    requires Grew(a, b) && Extends(b.blocks, p)
    ensures Extends(a.blocks, p)
  {
  }

  lemma TerminateExtends(cg: CodegenState, t: Term, next: nat, p: seq<Block>)
    requires Usable(cg) && !t.Open? && Extends(Terminate(cg, t, next).blocks, p)
    ensures Extends(cg.blocks, p)
    ensures p[cg.cur].instrs == cg.blocks[cg.cur].instrs && p[cg.cur].term == t
  {
    var b := Terminate(cg, t, next).blocks;
    assert p[cg.cur] == b[cg.cur];
    forall i | 0 <= i < |cg.blocks|
      ensures cg.blocks[i].instrs <= p[i].instrs && (!cg.blocks[i].term.Open? ==> p[i] == cg.blocks[i])
    {
      if i != cg.cur { assert b[i] == cg.blocks[i]; }
    }
  }
}

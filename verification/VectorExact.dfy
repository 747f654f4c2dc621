/** The condition of the lane theorem is exact.  Vector code steps every stateful call it contains; scalar code
    steps one in a branch only when the branch is taken.  So a branch with a call that is not cached already
    makes the two differ, for any operators at all, once all conditions go the other way. */
module VectorExact {
  import opened Options
  import opened Ast
  import opened Evaluation
  import opened Sharing
  import opened NodeIds
  import opened Ir
  import opened CodegenCorrect
  import opened Program
  import opened Streams
  import opened StepCounts
  import opened Vector
  import opened VectorCorrect
  import opened VectorProgram
  import opened AllocSteady
  import opened SteadyExact

  /** The slots stepped, besides `taken`, when every condition is `b`. */
  function TakenAfter(b: bool, e: Expr, avail: set<int>, taken: set<int>): (r: set<int>)
    ensures taken <= r
    decreases e, 1
  {
    match e
    case Unary(_, x) => TakenAfter(b, x, avail, taken)
    case Binary(_, l, r) => TakenAfter(b, r, AvailAfter(l, avail), TakenAfter(b, l, avail, taken))
    case Cond(c, t, f) =>
      TakenAfter(b, if b then t else f, AvailAfter(c, avail), TakenAfter(b, c, avail, taken))
    case Call(n, args, id) =>
      if !IsStatefulOp(n) then TakenAfterArgs(b, args, avail, taken)
      else if id in avail then taken
      else TakenAfterArgs(b, args, avail, taken) + {id}
    case _ => taken
  }

  function TakenAfterArgs(b: bool, args: seq<Expr>, avail: set<int>, taken: set<int>): (r: set<int>)
    ensures taken <= r
    decreases args, 0
  {
    if args == [] then taken
    else TakenAfterArgs(b, args[1..], AvailAfter(args[0], avail), TakenAfter(b, args[0], avail, taken))
  }

  /** Steps come from ids the walk has not met. */
  ghost predicate OnlyNew(taken: set<int>, taken': set<int>, seen: set<int>, seen': set<int>) {
    forall i <- taken' :: i in taken || (i in seen' && i !in seen)
  }

  lemma {:induction false} TakenNew(b: bool, e: Expr, avail: set<int>, seen: set<int>, taken: set<int>)
    requires SoundlyShared(e, avail, seen)
    ensures OnlyNew(taken, TakenAfter(b, e, avail, taken), seen, SeenAfter(e, avail, seen))
    decreases e, 1
  {
    hide KindOf;
    match e
    case Unary(_, x) => TakenNew(b, x, avail, seen, taken);
    case Binary(_, l, r) =>
      TakenNew(b, l, avail, seen, taken);
      TakenNew(b, r, AvailAfter(l, avail), SeenAfter(l, avail, seen), TakenAfter(b, l, avail, taken));
    case Cond(c, t, f) =>
      var a, s, k := AvailAfter(c, avail), SeenAfter(c, avail, seen), TakenAfter(b, c, avail, taken);
      TakenNew(b, c, avail, seen, taken);
      if b { TakenNew(b, t, a, s, k); } else { TakenNew(b, f, a, SeenAfter(t, a, s), k); }
    case Call(n, args, id) =>
      if !IsStatefulOp(n) || id !in avail { TakenNewArgs(b, args, avail, seen, taken); }
    case _ => {}
  }

  lemma {:induction false} TakenNewArgs(b: bool, args: seq<Expr>, avail: set<int>, seen: set<int>, taken: set<int>)
    requires SoundlySharedArgs(args, avail, seen)
    ensures OnlyNew(taken, TakenAfterArgs(b, args, avail, taken), seen, SeenAfterArgs(args, avail, seen))
    decreases args, 0
  {
    if args != [] {
      TakenNew(b, args[0], avail, seen, taken);
      TakenNewArgs(b, args[1..], AvailAfter(args[0], avail), SeenAfter(args[0], avail, seen),
                   TakenAfter(b, args[0], avail, taken));
    }
  }

  /** Id `u` is met by the walk and not stepped when all conditions are `b`. */
  ghost predicate Skips(b: bool, u: int, e: Expr, avail: set<int>, seen: set<int>) {
    && u in SeenAfter(e, avail, seen) && u !in seen
    && forall taken: set<int> :: u !in taken ==> u !in TakenAfter(b, e, avail, taken)
  }

  ghost predicate SkipsArgs(b: bool, u: int, args: seq<Expr>, avail: set<int>, seen: set<int>) {
    && u in SeenAfterArgs(args, avail, seen) && u !in seen
    && forall taken: set<int> :: u !in taken ==> u !in TakenAfterArgs(b, args, avail, taken)
  }

  /** A branch that does more than look up contains a new id. */
  lemma {:induction false} BranchSteps(e: Expr, avail: set<int>, seen: set<int>) returns (u: int)
    requires SoundlyShared(e, avail, seen) && !Hits(e, avail)
    ensures u in SeenAfter(e, avail, seen) && u !in seen
    decreases e, 1
  {
    hide KindOf;
    match e
    case Unary(_, x) => u := BranchSteps(x, avail, seen);
    case Binary(_, l, r) =>
      if !Hits(l, avail) { u := BranchSteps(l, avail, seen); }
        else { HitsShape(l, avail, seen); u := BranchSteps(r, avail, seen); }
    case Cond(c, t, f) =>
      if !Hits(c, avail) {
        u := BranchSteps(c, avail, seen);
      } else {
        HitsShape(c, avail, seen);
        if !Hits(t, avail) { u := BranchSteps(t, avail, seen); }
          else { HitsShape(t, avail, seen); u := BranchSteps(f, avail, seen); }
      }
    case Call(n, args, id) =>
      if IsStatefulOp(n) { u := id; } else { u := BranchStepsArgs(args, avail, seen); }
  }

  lemma {:induction false} BranchStepsArgs(args: seq<Expr>, avail: set<int>, seen: set<int>) returns (u: int)
    requires SoundlySharedArgs(args, avail, seen) && !HitsArgs(args, avail)
    ensures u in SeenAfterArgs(args, avail, seen) && u !in seen
    decreases args, 0
  {
    if !Hits(args[0], avail) {
      u := BranchSteps(args[0], avail, seen);
    } else {
      HitsShape(args[0], avail, seen);
      u := BranchStepsArgs(args[1..], avail, seen);
    }
  }

  /** Every expression that is not steady skips some id, for one of the two outcomes of its conditions. */
  lemma {:induction false} UnsteadySkips(e: Expr, avail: set<int>, seen: set<int>) returns (b: bool, u: int)
    requires SoundlyShared(e, avail, seen) && !Steady(e, avail)
    ensures Skips(b, u, e, avail, seen)
    decreases e, 1
  {
    hide KindOf, OnlyNew;
    match e
    case Unary(_, x) =>
      b, u := UnsteadySkips(x, avail, seen);
      assert forall taken: set<int> :: TakenAfter(b, e, avail, taken) == TakenAfter(b, x, avail, taken);
    case Binary(_, l, r) =>
      if !Steady(l, avail) {
        b, u := UnsteadySkips(l, avail, seen);
      } else {
        b, u := UnsteadySkips(r, AvailAfter(l, avail), SeenAfter(l, avail, seen));
      }
      SkipsBinary(b, u, e, avail, seen);
    case Cond(c, t, f) =>
      var a, s := AvailAfter(c, avail), SeenAfter(c, avail, seen);
      if !Steady(c, avail) {
        b, u := UnsteadySkips(c, avail, seen);
      } else if !Hits(t, a) {
        b := false;
        u := BranchSteps(t, a, s);
      } else {
        b := true;
        u := BranchSteps(f, a, SeenAfter(t, a, s));
      }
      SkipsCond(b, u, e, avail, seen);
    case Call(n, args, id) =>
      b, u := UnsteadySkipsArgs(args, avail, seen);
      SkipsCall(b, u, e, avail, seen);
  }

  lemma SkipsCall(b: bool, u: int, e: Expr, avail: set<int>, seen: set<int>)
    requires e.Call? && SoundlyShared(e, avail, seen) && SkipsArgs(b, u, e.args, avail, seen)
    requires IsStatefulOp(e.name) ==> e.nodeId !in avail
    ensures Skips(b, u, e, avail, seen)
  {
    hide KindOf;
    forall taken: set<int> | u !in taken ensures u !in TakenAfter(b, e, avail, taken) {
      assert u !in TakenAfterArgs(b, e.args, avail, taken);
    }
  }

  lemma SkipsBinary(b: bool, u: int, e: Expr, avail: set<int>, seen: set<int>)
    requires e.Binary? && SoundlyShared(e, avail, seen)
    requires Skips(b, u, e.left, avail, seen) ||
             Skips(b, u, e.right, AvailAfter(e.left, avail), SeenAfter(e.left, avail, seen))
    ensures Skips(b, u, e, avail, seen)
  {
    var l, r, a, s := e.left, e.right, AvailAfter(e.left, avail), SeenAfter(e.left, avail, seen);
    forall taken: set<int> | u !in taken ensures u !in TakenAfter(b, e, avail, taken) {
      var k := TakenAfter(b, l, avail, taken);
      TakenNew(b, l, avail, seen, taken);
      TakenNew(b, r, a, s, k);
      assert TakenAfter(b, e, avail, taken) == TakenAfter(b, r, a, k);
      assert u !in k;
    }
  }

  lemma SkipsCond(b: bool, u: int, e: Expr, avail: set<int>, seen: set<int>)
    requires e.Cond? && SoundlyShared(e, avail, seen)
    requires var a, s := AvailAfter(e.cond, avail), SeenAfter(e.cond, avail, seen);
      var s2 := SeenAfter(e.thn, a, s);
      || Skips(b, u, e.cond, avail, seen)
      || (!b && u in s2 && u !in s)
      || (b && u in SeenAfter(e.els, a, s2) && u !in s2)
    ensures Skips(b, u, e, avail, seen)
  {
    var a, s := AvailAfter(e.cond, avail), SeenAfter(e.cond, avail, seen);
    var s2 := SeenAfter(e.thn, a, s);
    forall taken: set<int> | u !in taken ensures u !in TakenAfter(b, e, avail, taken) {
      var k := TakenAfter(b, e.cond, avail, taken);
      TakenNew(b, e.cond, avail, seen, taken);
      assert u !in k;
      if b { TakenNew(b, e.thn, a, s, k); } else { TakenNew(b, e.els, a, s2, k); }
      assert TakenAfter(b, e, avail, taken) == TakenAfter(b, if b then e.thn else e.els, a, k);
    }
  }

  lemma {:induction false} UnsteadySkipsArgs(args: seq<Expr>, avail: set<int>, seen: set<int>) returns (b: bool, u: int)
    requires SoundlySharedArgs(args, avail, seen) && !SteadyArgs(args, avail)
    ensures SkipsArgs(b, u, args, avail, seen)
    decreases args, 0
  {
    var e, a, s := args[0], AvailAfter(args[0], avail), SeenAfter(args[0], avail, seen);
    if !Steady(e, avail) { b, u := UnsteadySkips(e, avail, seen); } else { b, u := UnsteadySkipsArgs(args[1..], a, s); }
    forall taken: set<int> | u !in taken ensures u !in TakenAfterArgs(b, args, avail, taken) {
      var k := TakenAfter(b, e, avail, taken);
      TakenNew(b, e, avail, seen, taken);
      TakenNewArgs(b, args[1..], a, s, k);
      assert u !in k;
    }
  }

  // ---- Scalar runs ----

  ghost predicate Decides<M, V(!new), S>(env: Env<M, V, S>, b: bool) {
    forall v: V :: env.ops.isTrue(v) == b
  }

  lemma Condition<M, V(!new), S>(env: Env<M, V, S>, b: bool, v: V)
    requires Decides(env, b)
    ensures env.ops.isTrue(v) == b
  {
  }

  lemma {:induction false} EvalTakes<M, V(!new), S>(env: Env<M, V, S>, b: bool, e: Expr, st: EvalState<V, S>,
                                                    avail: set<int>, seen: set<int>, taken: set<int>)
    requires Runnable(e) && LeftToRight(env) && SoundlyShared(e, avail, seen) && avail <= st.cache.Keys <= seen
    requires Decides(env, b) && st.slots.Keys <= taken
    ensures Eval(env, e, st).1.slots.Keys <= TakenAfter(b, e, avail, taken)
    decreases e, 1
  {
    hide KindOf, Stepped;
    match e
    case Num(_) => {}
    case Param(_, _) => {}
    case Unary(_, x) => EvalTakes(env, b, x, st, avail, seen, taken);
    case Binary(_, l, r) =>
      EvalTakes(env, b, l, st, avail, seen, taken);
      EvalSteps(env, l, st, avail, seen);
      EvalTakes(env, b, r, Eval(env, l, st).1, AvailAfter(l, avail), SeenAfter(l, avail, seen),
                TakenAfter(b, l, avail, taken));
    case Cond(c, t, f) =>
      EvalTakes(env, b, c, st, avail, seen, taken);
      EvalSteps(env, c, st, avail, seen);
      var st1, a, s, k := Eval(env, c, st).1, AvailAfter(c, avail), SeenAfter(c, avail, seen),
        TakenAfter(b, c, avail, taken);
      Condition(env, b, Eval(env, c, st).0);
      if b { EvalTakes(env, b, t, st1, a, s, k); } else { EvalTakes(env, b, f, st1, a, SeenAfter(t, a, s), k); }
      assert TakenAfter(b, e, avail, taken) == TakenAfter(b, if b then t else f, a, k);
    case Call(n, args, id) =>
      if IsStatefulOp(n) {
        EvalTakesStateful(env, b, e, st, avail, seen, taken);
      } else {
        SingleArgShared(args, avail, seen);
        assert TakenAfterArgs(b, args, avail, taken) ==
               TakenAfter(b, args[0], avail, taken) by { assert args[1..] == []; }
        if IsMathFn(n) { SingleArg(args); EvalTakes(env, b, args[0], st, avail, seen, taken); }
      }
  }

  lemma {:induction false} EvalTakesStateful<M, V(!new), S>(env: Env<M, V, S>, b: bool, e: Expr, st: EvalState<V, S>,
                                                            avail: set<int>, seen: set<int>, taken: set<int>)
    requires e.Call? && IsStatefulOp(e.name)
    requires Runnable(e) && LeftToRight(env) && SoundlyShared(e, avail, seen) && avail <= st.cache.Keys <= seen
    requires Decides(env, b) && st.slots.Keys <= taken
    ensures Eval(env, e, st).1.slots.Keys <= TakenAfter(b, e, avail, taken)
    decreases e, 0
  {
    assert !IsMarketFn(e.name) && !IsMathFn(e.name);
    hide KindOf, EvalArgs, StepAt;
    if e.nodeId !in avail {
      var args := SourceArgs(e.name, e.args);
      SourceArgsShared(e, avail, seen);
      SourceArgsTaken(b, e, avail, taken);
      InputsInOrder(env, e);
      EvalTakesArgs(env, b, args, st, avail, seen, taken);
    }
  }

  lemma SourceArgsTaken(b: bool, e: Expr, avail: set<int>, taken: set<int>)
    requires Runnable(e) && e.Call?
    ensures TakenAfterArgs(b, SourceArgs(e.name, e.args), avail, taken) == TakenAfterArgs(b, e.args, avail, taken)
  {
    hide KindOf;
    if IsTickerFn(e.name) && |e.args| > 0 {
      assert AvailAfter(e.args[0], avail) == avail && TakenAfter(b, e.args[0], avail, taken) == taken;
    }
  }

  lemma {:induction false} EvalTakesArgs<M, V(!new), S>(env: Env<M, V, S>, b: bool, args: seq<Expr>,
                                                        st: EvalState<V, S>, avail: set<int>, seen: set<int>,
                                                        taken: set<int>)
    requires RunnableArgs(args) && LeftToRight(env) && SoundlySharedArgs(args, avail, seen) &&
             avail <= st.cache.Keys <= seen
    requires Decides(env, b) && st.slots.Keys <= taken
    ensures EvalArgs(env, args, st).1.slots.Keys <= TakenAfterArgs(b, args, avail, taken)
    decreases args, 0
  {
    hide KindOf, Stepped;
    if args != [] {
      EvalTakes(env, b, args[0], st, avail, seen, taken);
      EvalSteps(env, args[0], st, avail, seen);
      EvalTakesArgs(env, b, args[1..], Eval(env, args[0], st).1, AvailAfter(args[0], avail),
                    SeenAfter(args[0], avail, seen),
                    TakenAfter(b, args[0], avail, taken));
    }
  }

  // ---- Vector runs ----

  function CodeIds(code: seq<(nat, VInstr)>): set<int> {
    if code == [] then {}
    else (if code[0].1.VStep? && code[0].1.call.Call? then {code[0].1.call.nodeId} else {}) + CodeIds(code[1..])
  }

  lemma {:induction false} CodeIdsAppend(a: seq<(nat, VInstr)>, b: seq<(nat, VInstr)>)
    ensures CodeIds(a + b) == CodeIds(a) + CodeIds(b)
    decreases |a|
  {
    if a == [] {
      assert a + b == b;
    } else {
      assert (a + b)[1..] == a[1..] + b;
      CodeIdsAppend(a[1..], b);
    }
  }

  /** Code that runs has stepped, in every lane, each slot it names. */
  lemma {:induction false} RunSteps<M, V(!new), S(!new)>(ve: VEnv<M, V, S>, code: seq<(nat, VInstr)>, c: VConfig<V, S>,
                                                         k: nat)
    requires k < |ve.markets| && ve.base + |ve.markets| <= |c.arena| && VRun(ve, code, c).Some?
    ensures var c' := VRun(ve, code, c).value;
      |c'.arena| == |c.arena| && c.arena[ve.base + k].Keys + CodeIds(code) <= c'.arena[ve.base + k].Keys
    decreases |code|
  {
    if code != [] {
      OneSteps(ve, code[0].0, code[0].1, c, k);
      hide VExec;
      RunSteps(ve, code[1..], VExec(ve, c, code[0].0, code[0].1).value, k);
    }
  }

  lemma OneSteps<M, V(!new), S(!new)>(ve: VEnv<M, V, S>, r: nat, i: VInstr, c: VConfig<V, S>, k: nat)
    requires k < |ve.markets| && ve.base + |ve.markets| <= |c.arena| && VExec(ve, c, r, i).Some?
    ensures var c' := VExec(ve, c, r, i).value;
      && |c'.arena| == |c.arena|
      && c.arena[ve.base + k].Keys + CodeIds([(r, i)]) <= c'.arena[ve.base + k].Keys
  {
    assert [(r, i)][1..] == [];
    if i.VStep? { FanOutLane(ve, c.regs, i.call, i.inputs, 0, c.arena, k); }
    hide LaneResult, StoreLanes, StepAt, FanOut;
  }

  /** The ids a walk meets for the first time are stepped by the code emitted. */
  ghost predicate EmitsMet(em: Emitted, avail': set<int>, seen: set<int>, seen': set<int>) {
    avail' <= em.g.cache.Keys <= seen' && seen' <= seen + CodeIds(em.code)
  }

  lemma {:induction false} EmitMeets(e: Expr, g: VGen, avail: set<int>, seen: set<int>)
    requires Runnable(e) && SoundlyShared(e, avail, seen) && avail <= g.cache.Keys <= seen
    ensures EmitsMet(VEmit(e, g), AvailAfter(e, avail), seen, SeenAfter(e, avail, seen))
    decreases e, 1
  {
    hide KindOf, CodeIds;
    match e
    case Num(_) => {}
    case Param(_, id) => MeetsThen(Emitted(ConstV(0), [], g), VParam(id), avail, seen, seen);
    case Unary(op, x) =>
      EmitMeets(x, g, avail, seen);
      var a := VEmit(x, g);
      MeetsThen(a, VNeg(a.v), AvailAfter(x, avail), seen, SeenAfter(x, avail, seen));
    case Binary(op, l, r) =>
      var a1, s1 := AvailAfter(l, avail), SeenAfter(l, avail, seen);
      EmitMeets(l, g, avail, seen);
      var a := VEmit(l, g);
      EmitMeets(r, a.g, a1, s1);
      var b := VEmit(r, a.g);
      CodeIdsAppend(a.code, b.code);
      MeetsThen(Emitted(b.v, a.code + b.code, b.g), VBin(op, a.v, b.v), AvailAfter(r, a1), seen, SeenAfter(r, a1, s1));
    case Cond(_, _, _) => EmitMeetsCond(e, g, avail, seen);
    case Call(_, _, _) => EmitMeetsCall(e, g, avail, seen);
  }

  lemma {:induction false} EmitMeetsCond(e: Expr, g: VGen, avail: set<int>, seen: set<int>)
    requires e.Cond? && Runnable(e) && SoundlyShared(e, avail, seen) && avail <= g.cache.Keys <= seen
    ensures EmitsMet(VEmit(e, g), AvailAfter(e, avail), seen, SeenAfter(e, avail, seen))
    decreases e, 0
  {
    hide KindOf, CodeIds;
    var a1, s1 := AvailAfter(e.cond, avail), SeenAfter(e.cond, avail, seen);
    var s2 := SeenAfter(e.thn, a1, s1);
    EmitMeets(e.cond, g, avail, seen);
    var a := VEmit(e.cond, g);
    EmitMeets(e.thn, a.g, a1, s1);
    var b := VEmit(e.thn, a.g);
    assert a1 <= AvailAfter(e.thn, a1);
    EmitMeets(e.els, b.g, a1, s2);
    var d := VEmit(e.els, b.g);
    CodeIdsAppend(a.code, b.code);
    CodeIdsAppend(a.code + b.code, d.code);
    assert a1 <= AvailAfter(e.els, a1);
    MeetsThen(Emitted(d.v, a.code + b.code + d.code, d.g), VSelect(a.v, b.v, d.v), a1, seen, SeenAfter(e.els, a1, s2));
  }

  lemma MeetsThen(em: Emitted, i: VInstr, avail': set<int>, seen: set<int>, seen': set<int>)
    requires EmitsMet(em, avail', seen, seen') || (em.code == [] && avail' <= em.g.cache.Keys <= seen' && seen' <= seen)
    ensures EmitsMet(Then(em, i), avail', seen, seen')
  {
    CodeIdsAppend(em.code, [(em.g.nextReg, i)]);
  }

  lemma {:induction false} EmitMeetsCall(e: Expr, g: VGen, avail: set<int>, seen: set<int>)
    requires e.Call? && Runnable(e) && SoundlyShared(e, avail, seen) && avail <= g.cache.Keys <= seen
    ensures EmitsMet(VEmit(e, g), AvailAfter(e, avail), seen, SeenAfter(e, avail, seen))
    decreases e, 0
  {
    var n, id := e.name, e.nodeId;
    assert IsStatefulOp(n) ==> !IsMarketFn(n) && !IsMathFn(n);
    hide KindOf, CodeIds;
    if !IsStatefulOp(n) {
      SingleArgShared(e.args, avail, seen);
      if IsMathFn(n) {
        SingleArg(e.args);
        EmitMeets(e.args[0], g, avail, seen);
        var a := VEmit(e.args[0], g);
        MeetsThen(a, VMath(n, a.v), AvailAfter(e.args[0], avail), seen, SeenAfter(e.args[0], avail, seen));
      } else {
        assert AvailAfter(e.args[0], avail) == avail && SeenAfter(e.args[0], avail, seen) == seen;
        MeetsThen(Emitted(ConstV(0), [], g), VMarket(n, e.args), avail, seen, seen);
      }
    } else if id !in avail {
      var args := SourceArgs(n, e.args);
      SourceArgsShared(e, avail, seen);
      EmitMeetsArgs(args, g, avail, seen);
      var (vs, code, g1) := VEmitArgs(args, g);
      CodeIdsAppend(code, [(g1.nextReg, VStep(e, vs))]);
      StepIds(g1.nextReg, e, vs);
    }
  }

  lemma StepIds(r: nat, e: Expr, vs: seq<Value>)
    requires e.Call?
    ensures CodeIds([(r, VStep(e, vs))]) == {e.nodeId}
  {
    assert [(r, VStep(e, vs))][1..] == [];
  }

  lemma {:induction false} EmitMeetsArgs(args: seq<Expr>, g: VGen, avail: set<int>, seen: set<int>)
    requires RunnableArgs(args) && SoundlySharedArgs(args, avail, seen) && avail <= g.cache.Keys <= seen
    ensures var (vs, code, g') := VEmitArgs(args, g);
      EmitsMet(Emitted(ConstV(0), code, g'), AvailAfterArgs(args, avail), seen, SeenAfterArgs(args, avail, seen))
    decreases args, 0
  {
    hide KindOf, CodeIds;
    if args != [] {
      EmitMeets(args[0], g, avail, seen);
      var a := VEmit(args[0], g);
      EmitMeetsArgs(args[1..], a.g, AvailAfter(args[0], avail), SeenAfter(args[0], avail, seen));
      CodeIdsAppend(a.code, VEmitArgs(args[1..], a.g).1);
    }
  }

  // ---- Programs ----

  function SeenProgram(bodies: seq<Expr>, seen: set<int>): (r: set<int>)
    ensures seen <= r
  {
    if bodies == [] then seen else SeenProgram(bodies[1..], SeenAfter(bodies[0], {}, seen))
  }

  function TakenProgram(b: bool, bodies: seq<Expr>, taken: set<int>): (r: set<int>)
    ensures taken <= r
  {
    if bodies == [] then taken else TakenProgram(b, bodies[1..], TakenAfter(b, bodies[0], {}, taken))
  }

  lemma {:induction false} ProgramTakesNew(b: bool, bodies: seq<Expr>, seen: set<int>, taken: set<int>)
    requires ProgramShared(bodies, seen)
    ensures OnlyNew(taken, TakenProgram(b, bodies, taken), seen, SeenProgram(bodies, seen))
    decreases bodies
  {
    if bodies != [] {
      TakenNew(b, bodies[0], {}, seen, taken);
      ProgramTakesNew(b, bodies[1..], SeenAfter(bodies[0], {}, seen), TakenAfter(b, bodies[0], {}, taken));
    }
  }

  lemma {:induction false} ProgramSkips(bodies: seq<Expr>, seen: set<int>) returns (b: bool, u: int)
    requires ProgramShared(bodies, seen) && !SteadyAll(bodies)
    ensures u in SeenProgram(bodies, seen) && u !in seen
    ensures forall taken: set<int> :: u !in taken ==> u !in TakenProgram(b, bodies, taken)
    decreases bodies
  {
    var e, s := bodies[0], SeenAfter(bodies[0], {}, seen);
    if !Steady(e, {}) { b, u := UnsteadySkips(e, {}, seen); } else { b, u := ProgramSkips(bodies[1..], s); }
    forall taken: set<int> | u !in taken ensures u !in TakenProgram(b, bodies, taken) {
      var k := TakenAfter(b, e, {}, taken);
      TakenNew(b, e, {}, seen, taken);
      ProgramTakesNew(b, bodies[1..], s, k);
      assert u !in k;
    }
  }

  lemma {:induction false} ProgramTakes<M, V(!new), S>(env: Env<M, V, S>, b: bool, bodies: seq<Expr>,
                                                       slots: map<int, S>, log: multiset<int>, seen: set<int>,
                                                       taken: set<int>)
    requires RunnableArgs(bodies) && LeftToRight(env) && ProgramShared(bodies, seen)
    requires Decides(env, b) && slots.Keys <= taken
    ensures EvalProgram(env, bodies, slots, log).1.Keys <= TakenProgram(b, bodies, taken)
    decreases bodies
  {
    hide KindOf, Eval;
    if bodies != [] {
      var st: EvalState<V, S> := EvalState(slots, map[], log);
      assert st.cache.Keys == {};
      EvalTakes(env, b, bodies[0], st, {}, seen, taken);
      var st1 := Eval(env, bodies[0], st).1;
      ProgramTakes(env, b, bodies[1..], st1.slots, st1.log, SeenAfter(bodies[0], {}, seen),
                   TakenAfter(b, bodies[0], {}, taken));
    }
  }

  lemma {:induction false} ProgramEmits(bodies: seq<Expr>, index: nat, g: VGen, seen: set<int>)
    requires RunnableArgs(bodies) && ProgramShared(bodies, seen) && g.cache.Keys <= seen
    ensures SeenProgram(bodies, seen) <= seen + CodeIds(VEmitSignals(bodies, index, g))
    decreases bodies
  {
    hide KindOf, CodeIds, VEmit;
    if bodies != [] {
      EmitMeets(bodies[0], g, {}, seen);
      var a := VEmit(bodies[0], g);
      var g1, store := a.g.(nextReg := a.g.nextReg + 1), [(a.g.nextReg, VStore(index, a.v))];
      ProgramEmits(bodies[1..], index + 1, g1, SeenAfter(bodies[0], {}, seen));
      CodeIdsAppend(a.code, store);
      CodeIdsAppend(a.code + store, VEmitSignals(bodies[1..], index + 1, g1));
    }
  }

  /** Lane `k` of the vector program, started in `arena`, does what scalar code does. */
  ghost predicate LaneAgrees<M, V(!new), S(!new)>(ve: VEnv<M, V, S>, bodies: seq<Expr>, arena: seq<map<int, S>>, k: nat)
    requires RunnableArgs(bodies) && k < |ve.markets| && ve.base + |ve.markets| <= |arena|
  {
    var run := VRun(ve, VEmitSignals(bodies, 0, VGen(0, map[])), VConfig(map[], arena, map[]));
    var (vs, slots, _) := EvalProgram(EnvOf(ve, k), bodies, arena[ve.base + k], multiset{});
    && run.Some? && |run.value.arena| == |arena| && run.value.arena[ve.base + k] == slots
    && forall i | 0 <= i < |bodies| :: OutAt(run.value.outs, |ve.markets|, k, i, vs[i])
  }

  /** The same operators, with every condition decided. */
  function Decided<M, V, S>(ve: VEnv<M, V, S>, b: bool): VEnv<M, V, S> {
    ve.(ops := ve.ops.(isTrue := v => b))
  }

  lemma SteadyAgrees<M, V(!new), S(!new)>(ve: VEnv<M, V, S>, bodies: seq<Expr>, arena: seq<map<int, S>>, k: nat)
    requires RunnableArgs(bodies) && ProgramShared(bodies, {}) && SteadyAll(bodies)
    requires k < |ve.markets| && ve.base + |ve.markets| <= |arena|
    ensures LaneAgrees(ve, bodies, arena, k)
  {
    hide KindOf, EvalProgram, VEmitSignals, VRun;
    var c0: VConfig<V, S> := VConfig(map[], arena, map[]);
    var c := VSignalsSim(ve, k, bodies, 0, VGen(0, map[]), c0, arena[ve.base + k], multiset{}, {});
    var vs := EvalProgram(EnvOf(ve, k), bodies, arena[ve.base + k], multiset{}).0;
    forall i | 0 <= i < |bodies| ensures OutAt(c.outs, |ve.markets|, k, i, vs[i]) {
      assert OutAt(c.outs, |ve.markets|, k, 0 + i, vs[i]);
    }
  }

  lemma UnsteadyDisagrees<M, V(!new), S(!new)>(ve: VEnv<M, V, S>, bodies: seq<Expr>, arena: seq<map<int, S>>, k: nat)
      returns (b: bool)
    requires RunnableArgs(bodies) && ProgramShared(bodies, {}) && !SteadyAll(bodies)
    requires k < |ve.markets| && ve.base + |ve.markets| <= |arena| && arena[ve.base + k] == map[]
    ensures !LaneAgrees(Decided(ve, b), bodies, arena, k)
  {
    hide KindOf, EvalProgram, VEmitSignals, VRun, CodeIds;
    var u;
    b, u := ProgramSkips(bodies, {});
    var decided, code := Decided(ve, b), VEmitSignals(bodies, 0, VGen(0, map[]));
    var c0: VConfig<V, S> := VConfig(map[], arena, map[]);
    ProgramTakes(EnvOf(decided, k), b, bodies, map[], multiset{}, {}, {});
    assert u !in TakenProgram(b, bodies, {});
    ProgramEmits(bodies, 0, VGen(0, map[]), {});
    if VRun(decided, code, c0).Some? { RunSteps(decided, code, c0, k); }
  }

  /** Which programs may be vectorised: for any operators and markets, each lane agrees with scalar code from
      a fresh context whatever the conditions come to, if and only if every stateful call met in a branch equals an
      unconditional call that comes before it. */
  lemma VectorisesIff<M, V(!new), S(!new)>(ve: VEnv<M, V, S>, bodies: seq<Expr>, arena: seq<map<int, S>>, k: nat)
    requires WellFormedArgs(bodies)
    requires k < |ve.markets| && ve.base + |ve.markets| <= |arena| && arena[ve.base + k] == map[]
    ensures RunnableArgs(AllocateProgram(bodies, 1).0)
    ensures var withIds := AllocateProgram(bodies, 1).0;
      && (AllSettled(bodies) <==> SteadyAll(withIds))
      && (AllSettled(bodies) <==> forall b :: LaneAgrees(Decided(ve, b), withIds, arena, k))
  {
    hide KindOf, AllocateProgram, LaneAgrees, AllSettled;
    AllocateProgramSound(bodies, 1, {});
    SteadyIffSettled(bodies, 1);
    var withIds := AllocateProgram(bodies, 1).0;
    if SteadyAll(withIds) {
      forall b ensures LaneAgrees(Decided(ve, b), withIds, arena, k) {
        SteadyAgrees(Decided(ve, b), withIds, arena, k);
      }
    } else {
      var b := UnsteadyDisagrees(ve, withIds, arena, k);
    }
  }

  lemma NumbersWellFormed(q: Bits64, n: Bits64)
    ensures WellFormedArgs([Num(q), Num(n)])
  {
    var one, two := [Num(n)], [Num(q), Num(n)];
    assert one[1..] == [] && one[0] == Num(n) && two[1..] == one && two[0] == Num(q);
    assert WellFormed(one[0]) && WellFormed(two[0]);
    assert WellFormedArgs(one);
  }

  lemma WalkNumbers(q: Bits64, n: Bits64, st: AllocState)
    requires Calls(st)
    ensures WalkArgs([Num(q), Num(n)], false, st) == ([Num(q), Num(n)], st)
  {
    var one, two := [Num(n)], [Num(q), Num(n)];
    assert one[1..] == [] && one[0] == Num(n) && two[1..] == one && two[0] == Num(q);
    assert WalkArgs([], false, st) == ([], st);
    assert Walk(one[0], false, st) == (one[0], st) && Walk(two[0], false, st) == (two[0], st);
    assert [one[0]] + [] == one && [two[0]] + one == two;
    assert WalkArgs(one, false, st) == (one, st);
  }

  /** The ids of `if p then sma(q, n) else p`. */
  lemma BranchIds(p: Bits64, q: Bits64, n: Bits64)
    ensures var bodies := [Cond(Num(p), Call("sma", [Num(q), Num(n)], NO_NODE), Num(p))];
      && WellFormedArgs(bodies)
      && AllocateProgram(bodies, 1).0 == [Cond(Num(p), Call("sma", [Num(q), Num(n)], 1), Num(p))]
      && !SteadyAll(AllocateProgram(bodies, 1).0)
  {
    assert KindOf("sma").Sma?;
    assert IsStatefulOp("sma") && HasPeriod("sma") && Arity("sma") == 2 && PeriodIndex("sma") == 1 &&
           !IsTickerFn("sma");
    hide KindOf, IsStatefulOp, HasPeriod, Arity, PeriodIndex, IsTickerFn;
    var args, call, none := [Num(q), Num(n)], Call("sma", [Num(q), Num(n)], NO_NODE), AllocState(1, []);
    NumbersWellFormed(q, n);
    assert SourceArgs("sma", args) == args;
    assert WellFormed(call);
    var e := Cond(Num(p), call, Num(p));
    assert [e][1..] == [] && WellFormed(e);
    var st1 := AllocState(2, [SeenStateful(call.(nodeId := 1), false)]);
    assert TryAliasNodeId([], call) == 0 && [] + [SeenStateful(call.(nodeId := 1), false)] == st1.seen;
    assert Assign(call, false, none) == (1, st1);
    WalkNumbers(q, n, st1);
    assert Walk(call, false, none) == (Call("sma", args, 1), st1);
    assert Walk(e, true, none) == (Cond(Num(p), Call("sma", args, 1), Num(p)), st1);
    assert AllocateProgram([], 2) == ([], 2);
  }

  /** The shortest program that may not be vectorised, `if p then sma(q, n) else p`: with any operators, for one way
      its condition can come out, no lane agrees with scalar code. */
  lemma BranchMayNotBeVectorised<M, V(!new), S(!new)>(ve: VEnv<M, V, S>, p: Bits64, q: Bits64, n: Bits64,
                                                      arena: seq<map<int, S>>, k: nat)
      returns (b: bool)
    requires k < |ve.markets| && ve.base + |ve.markets| <= |arena| && arena[ve.base + k] == map[]
    ensures var bodies := [Cond(Num(p), Call("sma", [Num(q), Num(n)], NO_NODE), Num(p))];
      && WellFormedArgs(bodies) && !AllSettled(bodies)
      && RunnableArgs(AllocateProgram(bodies, 1).0)
      && !LaneAgrees(Decided(ve, b), AllocateProgram(bodies, 1).0, arena, k)
  {
    hide KindOf, AllocateProgram, LaneAgrees, AllSettled, SteadyAll;
    var bodies := [Cond(Num(p), Call("sma", [Num(q), Num(n)], NO_NODE), Num(p))];
    BranchIds(p, q, n);
    SteadyIffSettled(bodies, 1);
    AllocateProgramSound(bodies, 1, {});
    b := UnsteadyDisagrees(ve, AllocateProgram(bodies, 1).0, arena, k);
  }
}

/** Which slots an evaluation from left to right steps: each once, none that may have been met before, and all
    that are surely cached afterwards. */
module StepCounts {
  import opened Ast
  import opened Evaluation
  import opened Sharing
  import opened CodegenCorrect

  /** From `st` to `st'` some slots were stepped: each once, none of them met before, each now cached. */
  ghost predicate Stepped<V, S>(st: EvalState<V, S>, st': EvalState<V, S>, seen: set<int>, seen': set<int>) {
    && st.cache.Keys <= st'.cache.Keys && seen <= seen'
    && (forall i: int :: st'.log[i] == st.log[i] + if i in st'.cache && i !in st.cache then 1 else 0)
    && (forall i <- st'.cache :: i in st.cache || (i !in seen && i in seen'))
  }

  lemma SteppedNone<V, S>(st: EvalState<V, S>, seen: set<int>)
    ensures Stepped(st, st, seen, seen)
  {
  }

  lemma SteppedTrans<V, S>(a: EvalState<V, S>, b: EvalState<V, S>, c: EvalState<V, S>, s0: set<int>, s1: set<int>,
                           s2: set<int>)
    requires Stepped(a, b, s0, s1) && Stepped(b, c, s1, s2)
    ensures Stepped(a, c, s0, s2)
  {
  }

  lemma SteppedWider<V, S>(a: EvalState<V, S>, b: EvalState<V, S>, s0: set<int>, s0': set<int>, s1: set<int>,
                           s1': set<int>)
    requires Stepped(a, b, s0, s1) && s0' <= s0 && s1 <= s1'
    ensures Stepped(a, b, s0', s1')
  {
  }

  /** What is known of the cache around an evaluation. */
  ghost predicate Counted<M, V, S>(env: Env<M, V, S>, e: Expr, st: EvalState<V, S>, avail: set<int>, seen: set<int>)
    requires Runnable(e)
  {
    var st' := Eval(env, e, st).1;
    && Stepped(st, st', seen, SeenAfter(e, avail, seen))
    && AvailAfter(e, avail) <= st'.cache.Keys <= SeenAfter(e, avail, seen)
  }

  lemma {:induction false} EvalSteps<M, V, S>(env: Env<M, V, S>, e: Expr, st: EvalState<V, S>, avail: set<int>,
                                              seen: set<int>)
    requires Runnable(e) && LeftToRight(env) && SoundlyShared(e, avail, seen)
    requires avail <= st.cache.Keys <= seen
    ensures Counted(env, e, st, avail, seen)
    decreases e, 1
  {
    hide KindOf, Stepped;
    match e
    case Num(_) => SteppedNone(st, seen);
    case Param(_, _) => SteppedNone(st, seen);
    case Unary(_, x) => EvalSteps(env, x, st, avail, seen);
    case Binary(_, l, r) =>
      EvalSteps(env, l, st, avail, seen);
      var st1 := Eval(env, l, st).1;
      var a1, s1 := AvailAfter(l, avail), SeenAfter(l, avail, seen);
      EvalSteps(env, r, st1, a1, s1);
      SteppedTrans(st, st1, Eval(env, r, st1).1, seen, s1, SeenAfter(r, a1, s1));
    case Cond(c, t, f) =>
      EvalSteps(env, c, st, avail, seen);
      var (cv, st1) := Eval(env, c, st);
      var a1, s1 := AvailAfter(c, avail), SeenAfter(c, avail, seen);
      var s2 := SeenAfter(t, a1, s1);
      var s3 := SeenAfter(f, a1, s2);
      if env.ops.isTrue(cv) {
        EvalSteps(env, t, st1, a1, s1);
        var st2 := Eval(env, t, st1).1;
        SteppedWider(st1, st2, s1, s1, s2, s3);
        SteppedTrans(st, st1, st2, seen, s1, s3);
      } else {
        EvalSteps(env, f, st1, a1, s2);
        var st2 := Eval(env, f, st1).1;
        SteppedWider(st1, st2, s2, s1, s3, s3);
        SteppedTrans(st, st1, st2, seen, s1, s3);
      }
    case Call(n, args, id) =>
      if IsStatefulOp(n) {
        EvalStepsStateful(env, e, st, avail, seen);
      } else if IsMathFn(n) {
        SingleArg(args);
        SingleArgShared(args, avail, seen);
        EvalSteps(env, args[0], st, avail, seen);
      } else {
        SteppedNone(st, seen);
        SingleArgShared(args, avail, seen);
        assert AvailAfter(args[0], avail) == avail && SeenAfter(args[0], avail, seen) == seen;
      }
  }

  lemma {:induction false} EvalStepsArgs<M, V, S>(env: Env<M, V, S>, args: seq<Expr>, st: EvalState<V, S>,
                                                  avail: set<int>, seen: set<int>)
    requires RunnableArgs(args) && LeftToRight(env) && SoundlySharedArgs(args, avail, seen)
    requires avail <= st.cache.Keys <= seen
    ensures var st' := EvalArgs(env, args, st).1;
      && Stepped(st, st', seen, SeenAfterArgs(args, avail, seen))
      && AvailAfterArgs(args, avail) <= st'.cache.Keys <= SeenAfterArgs(args, avail, seen)
    decreases args, 0
  {
    hide KindOf, Stepped;
    if args == [] {
      SteppedNone(st, seen);
    } else {
      EvalSteps(env, args[0], st, avail, seen);
      var st1 := Eval(env, args[0], st).1;
      var a1, s1 := AvailAfter(args[0], avail), SeenAfter(args[0], avail, seen);
      EvalStepsArgs(env, args[1..], st1, a1, s1);
      SteppedTrans(st, st1, EvalArgs(env, args[1..], st1).1, seen, s1, SeenAfterArgs(args[1..], a1, s1));
    }
  }

  lemma SteppedFire<M, V, S>(env: Env<M, V, S>, call: Expr, vs: seq<V>, st: EvalState<V, S>, seen: set<int>)
    requires call.Call? && call.nodeId !in seen && call.nodeId !in st.cache
    ensures Stepped(st, Fire(env, call, vs, st).1, seen, seen + {call.nodeId})
  {
  }

  lemma {:induction false} EvalStepsStateful<M, V, S>(env: Env<M, V, S>, e: Expr, st: EvalState<V, S>, avail: set<int>,
                                                      seen: set<int>)
    requires e.Call? && IsStatefulOp(e.name)
    requires Runnable(e) && LeftToRight(env) && SoundlyShared(e, avail, seen)
    requires avail <= st.cache.Keys <= seen
    ensures Counted(env, e, st, avail, seen)
    decreases e, 0
  {
    var n, id := e.name, e.nodeId;
    assert !IsMarketFn(n) && !IsMathFn(n);
    hide KindOf, Stepped;
    if id in avail {
      SteppedNone(st, seen);
    } else {
      var args := SourceArgs(n, e.args);
      SourceArgsShared(e, avail, seen);
      EvalStepsArgs(env, args, st, avail, seen);
      InputsInOrder(env, e);
      var (vs, st1) := EvalArgs(env, args, st);
      var inputs := MarketInput(env, n, e.args) + vs;
      var s1 := SeenAfterArgs(args, avail, seen);
      assert id !in st.cache;
      SteppedFire(env, e, inputs, st1, s1);
      SteppedTrans(st, st1, Fire(env, e, inputs, st1).1, seen, s1, s1 + {id});
    }
  }
}

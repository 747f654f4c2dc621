/** A program on which compiled code and the interpreter leave different contexts, whatever the operators: a
    stateful call shared between kalman1d's sample and its noise, with another one in a branch inside it.  And one
    with the same ids on which they never do, because that branch is dead: no condition on ids alone is exact. */
module NoiseWitness {
  import opened Ast
  import opened Evaluation
  import opened Ir
  import opened Codegen
  import opened CodegenCorrect
  import opened NodeIds
  import opened Program
  import opened NoiseExchange
  import opened NoiseOrder
  import opened Symbolic
  import opened OrderExact
  import opened InterpreterOrder

  function Inner(b: Bits64, id: int): Expr {
    Call("ema", [Num(b), Num(b)], id)
  }

  /** `ema(b, b)`, or behind a condition that contradicts the one around it. */
  function Branch(b: Bits64, inner: int, dead: bool): Expr {
    if dead then Cond(Num(b), Num(b), Inner(b, inner)) else Inner(b, inner)
  }

  function Choice(b: Bits64, inner: int, dead: bool): Expr {
    Cond(Num(b), Branch(b, inner, dead), Num(b))
  }

  /** `sma(if b then ema(b, b) else b, b)`, or `sma(if b then (if b then b else ema(b, b)) else b, b)` */
  function Smoothed(b: Bits64, id: int, inner: int, dead: bool): Expr {
    Call("sma", [Choice(b, inner, dead), Num(b)], id)
  }

  /** The same call as the sample of a kalman1d and as its first noise. */
  function Filter(b: Bits64, id: int, sma: int, inner1: int, inner2: int, dead: bool): Expr {
    Call("kalman1d", [Smoothed(b, sma, inner1, dead), Smoothed(b, sma, inner2, dead), Num(b)], id)
  }

  function Source(b: Bits64, dead: bool): Expr {
    Filter(b, NO_NODE, NO_NODE, NO_NODE, NO_NODE, dead)
  }

  lemma Names()
    ensures IsStatefulOp("ema") && IsStatefulOp("sma") && IsStatefulOp("kalman1d")
    ensures !KindOf("ema").Kalman1d? && !KindOf("sma").Kalman1d? && KindOf("kalman1d").Kalman1d?
    ensures forall n | n in {"ema", "sma", "kalman1d"} ::
      !IsTickerFn(n) && !IsMarketFn(n) && !IsMathFn(n) && !KindOf(n).Unknown?
    ensures Arity("ema") == 2 && Arity("sma") == 2 && Arity("kalman1d") == 3
    ensures PeriodIndex("ema") == 1 && PeriodIndex("sma") == 1 && !HasPeriod("kalman1d")
  {
    assert KindOf("ema").Ema? && KindOf("sma").Sma? && KindOf("kalman1d").Kalman1d?;
  }

  /** A call whose arguments are one tree and a literal. */
  lemma PairWellFormed(n: string, a: Expr, b: Bits64)
    requires n == "ema" || n == "sma"
    ensures WellFormed(Call(n, [a, Num(b)], NO_NODE)) <==> WellFormed(a)
    ensures forall id | id > 0 :: Runnable(Call(n, [a, Num(b)], id)) <==> Runnable(a)
  {
    Names();
    hide KindOf, IsStatefulOp, IsTickerFn, HasPeriod, Arity, PeriodIndex, IsMarketFn, IsMathFn;
    var args := [a, Num(b)];
    assert args[1..] == [Num(b)] && [Num(b)][1..] == [];
    assert WellFormed(Num(b)) && Runnable(Num(b)) && WellFormedArgs([]) && RunnableArgs([]);
    assert WellFormedArgs([Num(b)]) && RunnableArgs([Num(b)]);
    assert SourceArgs(n, args) == args;
  }

  lemma SourceWellFormed(b: Bits64, dead: bool)
    ensures WellFormedArgs([Source(b, dead)])
  {
    Names();
    PairWellFormed("ema", Num(b), b);
    PairWellFormed("sma", Choice(b, NO_NODE, dead), b);
    hide KindOf, IsStatefulOp, IsTickerFn, HasPeriod, Arity, PeriodIndex, IsMarketFn, IsMathFn;
    var s := Smoothed(b, NO_NODE, NO_NODE, dead);
    assert WellFormed(s);
    var args := [s, s, Num(b)];
    assert args[1..] == [s, Num(b)] && [s, Num(b)][1..] == [Num(b)] && [Num(b)][1..] == [];
    assert WellFormedArgs([Num(b)]) && WellFormedArgs([s, Num(b)]) && WellFormedArgs(args);
    assert SourceArgs("kalman1d", args) == args;
    assert WellFormed(Source(b, dead));
    assert [Source(b, dead)][1..] == [];
  }

  // ---- Its ids ----

  function Seen(e: Expr, unconditional: bool): SeenStateful {
    SeenStateful(e, unconditional)
  }

  lemma AliasStep(s: SeenStateful, rest: seq<SeenStateful>, c: Expr)
    requires s.node.Call? && c.Call? && forall r <- rest :: r.node.Call?
    ensures TryAliasNodeId([s] + rest, c)
         == if s.unconditional && AstEquals(s.node, c) then s.node.nodeId else TryAliasNodeId(rest, c)
  {
    assert ([s] + rest)[1..] == rest;
  }

  lemma WalkPair(n: string, a: Expr, b: Bits64, unconditional: bool, st: AllocState, id: int, st1: AllocState, a': Expr,
                 st2: AllocState)
    requires Calls(st) && Calls(st1) && Assign(Call(n, [a, Num(b)], NO_NODE), unconditional, st) == (id, st1)
    requires Walk(a, unconditional, st1) == (a', st2)
    ensures Walk(Call(n, [a, Num(b)], NO_NODE), unconditional, st) == (Call(n, [a', Num(b)], id), st2)
  {
    var args := [a, Num(b)];
    assert args[1..] == [Num(b)] && [Num(b)][1..] == [];
    assert WalkArgs([], unconditional, st2) == ([], st2);
    assert WalkArgs([Num(b)], unconditional, st2) == ([Num(b)], st2) by { assert [Num(b)] + [] == [Num(b)]; }
    assert WalkArgs(args, unconditional, st1) == ([a', Num(b)], st2) by { assert [a'] + [Num(b)] == [a', Num(b)]; }
  }

  lemma WalkLiteral(b: Bits64, unconditional: bool, st: AllocState)
    requires Calls(st)
    ensures Walk(Num(b), unconditional, st) == (Num(b), st)
  {
  }

  lemma WalkChoice(c: Expr, t: Expr, f: Expr, st: AllocState, t': Expr, st': AllocState)
    requires Calls(st) && Calls(st') && c.Num? && f.Num? && Walk(t, false, st) == (t', st')
    ensures Walk(Cond(c, t, f), true, st) == (Cond(c, t', f), st')
  {
  }

  lemma WalkBranch(b: Bits64, dead: bool, st: AllocState, n: int, st': AllocState)
    requires Calls(st) && Calls(st') && Walk(Inner(b, NO_NODE), false, st) == (Inner(b, n), st')
    ensures Walk(Branch(b, NO_NODE, dead), false, st) == (Branch(b, n, dead), st')
  {
    hide Inner;
    WalkLiteral(b, false, st);
  }

  /** Walking the shared call: its own id is `id`, the one in the branch is new. */
  lemma WalkSmoothed(b: Bits64, dead: bool, st: AllocState, id: int, st1: AllocState)
    requires Calls(st) && Calls(st1) && Assign(Smoothed(b, NO_NODE, NO_NODE, dead), true, st) == (id, st1)
    requires TryAliasNodeId(st1.seen, Inner(b, NO_NODE)) == 0
    ensures Walk(Smoothed(b, NO_NODE, NO_NODE, dead), true, st)
         == (Smoothed(b, id, st1.nextId, dead), AllocState(st1.nextId + 1,
                                                           st1.seen + [Seen(Inner(b, st1.nextId), false)]))
  {
    Names();
    hide KindOf, IsStatefulOp, Walk, TryAliasNodeId;
    var inner, n := Inner(b, NO_NODE), st1.nextId;
    var st2 := AllocState(n + 1, st1.seen + [Seen(Inner(b, n), false)]);
    assert Assign(inner, false, st1) == (n, st2);
    WalkLiteral(b, false, st2);
    WalkPair("ema", Num(b), b, false, st1, n, st2, Num(b), st2);
    var choice := Choice(b, NO_NODE, dead);
    WalkBranch(b, dead, st1, n, st2);
    WalkChoice(Num(b), Branch(b, NO_NODE, dead), Num(b), st1, Branch(b, n, dead), st2);
    WalkPair("sma", choice, b, true, st, id, st1, Choice(b, n, dead), st2);
  }

  /** The allocator gives the two branches ids of their own, 3 and 4. */
  lemma FilterIds(b: Bits64, dead: bool)
    ensures AllocateProgram([Source(b, dead)], 1).0 == [Filter(b, 1, 2, 3, 4, dead)]
  {
    Names();
    hide KindOf, IsStatefulOp;
    var e, s, inner := Source(b, dead), Smoothed(b, NO_NODE, NO_NODE, dead), Inner(b, NO_NODE);
    var k, s2, i3 := Seen(e.(nodeId := 1), true), Seen(s.(nodeId := 2), true), Seen(Inner(b, 3), false);
    var st0, st1 := AllocState(1, []), AllocState(2, [k]);
    assert [] + [k] == [k] && Assign(e, true, st0) == (1, st1);
    AliasStep(k, [], s);
    assert [k] + [] == [k] && [k] + [s2] == [k, s2] && [k, s2] + [i3] == [k, s2, i3];
    var st2 := AllocState(3, [k, s2]);
    assert Assign(s, true, st1) == (2, st2);
    AliasesInner(b, k, s2, []);
    assert [k, s2] + [] == [k, s2];
    WalkSmoothed(b, dead, st1, 2, st2);
    var st3 := AllocState(4, [k, s2, i3]);
    assert Walk(s, true, st1) == (Smoothed(b, 2, 3, dead), st3);
    AliasesOuter(b, dead, k, s2, i3);
    assert Assign(s, true, st3) == (2, st3);
    AliasesInner(b, k, s2, [i3]);
    assert [k, s2] + [i3] == [k, s2, i3];
    WalkSmoothed(b, dead, st3, 2, st3);
    FilterWalk(b, dead, st0, st1, st3, Walk(s, true, st3).1);
  }

  lemma AliasesInner(b: Bits64, k: SeenStateful, s2: SeenStateful, rest: seq<SeenStateful>)
    requires k.node.Call? && k.node.name == "kalman1d" && s2.node.Call? && s2.node.name == "sma"
    requires forall r <- rest :: r.node.Call? && !r.unconditional
    ensures TryAliasNodeId([k, s2] + rest, Inner(b, NO_NODE)) == 0
  {
    assert [k, s2] + rest == [k] + ([s2] + rest);
    AliasStep(k, [s2] + rest, Inner(b, NO_NODE));
    AliasStep(s2, rest, Inner(b, NO_NODE));
    NothingUnconditional(rest, Inner(b, NO_NODE));
  }

  lemma {:induction false} NothingUnconditional(seen: seq<SeenStateful>, c: Expr)
    requires c.Call? && forall r <- seen :: r.node.Call? && !r.unconditional
    ensures TryAliasNodeId(seen, c) == 0
  {
    if seen != [] { NothingUnconditional(seen[1..], c); }
  }

  lemma AliasesOuter(b: Bits64, dead: bool, k: SeenStateful, s2: SeenStateful, i3: SeenStateful)
    requires k.node.Call? && k.node.name == "kalman1d" && i3.node.Call?
    requires s2 == Seen(Smoothed(b, 2, NO_NODE, dead), true)
    ensures TryAliasNodeId([k, s2, i3], Smoothed(b, NO_NODE, NO_NODE, dead)) == 2
  {
    var s := Smoothed(b, NO_NODE, NO_NODE, dead);
    assert [k, s2, i3] == [k] + ([s2] + [i3]);
    AliasStep(k, [s2] + [i3], s);
    AliasStep(s2, [i3], s);
    AstEqualsIsEqualClones(s2.node, s);
    assert CloneExpr(s2.node) == CloneExpr(s);
  }

  lemma FilterWalk(b: Bits64, dead: bool, st0: AllocState, st1: AllocState, st3: AllocState, st4: AllocState)
    requires Calls(st0) && Calls(st1) && Calls(st3) && Calls(st4) && st0 == AllocState(1, [])
    requires Assign(Source(b, dead), true, st0) == (1, st1)
    requires Walk(Smoothed(b, NO_NODE, NO_NODE, dead), true, st1) == (Smoothed(b, 2, 3, dead), st3)
    requires Walk(Smoothed(b, NO_NODE, NO_NODE, dead), true, st3) == (Smoothed(b, 2, 4, dead), st4)
    ensures AllocateProgram([Source(b, dead)], 1).0 == [Filter(b, 1, 2, 3, 4, dead)]
  {
    var s, x, q := Smoothed(b, NO_NODE, NO_NODE, dead), Smoothed(b, 2, 3, dead), Smoothed(b, 2, 4, dead);
    hide Smoothed, Assign;
    assert [s, s, Num(b)][1..] == [s, Num(b)] && [s, Num(b)][1..] == [Num(b)] && [Num(b)][1..] == [];
    assert WalkArgs([], true, st4) == ([], st4);
    assert WalkArgs([Num(b)], true, st4) == ([Num(b)], st4) by { assert [Num(b)] + [] == [Num(b)]; }
    assert WalkArgs([s, Num(b)], true, st3) == ([q, Num(b)], st4) by { assert [q] + [Num(b)] == [q, Num(b)]; }
    assert WalkArgs([s, s, Num(b)], true, st1) ==
           ([x, q, Num(b)], st4) by { assert [x] + [q, Num(b)] == [x, q, Num(b)]; }
    assert Walk(Source(b, dead), true, st0) == (Filter(b, 1, 2, 3, 4, dead), st4);
    assert [Source(b, dead)][1..] == [] && AllocateProgram([], st4.nextId).0 == [];
    assert [Filter(b, 1, 2, 3, 4, dead)] + [] == [Filter(b, 1, 2, 3, 4, dead)];
  }

  // ---- Its runs ----

  /** An `ema` or `sma` that is not cached fires its slot after its argument. */
  lemma CallFires<M, V, S>(env: Env<M, V, S>, n: string, a: Expr, b: Bits64, id: int, st: EvalState<V, S>)
    requires (n == "ema" || n == "sma") && id > 0 && Runnable(a) && id !in st.cache
    ensures var e := Call(n, [a, Num(b)], id);
      && Runnable(e)
      && var (st1, st') := (Eval(env, a, st).1, Eval(env, e, st).1);
      st'.slots.Keys == st1.slots.Keys + {id} && st'.cache.Keys == st1.cache.Keys + {id}
  {
    Names();
    PairWellFormed(n, a, b);
    var e := Call(n, [a, Num(b)], id);
    EvalTwo(env, a, Num(b), st);
    hide KindOf, EvalArgs, RunnableArgs, StepAt, IsStatefulOp, IsMathFn, IsMarketFn, IsTickerFn;
    assert ArgOrder(env.noiseFirst, n, e.args) == e.args;
  }

  lemma SmoothedRuns<M, V, S>(env: Env<M, V, S>, b: Bits64, id: int, inner: int, st: EvalState<V, S>)
    requires id > 0 && inner > 0 && id != inner && env.ops.isTrue(env.ops.num(b)) && inner !in st.cache
    ensures Runnable(Smoothed(b, id, inner, false))
    ensures var st' := Eval(env, Smoothed(b, id, inner, false), st).1;
      if id in st.cache then st' == st
      else st'.slots.Keys == st.slots.Keys + {inner, id} && st'.cache.Keys == st.cache.Keys + {inner, id}
  {
    SmoothedRunnable(b, id, inner, false);
    hide KindOf, EvalArgs, Runnable, RunnableArgs, StepAt, Eval;
    if id in st.cache {
      Cached(env, Smoothed(b, id, inner, false), st);
    } else {
      Literal(env, b, st);
      CallFires(env, "ema", Num(b), b, inner, st);
      ChoiceTaken(env, Inner(b, inner), b, st);
      CallFires(env, "sma", Choice(b, inner, false), b, id, st);
    }
  }

  lemma SmoothedRunnable(b: Bits64, id: int, inner: int, dead: bool)
    requires id > 0 && inner > 0
    ensures Runnable(Num(b)) && Runnable(Inner(b, inner)) && Runnable(Choice(b, inner, dead)) &&
            Runnable(Smoothed(b, id, inner, dead))
  {
    PairWellFormed("ema", Num(b), b);
    PairWellFormed("sma", Choice(b, inner, dead), b);
    hide KindOf, RunnableArgs;
  }

  lemma Literal<M, V, S>(env: Env<M, V, S>, b: Bits64, st: EvalState<V, S>)
    ensures Runnable(Num(b)) && Eval(env, Num(b), st).1 == st
  {
  }

  lemma Cached<M, V, S>(env: Env<M, V, S>, e: Expr, st: EvalState<V, S>)
    requires Runnable(e) && e.Call? && e.nodeId > 0 && e.nodeId in st.cache
    ensures Eval(env, e, st) == (st.cache[e.nodeId], st)
  {
    hide KindOf;
  }

  lemma ChoiceTaken<M, V, S>(env: Env<M, V, S>, a: Expr, b: Bits64, st: EvalState<V, S>)
    requires Runnable(a) && env.ops.isTrue(env.ops.num(b))
    ensures var choice := Cond(Num(b), a, Num(b));
      Runnable(choice) && Eval(env, choice, st) == Eval(env, a, st)
  {
    hide KindOf;
  }

  lemma FilterRunnable(b: Bits64, dead: bool)
    ensures var x, q, r, e := Smoothed(b, 2, 3, dead), Smoothed(b, 2, 4, dead), Num(b), Filter(b, 1, 2, 3, 4, dead);
      && Runnable(x) && Runnable(q) && RunnableArgs([x, q, r]) && RunnableArgs([q, r, x]) && Runnable(e)
      && (forall order :: ArgOrder(order, e.name, e.args) == if order then [q, r, x] else [x, q, r])
  {
    Names();
    var x, q, r := Smoothed(b, 2, 3, dead), Smoothed(b, 2, 4, dead), Num(b);
    SmoothedRunnable(b, 2, 3, dead);
    SmoothedRunnable(b, 2, 4, dead);
    ThreeArgs(x, q, r);
    ThreeArgs(q, r, x);
    hide KindOf, IsStatefulOp, IsTickerFn, HasPeriod, Arity, PeriodIndex, IsMarketFn, IsMathFn, RunnableArgs, Smoothed;
    assert SourceArgs("kalman1d", [x, q, r]) == [x, q, r];
  }

  lemma FilterRuns<M, V, S>(env: Env<M, V, S>, b: Bits64)
    requires env.ops.isTrue(env.ops.num(b))
    ensures Runnable(Filter(b, 1, 2, 3, 4, false))
    ensures Eval(env, Filter(b, 1, 2, 3, 4, false), EvalState(map[], map[], multiset{})).1.slots.Keys
         == {1, 2, if env.noiseFirst then 4 else 3}
  {
    FilterRunnable(b, false);
    Names();
    var x, q, r := Smoothed(b, 2, 3, false), Smoothed(b, 2, 4, false), Num(b);
    var st: EvalState<V, S> := EvalState(map[], map[], multiset{});
    if env.noiseFirst {
      SmoothedRuns(env, b, 2, 4, st);
      SmoothedRuns(env, b, 2, 3, Eval(env, q, st).1);
      EvalThree(env, q, r, x, st);
    } else {
      SmoothedRuns(env, b, 2, 3, st);
      SmoothedRuns(env, b, 2, 4, Eval(env, x, st).1);
      EvalThree(env, x, q, r, st);
    }
    hide KindOf, IsStatefulOp, IsTickerFn, IsMarketFn, IsMathFn, RunnableArgs, Smoothed, StepAt, EvalArgs;
  }

  /** Whatever the operators, when `b` is taken as true: the compiled program leaves slots 1, 2 and 3, the
      interpreter slots 1, 2 and 4. */
  lemma NoiseFirstDiffers<M, V(!new), S>(env: Env<M, V, S>, b: Bits64) returns (n: nat)
    requires LeftToRight(env) && env.ops.isTrue(env.ops.num(b))
    ensures WellFormedArgs([Source(b, false)])
    ensures var withIds := AllocateProgram([Source(b, false)], 1).0;
      && RunnableArgs(withIds)
      && Run(env, CompileProgram(withIds), n, Entry(map[])).Done?
      && Run(env, CompileProgram(withIds), n, Entry(map[])).c.slots.Keys == {1, 2, 3}
      && EvalProgram(NoiseFirst(env), withIds, map[], multiset{}).1.Keys == {1, 2, 4}
      && !CompiledIsInterpreted(env, withIds, map[]) && !OrderIrrelevant(withIds)
  {
    hide Run, AllocateProgram, CompileProgram, Eval, Filter, AlikeFrom, CompiledIsInterpreted, KindOf;
    SourceWellFormed(b, false);
    FilterIds(b, false);
    var withIds := [Filter(b, 1, 2, 3, 4, false)];
    var c;
    n, c := CompiledRuns(env, [Source(b, false)], map[]);
    FilterRuns(env, b);
    FilterRuns(NoiseFirst(env), b);
    assert withIds[1..] == [];
    AgreeIffSameResult(env, [Source(b, false)], map[]);
    InterpreterAgrees(env, [Source(b, false)], map[]);
  }

  // ---- The dead branch ----

  lemma DeadChoice<M, V, S>(env: Env<M, V, S>, b: Bits64, inner: int, st: EvalState<V, S>)
    requires inner > 0
    ensures Runnable(Choice(b, inner, true)) && Eval(env, Choice(b, inner, true), st) == (env.ops.num(b), st)
  {
    SmoothedRunnable(b, 1, inner, true);
    hide KindOf, Inner;
  }

  /** The two occurrences evaluate alike from any state: nothing ever asks for the ids inside. */
  lemma DeadAlike<M, V, S>(env: Env<M, V, S>, b: Bits64, st: EvalState<V, S>)
    ensures Runnable(Smoothed(b, 2, 3, true)) && Runnable(Smoothed(b, 2, 4, true))
    ensures var (v, st1) := Eval(env, Smoothed(b, 2, 3, true), st);
      Eval(env, Smoothed(b, 2, 4, true), st) == (v, st1) && 2 in st1.cache && st1.cache[2] == v
  {
    Names();
    SmoothedRunnable(b, 2, 3, true);
    SmoothedRunnable(b, 2, 4, true);
    var x, q := Smoothed(b, 2, 3, true), Smoothed(b, 2, 4, true);
    if 2 in st.cache {
      Cached(env, x, st);
      Cached(env, q, st);
    } else {
      DeadFires(env, b, 3, st);
      DeadFires(env, b, 4, st);
      DeadClones(b);
      hide Eval, Smoothed, StepAt, KindOf, Runnable, RunnableArgs, CloneExpr;
    }
  }

  lemma DeadClones(b: Bits64)
    ensures CloneExpr(Smoothed(b, 2, 3, true)) == CloneExpr(Smoothed(b, 2, 4, true))
  {
    var x, q := Choice(b, 3, true), Choice(b, 4, true);
    assert CloneExpr(Inner(b, 3)) == CloneExpr(Inner(b, 4));
    assert CloneExpr(Branch(b, 3, true)) == CloneExpr(Branch(b, 4, true));
    assert CloneExpr(x) == CloneExpr(q);
    assert CloneArgs([x, Num(b)]) == CloneArgs([q, Num(b)]);
  }

  lemma DeadFires<M, V, S>(env: Env<M, V, S>, b: Bits64, inner: int, st: EvalState<V, S>)
    requires inner > 0 && 2 !in st.cache
    ensures var e, n := Smoothed(b, 2, inner, true), env.ops.num(b);
      Runnable(e) && Eval(env, e, st) == Fire(env, e, [n, n], st)
  {
    SmoothedRunnable(b, 2, inner, true);
    DeadChoice(env, b, inner, st);
    PairFires(env, Choice(b, inner, true), b, 2, st);
    hide Eval, Choice, Fire;
  }

  lemma PairFires<M, V, S>(env: Env<M, V, S>, a: Expr, b: Bits64, id: int, st: EvalState<V, S>)
    requires Runnable(a) && id > 0 && id !in st.cache && Eval(env, a, st) == (env.ops.num(b), st)
    ensures var e, n := Call("sma", [a, Num(b)], id), env.ops.num(b);
      Runnable(e) && Eval(env, e, st) == Fire(env, e, [n, n], st)
  {
    Names();
    PairWellFormed("sma", a, b);
    EvalTwo(env, a, Num(b), st);
    var e, n := Call("sma", [a, Num(b)], id), env.ops.num(b);
    hide KindOf, EvalArgs, RunnableArgs, StepAt, IsStatefulOp, IsMathFn, IsMarketFn, IsTickerFn, Fire;
    assert ArgOrder(env.noiseFirst, "sma", e.args) == e.args;
    assert MarketInput(env, "sma", e.args) == [] && [] + [n, n] == [n, n];
  }

  lemma DeadSameResult<M, V, S>(env: Env<M, V, S>, b: Bits64, slots: map<int, S>)
    requires LeftToRight(env)
    ensures RunnableArgs([Filter(b, 1, 2, 3, 4, true)]) && SameResult(env, [Filter(b, 1, 2, 3, 4, true)], slots)
  {
    hide Eval, EvalProgram, Filter, Runnable;
    FilterRunnable(b, true);
    var e, st := Filter(b, 1, 2, 3, 4, true), EvalState(slots, map[], multiset{});
    DeadBody(env, b, st);
    OneSignal(env, e, slots);
    OneSignal(NoiseFirst(env), e, slots);
  }

  lemma OneSignal<M, V, S>(env: Env<M, V, S>, e: Expr, slots: map<int, S>)
    requires Runnable(e)
    ensures RunnableArgs([e])
    ensures var (v, st) := Eval(env, e, EvalState(slots, map[], multiset{}));
      EvalProgram(env, [e], slots, multiset{}) == ([v], st.slots, st.log)
  {
    hide Eval, Runnable;
    assert [e][1..] == [];
    var (v, st) := Eval(env, e, EvalState(slots, map[], multiset{}));
    assert EvalProgram(env, [], st.slots, st.log) == ([], st.slots, st.log);
    assert [v] + [] == [v];
  }

  lemma KalmanUnfolds<M, V, S>(env: Env<M, V, S>, e: Expr, st: EvalState<V, S>)
    requires Runnable(e) && e.Call? && KindOf(e.name).Kalman1d? && e.nodeId !in st.cache
    ensures IsStatefulOp(e.name) && |e.args| == Arity(e.name)
    ensures var args := ArgOrder(env.noiseFirst, e.name, e.args);
      && RunnableArgs(args)
      && var (vs, st1) := EvalArgs(env, args, st);
         Eval(env, e, st) == Fire(env, e, SourceOrder(env.noiseFirst, e.name, vs), st1)
  {
    OrderRunnable(env.noiseFirst, e);
    assert !IsTickerFn(e.name) && !IsMarketFn(e.name) && !IsMathFn(e.name);
    hide EvalArgs, Fire, KindOf, IsTickerFn, IsMarketFn, IsMathFn;
    var vs := SourceOrder(env.noiseFirst, e.name, EvalArgs(env, ArgOrder(env.noiseFirst, e.name, e.args), st).0);
    assert MarketInput(env, e.name, e.args) + vs == vs;
  }

  lemma DeadBody<M, V, S>(env: Env<M, V, S>, b: Bits64, st: EvalState<V, S>)
    requires LeftToRight(env) && st.cache == map[]
    ensures Runnable(Filter(b, 1, 2, 3, 4, true))
    ensures Eval(NoiseFirst(env), Filter(b, 1, 2, 3, 4, true), st) == Eval(env, Filter(b, 1, 2, 3, 4, true), st)
  {
    hide KindOf, IsStatefulOp, RunnableArgs, Smoothed, EvalArgs, Runnable, Eval;
    FilterRunnable(b, true);
    Names();
    var e := Filter(b, 1, 2, 3, 4, true);
    DeadArgs(env, b, st);
    KalmanUnfolds(env, e, st);
    KalmanUnfolds(NoiseFirst(env), e, st);
    var vs := EvalArgs(env, e.args, st).0;
    assert vs == [vs[0], vs[1], vs[2]];
  }

  lemma DeadArgs<M, V, S>(env: Env<M, V, S>, b: Bits64, st: EvalState<V, S>)
    requires LeftToRight(env) && st.cache == map[]
    ensures var x, q, r := Smoothed(b, 2, 3, true), Smoothed(b, 2, 4, true), Num(b);
      && RunnableArgs([x, q, r]) && RunnableArgs([q, r, x])
      && var (vs, st1) := EvalArgs(env, [x, q, r], st);
         EvalArgs(NoiseFirst(env), [q, r, x], st) == ([vs[1], vs[2], vs[0]], st1)
  {
    hide Eval, EvalArgs, Smoothed, KindOf, RunnableArgs;
    FilterRunnable(b, true);
    var x, q, r, late := Smoothed(b, 2, 3, true), Smoothed(b, 2, 4, true), Num(b), NoiseFirst(env);
    DeadAlike(env, b, st);
    DeadAlike(late, b, st);
    DeadOrder(env, b, st);
    var (v, st1) := Eval(env, x, st);
    CachedSmoothed(env, b, 4, st1);
    CachedSmoothed(late, b, 3, st1);
    LiteralSame(env, b, st1);
    EvalThree(env, x, q, r, st);
    EvalThree(late, q, r, x, st);
  }

  lemma CachedSmoothed<M, V, S>(env: Env<M, V, S>, b: Bits64, inner: int, st: EvalState<V, S>)
    requires inner > 0 && 2 in st.cache
    ensures Runnable(Smoothed(b, 2, inner, true)) && Eval(env, Smoothed(b, 2, inner, true), st) == (st.cache[2], st)
  {
    SmoothedRunnable(b, 2, inner, true);
    Cached(env, Smoothed(b, 2, inner, true), st);
  }

  lemma LiteralSame<M, V, S>(env: Env<M, V, S>, b: Bits64, st: EvalState<V, S>)
    ensures Runnable(Num(b)) && Eval(env, Num(b), st) == (env.ops.num(b), st)
    ensures Eval(NoiseFirst(env), Num(b), st) == (env.ops.num(b), st)
  {
  }

  lemma DeadOrder<M, V, S>(env: Env<M, V, S>, b: Bits64, st: EvalState<V, S>)
    requires 2 !in st.cache
    ensures Runnable(Smoothed(b, 2, 3, true))
    ensures Eval(NoiseFirst(env), Smoothed(b, 2, 3, true), st) == Eval(env, Smoothed(b, 2, 3, true), st)
  {
    DeadFires(env, b, 3, st);
    DeadFires(NoiseFirst(env), b, 3, st);
    hide Eval, Smoothed;
  }

  /** The two trees share slot 2 and differ inside, as in the program above, and yet the order cannot matter. */
  lemma DeadBranchIsHarmless(b: Bits64)
    ensures WellFormedArgs([Source(b, true)])
    ensures var withIds := AllocateProgram([Source(b, true)], 1).0;
      RunnableArgs(withIds) && !NoiseSharedArgs(withIds) && OrderIrrelevant(withIds)
  {
    hide AllocateProgram, AlikeFrom, SameResult, FreeEnv, FreeSlots, Filter;
    SourceWellFormed(b, true);
    FilterIds(b, true);
    var withIds := [Filter(b, 1, 2, 3, 4, true)];
    FilterRunnable(b, true);
    NotShared(b);
    if !OrderIrrelevant(withIds) {
      var outcomes := Distinguished(withIds, map[]);
      FreeLeftToRight(outcomes);
      DeadSameResult(FreeEnv(outcomes), b, FreeSlots(withIds));
      assert false;
    }
  }

  lemma NotShared(b: Bits64)
    ensures !NoiseSharedArgs([Filter(b, 1, 2, 3, 4, true)])
  {
    Names();
    var x, q, r := Smoothed(b, 2, 3, true), Smoothed(b, 2, 4, true), Num(b);
    var args := [x, q, r];
    assert x in StatefulIn(x) && q in StatefulIn(q);
    assert x in StatefulInArgs(args);
    assert x != q by { assert Choice(b, 3, true) != Choice(b, 4, true); }
  }
}

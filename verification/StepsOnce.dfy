/** How often an evaluation steps each slot, for every well-formed program, in the interpreter's order and in the
    order of compiled code: the slot of an unconditional call exactly once, any other at most once, however many
    calls share it. */
module StepsOnce {
  import opened Ast
  import opened Evaluation
  import opened Sharing
  import opened NodeIds
  import opened AllocSound
  import opened Program
  import opened Streams
  import opened StreamsProgram
  import opened AllocSteady
  import opened NoiseExchange
  import opened SymbolicRuns
  import opened SettledTrees
  import opened Claims

  /** The calls of an allocated body: equal ids stand for equal structure, claimed ids for claims. */
  ghost predicate Bodied(seen: seq<SeenStateful>, all: set<Expr>) {
    && (forall s <- seen :: s.node.Call? && s.node.nodeId > 0)
    && (forall c <- all :: c.Call? && StatefulInArgs(c.args) <= all && ClaimGood(seen, c))
    && (forall a <- all, b <- all :: a.nodeId == b.nodeId ==> CloneExpr(a) == CloneExpr(b))
  }

  lemma BodiedCalls(seen: seq<SeenStateful>, all: set<Expr>)
    requires Bodied(seen, all)
    ensures forall c <- all :: c.Call?
  {
  }

  /** Who is cached has what stands unconditionally inside it cached. */
  ghost predicate Full(seen: seq<SeenStateful>, all: set<Expr>, cache: set<int>)
    requires forall c <- all :: c.Call?
  {
    forall c <- all :: c.nodeId in cache && Claimed(seen, c.nodeId) ==> Ids(UncondInArgs(c.args)) <= cache
  }

  /** From `st` to `st'` the slots newly cached were stepped, each once, and they are among `ids`. */
  ghost predicate Once<V, S>(st: EvalState<V, S>, st': EvalState<V, S>, ids: set<int>) {
    && st.cache.Keys <= st'.cache.Keys <= st.cache.Keys + ids
    && (forall i: int :: st'.log[i] == st.log[i] + if i in st'.cache && i !in st.cache then 1 else 0)
  }

  lemma OnceNone<V, S>(st: EvalState<V, S>)
    ensures Once(st, st, {})
  {
  }

  lemma OnceTrans<V, S>(a: EvalState<V, S>, b: EvalState<V, S>, c: EvalState<V, S>, i: set<int>, j: set<int>)
    requires Once(a, b, i) && Once(b, c, j)
    ensures Once(a, c, i + j)
  {
  }

  lemma OnceWider<V, S>(a: EvalState<V, S>, b: EvalState<V, S>, i: set<int>, j: set<int>)
    requires Once(a, b, i) && i <= j
    ensures Once(a, b, j)
  {
  }

  lemma OnceKeys<V, S>(st: EvalState<V, S>, st': EvalState<V, S>, ids: set<int>)
    requires Once(st, st', ids)
    ensures st'.cache.Keys <= st.cache.Keys + ids
  {
  }

  lemma FireCaches<M, V, S>(env: Env<M, V, S>, call: Expr, vs: seq<V>, st: EvalState<V, S>)
    requires call.Call?
    ensures Fire(env, call, vs, st).1.cache.Keys == st.cache.Keys + {call.nodeId}
  {
    hide StepAt;
  }

  lemma OnceFire<M, V, S>(env: Env<M, V, S>, call: Expr, vs: seq<V>, st: EvalState<V, S>)
    requires call.Call? && call.nodeId !in st.cache
    ensures Once(st, Fire(env, call, vs, st).1, {call.nodeId})
  {
  }

  /** What evaluating one tree, or some, leaves. */
  ghost predicate Filled<V, S>(seen: seq<SeenStateful>, all: set<Expr>, calls: set<Expr>, uncond: set<Expr>,
                               st: EvalState<V, S>, st': EvalState<V, S>)
    requires (forall c <- all :: c.Call?) && (forall c <- calls :: c.Call?) && forall c <- uncond :: c.Call?
  {
    && Once(st, st', Ids(calls)) && Full(seen, all, st'.cache.Keys)
    && (Owned(seen, uncond) ==> Ids(uncond) <= st'.cache.Keys)
  }

  lemma FilledBoth<V, S>(seen: seq<SeenStateful>, all: set<Expr>, c1: set<Expr>, u1: set<Expr>, c2: set<Expr>,
                         u2: set<Expr>, a: EvalState<V, S>, b: EvalState<V, S>, c: EvalState<V, S>)
    requires (forall c <- all :: c.Call?) && (forall c <- c1 + c2 :: c.Call?) && forall c <- u1 + u2 :: c.Call?
    requires Filled(seen, all, c1, u1, a, b) && Filled(seen, all, c2, u2, b, c)
    ensures Filled(seen, all, c1 + c2, u1 + u2, a, c)
  {
    hide Full, OwnedCall;
    OnceTrans(a, b, c, Ids(c1), Ids(c2));
    assert Ids(c1) + Ids(c2) == Ids(c1 + c2);
    if Owned(seen, u1 + u2) { assert Owned(seen, u1) && Owned(seen, u2); }
  }

  lemma FilledNone<V, S>(seen: seq<SeenStateful>, all: set<Expr>, st: EvalState<V, S>)
    requires (forall c <- all :: c.Call?) && Full(seen, all, st.cache.Keys)
    ensures Filled(seen, all, {}, {}, st, st)
  {
  }

  /** Taking one branch of two. */
  lemma FilledBranch<V, S>(seen: seq<SeenStateful>, all: set<Expr>, calls: set<Expr>, uncond: set<Expr>,
                           more: set<Expr>, st: EvalState<V, S>, st': EvalState<V, S>)
    requires (forall c <- all :: c.Call?) && (forall c <- calls + more :: c.Call?) && forall c <- uncond :: c.Call?
    requires Filled(seen, all, calls, uncond, st, st')
    ensures Filled(seen, all, calls + more, {}, st, st')
  {
    hide Full, OwnedCall;
    OnceWider(st, st', Ids(calls), Ids(calls + more));
  }

  lemma {:induction false} EvalFills<M, V, S>(env: Env<M, V, S>, seen: seq<SeenStateful>, all: set<Expr>, e: Expr,
                                              st: EvalState<V, S>)
    requires Runnable(e) && Bodied(seen, all) && StatefulIn(e) <= all && Full(seen, all, st.cache.Keys)
    ensures Filled(seen, all, StatefulIn(e), UncondIn(e), st, Eval(env, e, st).1)
    decreases Size(e), 1
  {
    hide KindOf, Filled, Full, Bodied;
    BodiedCalls(seen, all);
    match e
    case Num(_) => FilledNone(seen, all, st);
    case Param(_, _) => FilledNone(seen, all, st);
    case Unary(_, x) => EvalFills(env, seen, all, x, st);
    case Binary(_, l, r) =>
      EvalFills(env, seen, all, l, st);
      var st1 := Eval(env, l, st).1;
      FilledFull(seen, all, StatefulIn(l), UncondIn(l), st, st1);
      EvalFills(env, seen, all, r, st1);
      FilledBoth(seen, all, StatefulIn(l), UncondIn(l), StatefulIn(r), UncondIn(r), st, st1, Eval(env, r, st1).1);
    case Cond(_, _, _) => EvalFillsCond(env, seen, all, e, st);
    case Call(n, args, _) =>
      if IsStatefulOp(n) {
        EvalFillsStateful(env, seen, all, e, st);
      } else {
        EvalFillsPlain(env, seen, all, e, st);
      }
  }

  lemma {:induction false} EvalFillsPlain<M, V, S>(env: Env<M, V, S>, seen: seq<SeenStateful>, all: set<Expr>, e: Expr,
                                                   st: EvalState<V, S>)
    requires e.Call? && !IsStatefulOp(e.name)
    requires Runnable(e) && Bodied(seen, all) && StatefulIn(e) <= all && Full(seen, all, st.cache.Keys)
    ensures Filled(seen, all, StatefulIn(e), UncondIn(e), st, Eval(env, e, st).1)
    decreases Size(e), 0
  {
    hide KindOf, Filled, Full, Bodied;
    BodiedCalls(seen, all);
    PlainArity(e);
    OneArg(e);
    if IsMathFn(e.name) {
      SingleArg(e.args);
      EvalFills(env, seen, all, e.args[0], st);
    } else {
      FilledNone(seen, all, st);
    }
  }

  lemma PlainArity(e: Expr)
    requires Runnable(e) && e.Call? && !IsStatefulOp(e.name)
    ensures |e.args| == 1
  {
  }

  lemma OneArg(e: Expr)
    requires Runnable(e) && e.Call? && !IsStatefulOp(e.name) && |e.args| == 1
    ensures StatefulIn(e) == StatefulIn(e.args[0]) && UncondIn(e) == UncondIn(e.args[0])
    ensures IsMarketFn(e.name) ==> StatefulIn(e) == {} && UncondIn(e) == {}
  {
    hide KindOf;
    assert e.args[1..] == [] && UncondInArgs([]) == {} && StatefulInArgs([]) == {};
    assert UncondIn(e) == {} + UncondInArgs(e.args);
  }

  lemma FilledFull<V, S>(seen: seq<SeenStateful>, all: set<Expr>, calls: set<Expr>, uncond: set<Expr>,
                         st: EvalState<V, S>, st': EvalState<V, S>)
    requires (forall c <- all :: c.Call?) && (forall c <- calls :: c.Call?) && forall c <- uncond :: c.Call?
    requires Filled(seen, all, calls, uncond, st, st')
    ensures Full(seen, all, st'.cache.Keys)
  {
  }

  lemma {:induction false} EvalFillsCond<M, V, S>(env: Env<M, V, S>, seen: seq<SeenStateful>, all: set<Expr>, e: Expr,
                                                  st: EvalState<V, S>)
    requires e.Cond? && Runnable(e) && Bodied(seen, all) && StatefulIn(e) <= all && Full(seen, all, st.cache.Keys)
    ensures Filled(seen, all, StatefulIn(e), UncondIn(e), st, Eval(env, e, st).1)
    decreases Size(e), 0
  {
    hide KindOf, Filled, Full, Bodied;
    BodiedCalls(seen, all);
    EvalFills(env, seen, all, e.cond, st);
    var (v, st1) := Eval(env, e.cond, st);
    var C, T, F, U := StatefulIn(e.cond), StatefulIn(e.thn), StatefulIn(e.els), UncondIn(e.cond);
    FilledFull(seen, all, C, U, st, st1);
    if env.ops.isTrue(v) {
      EvalFills(env, seen, all, e.thn, st1);
      var st2 := Eval(env, e.thn, st1).1;
      FilledBranch(seen, all, T, UncondIn(e.thn), F, st1, st2);
      FilledBoth(seen, all, C, U, T + F, {}, st, st1, st2);
    } else {
      EvalFills(env, seen, all, e.els, st1);
      var st2 := Eval(env, e.els, st1).1;
      FilledBranch(seen, all, F, UncondIn(e.els), T, st1, st2);
      FilledBoth(seen, all, C, U, F + T, {}, st, st1, st2);
    }
    assert C + (T + F) == C + T + F && C + (F + T) == C + T + F && U + {} == U;
  }

  /** The order of the arguments does not change which calls they hold. */
  lemma OrderUncond(noiseFirst: bool, e: Expr)
    requires Runnable(e) && e.Call? && IsStatefulOp(e.name)
    ensures UncondInArgs(ArgOrder(noiseFirst, e.name, e.args)) == UncondInArgs(e.args)
  {
    if KindOf(e.name).Kalman1d? {
      var x, q, r := e.args[0], e.args[1], e.args[2];
      assert e.args == [x, q, r];
      UncondOfThree(x, q, r);
      UncondOfThree(q, r, x);
    }
  }

  lemma UncondOfThree(a: Expr, b: Expr, c: Expr)
    ensures UncondInArgs([a, b, c]) == UncondIn(a) + UncondIn(b) + UncondIn(c)
  {
    hide UncondIn;
    assert [a, b, c][1..] == [b, c] && [b, c][1..] == [c] && [c][1..] == [];
    assert UncondInArgs([c]) == UncondIn(c) && UncondInArgs([b, c]) == UncondIn(b) + UncondIn(c);
  }

  lemma OwnedIsClaimed(seen: seq<SeenStateful>, c: Expr)
    requires OwnedCall(seen, c) && forall s <- seen :: s.node.Call? && s.node.nodeId > 0
    ensures Claimed(seen, c.nodeId)
  {
    AliasFound(seen, c);
  }

  lemma {:induction false} EvalFillsStateful<M, V, S>(env: Env<M, V, S>, seen: seq<SeenStateful>, all: set<Expr>,
                                                      e: Expr, st: EvalState<V, S>)
    requires e.Call? && IsStatefulOp(e.name)
    requires Runnable(e) && Bodied(seen, all) && StatefulIn(e) <= all && Full(seen, all, st.cache.Keys)
    ensures Filled(seen, all, StatefulIn(e), UncondIn(e), st, Eval(env, e, st).1)
    decreases Size(e), 0
  {
    assert !IsMarketFn(e.name) && !IsMathFn(e.name);
    BodiedCalls(seen, all);
    hide KindOf, Filled, Full, Bodied, StepAt, ClaimGood;
    assert e in all;
    if e.nodeId in st.cache {
      CachedFilled(seen, all, e, st);
    } else {
      OrderRunnable(env.noiseFirst, e);
      OrderCalls(env.noiseFirst, e);
      OrderUncond(env.noiseFirst, e);
      var args := ArgOrder(env.noiseFirst, e.name, e.args);
      EvalFillsArgs(env, seen, all, args, st);
      var (vs, st1) := EvalArgs(env, args, st);
      FiredFilled(env, seen, all, e, MarketInput(env, e.name, e.args) + SourceOrder(env.noiseFirst, e.name, vs), st,
                  st1);
    }
  }

  lemma CachedFilled<V, S>(seen: seq<SeenStateful>, all: set<Expr>, e: Expr, st: EvalState<V, S>)
    requires Bodied(seen, all) && e in all && IsStatefulOp(e.name) && e.nodeId in st.cache
    requires Full(seen, all, st.cache.Keys)
    ensures Filled(seen, all, StatefulIn(e), UncondIn(e), st, st)
  {
    hide OwnedCall, ClaimGood, KindOf, StatefulInArgs, UncondInArgs;
    assert UncondIn(e) == {e} + UncondInArgs(e.args);
    if Owned(seen, UncondIn(e)) { OwnedIsClaimed(seen, e); }
  }

  /** Firing keeps the cache full: equal ids have the same unconditional calls inside. */
  lemma FiredFilled<M, V, S>(env: Env<M, V, S>, seen: seq<SeenStateful>, all: set<Expr>, e: Expr, vs: seq<V>,
                             st: EvalState<V, S>, st1: EvalState<V, S>)
    requires Bodied(seen, all) && e in all && IsStatefulOp(e.name) && e.nodeId !in st.cache
    requires Filled(seen, all, StatefulInArgs(e.args), UncondInArgs(e.args), st, st1)
    ensures Filled(seen, all, StatefulIn(e), UncondIn(e), st, Fire(env, e, vs, st1).1)
  {
    hide OwnedCall, KindOf, StatefulInArgs, UncondInArgs, StepAt, Bodied, Full, ClaimGood, Fire, Filled, Once, Owned;
    BodiedCalls(seen, all);
    var st2, C, U := Fire(env, e, vs, st1).1, StatefulInArgs(e.args), UncondInArgs(e.args);
    assert UncondIn(e) == {e} + U && StatefulIn(e) == {e} + C;
    FilledParts(seen, all, C, U, st, st1);
    FiredFull(seen, all, e, st1.cache.Keys);
    NotInside(seen, all, e);
    FireCaches(env, e, vs, st1);
    OnceKeys(st, st1, Ids(C));
    FiredOnce(env, e, vs, st, st1);
    FiredParts(seen, all, e, C, U, st, st1, st2);
  }

  lemma FilledParts<V, S>(seen: seq<SeenStateful>, all: set<Expr>, calls: set<Expr>, uncond: set<Expr>,
                          st: EvalState<V, S>, st': EvalState<V, S>)
    requires (forall c <- all :: c.Call?) && (forall c <- calls :: c.Call?) && forall c <- uncond :: c.Call?
    requires Filled(seen, all, calls, uncond, st, st')
    ensures Once(st, st', Ids(calls)) && Full(seen, all, st'.cache.Keys)
    ensures Owned(seen, uncond) ==> Ids(uncond) <= st'.cache.Keys
  {
  }

  lemma FiredParts<V, S>(seen: seq<SeenStateful>, all: set<Expr>, e: Expr, calls: set<Expr>, uncond: set<Expr>,
                         st: EvalState<V, S>, st1: EvalState<V, S>, st2: EvalState<V, S>)
    requires (forall c <- all :: c.Call?) && e.Call? && (forall c <- calls :: c.Call?) && forall c <- uncond :: c.Call?
    requires Once(st, st2, Ids({e} + calls)) && Full(seen, all, st2.cache.Keys)
    requires st2.cache.Keys == st1.cache.Keys + {e.nodeId} && (Owned(seen, uncond) ==> Ids(uncond) <= st1.cache.Keys)
    ensures Filled(seen, all, {e} + calls, {e} + uncond, st, st2)
  {
    hide OwnedCall, Full, Once;
    if Owned(seen, {e} + uncond) { assert Owned(seen, uncond); }
  }

  /** No call has the id of one inside it: equal ids stand for structures of one size. */
  lemma NotInside(seen: seq<SeenStateful>, all: set<Expr>, e: Expr)
    requires Bodied(seen, all) && e in all
    ensures e.nodeId !in Ids(StatefulInArgs(e.args))
  {
    hide StatefulInArgs, ClaimGood;
    forall c | c in StatefulInArgs(e.args) ensures c.nodeId != e.nodeId {
      assert c in all && Size(CloneExpr(c)) == Size(c) && Size(CloneExpr(e)) == Size(e);
    }
  }

  lemma FiredOnce<M, V, S>(env: Env<M, V, S>, e: Expr, vs: seq<V>, st: EvalState<V, S>, st1: EvalState<V, S>)
    requires e.Call? && Once(st, st1, Ids(StatefulInArgs(e.args))) && e.nodeId !in st1.cache
    ensures Once(st, Fire(env, e, vs, st1).1, Ids({e} + StatefulInArgs(e.args)))
  {
    hide StepAt;
    var st2 := Fire(env, e, vs, st1).1;
    OnceFire(env, e, vs, st1);
    OnceTrans(st, st1, st2, Ids(StatefulInArgs(e.args)), {e.nodeId});
    OnceWider(st, st2, Ids(StatefulInArgs(e.args)) + {e.nodeId}, Ids({e} + StatefulInArgs(e.args)));
  }

  lemma FiredFull(seen: seq<SeenStateful>, all: set<Expr>, e: Expr, cache: set<int>)
    requires Bodied(seen, all) && e in all && Full(seen, all, cache)
    requires Owned(seen, UncondInArgs(e.args)) ==> Ids(UncondInArgs(e.args)) <= cache
    ensures Full(seen, all, cache + {e.nodeId})
  {
    hide OwnedCall, UncondInArgs, StatefulInArgs;
    forall c | c in all && c.nodeId in cache + {e.nodeId} && Claimed(seen, c.nodeId)
      ensures Ids(UncondInArgs(c.args)) <= cache + {e.nodeId}
    {
      if c.nodeId == e.nodeId {
        assert ClaimGood(seen, e) && ClaimGood(seen, c);
        CallClones(c, e);
        SameUncondIds(seen, c.args, e.args);
      }
    }
  }

  lemma CallClones(a: Expr, b: Expr)
    requires a.Call? && b.Call? && CloneExpr(a) == CloneExpr(b)
    ensures CloneArgs(a.args) == CloneArgs(b.args)
  {
  }

  lemma {:induction false} EvalFillsArgs<M, V, S>(env: Env<M, V, S>, seen: seq<SeenStateful>, all: set<Expr>,
                                                  args: seq<Expr>, st: EvalState<V, S>)
    requires RunnableArgs(args) && Bodied(seen, all) && StatefulInArgs(args) <= all && Full(seen, all, st.cache.Keys)
    ensures Filled(seen, all, StatefulInArgs(args), UncondInArgs(args), st, EvalArgs(env, args, st).1)
    decreases SizeArgs(args), 2, |args|
  {
    hide KindOf, Filled, Full, Bodied;
    BodiedCalls(seen, all);
    if args == [] {
      FilledNone(seen, all, st);
    } else {
      EvalFills(env, seen, all, args[0], st);
      var st1 := Eval(env, args[0], st).1;
      FilledFull(seen, all, StatefulIn(args[0]), UncondIn(args[0]), st, st1);
      EvalFillsArgs(env, seen, all, args[1..], st1);
      FilledBoth(seen, all, StatefulIn(args[0]), UncondIn(args[0]), StatefulInArgs(args[1..]), UncondInArgs(args[1..]),
                 st, st1, EvalArgs(env, args[1..], st1).1);
    }
  }

  // ---- Equal structure, equal ids ----

  lemma {:induction false} UncondClone(e: Expr, c: Expr)
    requires c in UncondIn(e)
    ensures CloneExpr(c) in UncondCalls(e)
    decreases e, 1
  {
    hide KindOf;
    match e
    case Unary(_, x) => UncondClone(x, c);
    case Binary(_, l, r) => if c in UncondIn(l) { UncondClone(l, c); } else { UncondClone(r, c); }
    case Cond(p, _, _) => UncondClone(p, c);
    case Call(_, args, _) => if c != e || c in UncondInArgs(args) { UncondCloneArgs(args, c); }
    case _ => {}
  }

  lemma {:induction false} UncondCloneArgs(args: seq<Expr>, c: Expr)
    requires c in UncondInArgs(args)
    ensures CloneExpr(c) in UncondCallsArgs(args)
    decreases args, 0
  {
    if c in UncondIn(args[0]) { UncondClone(args[0], c); } else { UncondCloneArgs(args[1..], c); }
  }

  lemma {:induction false} UncondOfClone(e: Expr, k: Expr) returns (c: Expr)
    requires k in UncondCalls(e)
    ensures c in UncondIn(e) && CloneExpr(c) == k
    decreases e, 1
  {
    hide KindOf;
    match e
    case Unary(_, x) => c := UncondOfClone(x, k);
    case Binary(_, l, r) => if k in UncondCalls(l) { c := UncondOfClone(l, k); } else { c := UncondOfClone(r, k); }
    case Cond(p, _, _) => c := UncondOfClone(p, k);
    case Call(_, args, _) => if k in UncondCallsArgs(args) { c := UncondOfCloneArgs(args, k); } else { c := e; }
  }

  lemma {:induction false} UncondOfCloneArgs(args: seq<Expr>, k: Expr) returns (c: Expr)
    requires k in UncondCallsArgs(args)
    ensures c in UncondInArgs(args) && CloneExpr(c) == k
    decreases args, 0
  {
    if k in UncondCalls(args[0]) { c := UncondOfClone(args[0], k); } else { c := UncondOfCloneArgs(args[1..], k); }
  }

  lemma SameUncondIds(seen: seq<SeenStateful>, a: seq<Expr>, b: seq<Expr>)
    requires CloneArgs(a) == CloneArgs(b) && Owned(seen, UncondInArgs(a)) && Owned(seen, UncondInArgs(b))
    ensures Ids(UncondInArgs(a)) <= Ids(UncondInArgs(b))
  {
    UncondCallsOfClones(a);
    UncondCallsOfClones(b);
    hide OwnedCall, UncondInArgs;
    forall id | id in Ids(UncondInArgs(a)) ensures id in Ids(UncondInArgs(b)) {
      var c :| c in UncondInArgs(a) && c.nodeId == id;
      UncondCloneArgs(a, c);
      var d := UncondOfCloneArgs(b, CloneExpr(c));
      SameOwner(c, d, seen);
    }
  }

  lemma {:induction false} AvailIsUncond(e: Expr, avail: set<int>)
    ensures AvailAfter(e, avail) <= avail + Ids(UncondIn(e))
    decreases e, 1
  {
    hide KindOf;
    match e
    case Unary(_, x) => AvailIsUncond(x, avail);
    case Binary(_, l, r) => AvailIsUncond(l, avail); AvailIsUncond(r, AvailAfter(l, avail));
    case Cond(c, _, _) => AvailIsUncond(c, avail);
    case Call(_, args, _) => AvailIsUncondArgs(args, avail);
    case _ => {}
  }

  lemma {:induction false} AvailIsUncondArgs(args: seq<Expr>, avail: set<int>)
    ensures AvailAfterArgs(args, avail) <= avail + Ids(UncondInArgs(args))
    decreases args, 0
  {
    if args != [] {
      AvailIsUncond(args[0], avail);
      AvailIsUncondArgs(args[1..], AvailAfter(args[0], avail));
    }
  }

  // ---- Whole programs ----

  /** One signal: which slots its evaluation steps. */
  lemma BodySteps<M, V, S>(env: Env<M, V, S>, body: Expr, nextId: int, slots: map<int, S>, log: multiset<int>)
    requires WellFormed(body) && nextId > 0
    ensures var (body', st) := Walk(body, true, AllocState(nextId, []));
      && Runnable(body') && nextId <= st.nextId
      && var log' := Eval(env, body', EvalState(slots, map[], log)).1.log;
      && (forall i: int :: log[i] <= log'[i] <= log[i] + if nextId <= i < st.nextId then 1 else 0)
      && (forall i <- AvailAfter(body', {}) :: nextId <= i < st.nextId && log'[i] == log[i] + 1)
  {
    var st0 := AllocState(nextId, []);
    var (body', st) := Walk(body, true, st0);
    WellFormedUnallocated(body);
    WalkRunnable(body, true, st0);
    assert Covers(true, true, UncondCalls(body), [], {});
    WalkClaims(body, true, true, st0, {}, {}, Size(body));
    WalkConsistent(body, true, st0, nextId, map[]);
    var key := KeysOf(st, nextId);
    WalkConsistent(body, true, st0, nextId, key);
    hide Walk;
    AllocatedSteps(env, body', st, nextId, key, slots, log);
  }

  lemma AllocatedSteps<M, V, S>(env: Env<M, V, S>, body: Expr, st: AllocState, nextId: int, key: map<int, Expr>,
                                slots: map<int, S>, log: multiset<int>)
    requires Runnable(body) && Ready(st) && Consistent(body, key) && forall i <- key :: nextId <= i < st.nextId
    requires ClaimedAfter(AllocState(nextId, []), st, StatefulIn(body), UncondIn(body))
    ensures var log' := Eval(env, body, EvalState(slots, map[], log)).1.log;
      && (forall i: int :: log[i] <= log'[i] <= log[i] + if nextId <= i < st.nextId then 1 else 0)
      && (forall i <- AvailAfter(body, {}) :: nextId <= i < st.nextId && log'[i] == log[i] + 1)
  {
    var all, start: EvalState<V, S> := StatefulIn(body), EvalState(slots, map[], log);
    BodyIsBodied(body, st, nextId, key);
    assert start.cache.Keys == {} && Full(st.seen, all, start.cache.Keys);
    EvalFills(env, st.seen, all, body, start);
    AvailIsUncond(body, {});
    IdsKeyed(body, key);
    UncondWithin(body);
    hide Consistent, StatefulIn, UncondIn, Eval, Bodied, Full, AvailAfter, OwnedCall;
  }

  lemma BodyIsBodied(body: Expr, st: AllocState, nextId: int, key: map<int, Expr>)
    requires Ready(st) && Consistent(body, key)
    requires ClaimedAfter(AllocState(nextId, []), st, StatefulIn(body), UncondIn(body))
    ensures Bodied(st.seen, StatefulIn(body))
  {
    hide ClaimGood, Consistent, StatefulIn, UncondIn, OwnedCall;
    var all := StatefulIn(body);
    forall c | c in all ensures StatefulInArgs(c.args) <= all { CallsClosed(body, c); }
    forall a, b | a in all && b in all && a.nodeId == b.nodeId ensures CloneExpr(a) == CloneExpr(b) {
      CallsKeyed(body, key, a);
      CallsKeyed(body, key, b);
    }
  }

  lemma IdsKeyed(body: Expr, key: map<int, Expr>)
    requires Consistent(body, key)
    ensures Ids(StatefulIn(body)) <= key.Keys
  {
    forall c | c in StatefulIn(body) ensures c.nodeId in key { CallsKeyed(body, key, c); }
  }

  lemma {:induction false} UncondWithin(e: Expr)
    ensures UncondIn(e) <= StatefulIn(e)
    decreases e, 1
  {
    match e
    case Unary(_, x) => UncondWithin(x);
    case Binary(_, l, r) => UncondWithin(l); UncondWithin(r);
    case Cond(c, _, _) => UncondWithin(c);
    case Call(_, args, _) => UncondWithinArgs(args);
    case _ => {}
  }

  lemma {:induction false} UncondWithinArgs(args: seq<Expr>)
    ensures UncondInArgs(args) <= StatefulInArgs(args)
    decreases args, 0
  {
    if args != [] { UncondWithin(args[0]); UncondWithinArgs(args[1..]); }
  }

  lemma {:induction false} ProgramStepsOnce<M, V, S>(env: Env<M, V, S>, bodies: seq<Expr>, nextId: int,
                                                     slots: map<int, S>, log: multiset<int>)
    requires WellFormedArgs(bodies) && nextId > 0
    ensures var withIds := AllocateProgram(bodies, nextId).0;
      && RunnableArgs(withIds)
      && var log' := EvalProgram(env, withIds, slots, log).2;
      && (forall i: int :: log[i] <= log'[i] <= log[i] + if nextId <= i then 1 else 0)
      && (forall i <- AllLive(withIds) :: log'[i] == log[i] + 1)
    decreases bodies
  {
    hide KindOf, Eval, Walk, WellFormed, Runnable, AvailAfter;
    if bodies != [] {
      BodySteps(env, bodies[0], nextId, slots, log);
      var (body, st) := Walk(bodies[0], true, AllocState(nextId, []));
      var st1 := Eval(env, body, EvalState(slots, map[], log)).1;
      ProgramStepsOnce(env, bodies[1..], st.nextId, st1.slots, st1.log);
      var rest := AllocateProgram(bodies[1..], st.nextId).0;
      assert ([body] + rest)[1..] == rest;
    }
  }

  /** Every well-formed program, in every evaluation, whichever way kalman1d takes its arguments: the slot of an
      unconditional call is stepped exactly once and every other slot at most once, although structurally equal
      calls share slots. */
  lemma EachSlotSteppedOnce<M, V, S>(env: Env<M, V, S>, bodies: seq<Expr>, slots: map<int, S>, id: int)
    requires WellFormedArgs(bodies)
    ensures var withIds := AllocateProgram(bodies, 1).0;
      && RunnableArgs(withIds)
      && var steps := EvalProgram(env, withIds, slots, multiset{}).2;
         steps[id] <= 1 && (id in AllLive(withIds) ==> steps[id] == 1)
  {
    hide KindOf, AllocateProgram, EvalProgram;
    ProgramStepsOnce(env, bodies, 1, slots, multiset{});
  }
}

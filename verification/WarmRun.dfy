/** Running the specialised program: why `ComputeProgramWarmupThreshold` ticks are enough. */
module WarmRun {
  import opened Ast
  import opened Evaluation
  import opened Sharing
  import opened NodeIds
  import opened AllocSound
  import opened CodegenCorrect
  import opened Program
  import opened Streams
  import opened StreamsProgram
  import opened AllocSteady
  import opened StepCounts
  import opened Warm

  /** Collected ids are ids that every evaluation steps. */
  lemma {:induction false} WalkCollects(e: Expr, st: AllocState, avail: set<int>, met: set<int>, bound: nat)
    requires Unallocated(e) && Inv(st, avail, met, bound) && Size(e) <= bound
    ensures Calls(st) && CollectWarmSafe(Walk(e, true, st).0) <= AvailAfter(Walk(e, true, st).0, avail)
    decreases e, 1
  {
    InvFacts(st, avail, met, bound);
    hide KindOf, Inv, Known;
    match e
    case Unary(_, x) => WalkCollects(x, st, avail, met, bound);
    case Binary(_, l, r) =>
      WalkCollects(l, st, avail, met, bound);
      assert Known({}, st.seen, avail, bound) by { NoneKnown(st.seen, avail, bound); }
      var st1, a1, m1 := AfterUncond(l, st, avail, met, bound, {});
      WalkCollects(r, st1, a1, m1, bound);
    case Cond(c, t, f) => WalkCollects(c, st, avail, met, bound);
    case Call(n, args, _) =>
      if IsStatefulOp(n) {
        WalkCollectsStateful(e, st, avail, met, bound);
      } else {
        WarmableStateful(n);
        WalkCollectsArgs(args, st, avail, met, bound);
      }
    case _ => {}
  }

  lemma NoneKnown(seen: seq<SeenStateful>, avail: set<int>, bound: nat)
    ensures Known({}, seen, avail, bound)
  {
  }

  lemma {:induction false} WalkCollectsStateful(e: Expr, st: AllocState, avail: set<int>, met: set<int>, bound: nat)
    requires e.Call? && IsStatefulOp(e.name)
    requires Unallocated(e) && Inv(st, avail, met, bound) && Size(e) <= bound
    ensures Calls(st) && CollectWarmSafe(Walk(e, true, st).0) <= AvailAfter(Walk(e, true, st).0, avail)
    decreases e, 0
  {
    InvFacts(st, avail, met, bound);
    hide KindOf;
    if TryAliasNodeId(st.seen, e) > 0 {
      AliasIsCached(e, st, avail, met, bound);
      WalkCollectsCoveredArgs(e.args, st, avail, met, bound);
      assert Assign(e, true, st) == (TryAliasNodeId(st.seen, e), st);
    } else {
      var id, inner := st.nextId, Size(e) - 1;
      var entry := SeenStateful(e.(nodeId := id), true);
      var st1 := AllocState(id + 1, st.seen + [entry]);
      EntryClone(e, id);
      InvPushed(st, avail, met, bound, entry, inner);
      WalkCollectsArgs(e.args, st1, avail, met, inner);
      assert Assign(e, true, st) == (id, st1);
    }
  }

  lemma {:induction false} WalkCollectsArgs(args: seq<Expr>, st: AllocState, avail: set<int>, met: set<int>, bound: nat)
    requires UnallocatedArgs(args) && Inv(st, avail, met, bound) && SizeArgs(args) <= bound
    ensures Calls(st) && CollectWarmSafeArgs(WalkArgs(args, true, st).0) <=
            AvailAfterArgs(WalkArgs(args, true, st).0, avail)
    decreases args, 0
  {
    InvFacts(st, avail, met, bound);
    hide KindOf, Inv, Known;
    if args != [] {
      WalkCollects(args[0], st, avail, met, bound);
      NoneKnown(st.seen, avail, bound);
      var st1, a1, m1 := AfterUncond(args[0], st, avail, met, bound, {});
      WalkCollectsArgs(args[1..], st1, a1, m1, bound);
      var a, rest := Walk(args[0], true, st).0, WalkArgs(args[1..], true, st1).0;
      assert ([a] + rest)[1..] == rest;
    }
  }

  lemma CoveredWalk(e: Expr, unconditional: bool, st: AllocState, avail: set<int>, met: set<int>, bound: nat,
                    calls: set<Expr>)
      returns (st1: AllocState)
    requires Unallocated(e) && Inv(st, avail, met, bound)
    requires unconditional ==> Covered(UncondCalls(e), st.seen, avail)
    requires Covered(calls, st.seen, avail)
    ensures Calls(st) && st1 == Walk(e, unconditional, st).1
    ensures Inv(st1, avail, met, bound) && Covered(calls, st1.seen, avail)
  {
    hide KindOf, UncondCalls, Keys;
    assert Ready(st);
    WalkCovered(e, unconditional, st, avail);
    st1 := Walk(e, unconditional, st).1;
    InvWithConditionals(st, st1, avail, met, met, bound);
    CoveredGrows(calls, st.seen, avail, st1.seen, avail);
  }

  /** Inside an aliased call everything unconditional is aliased too. */
  lemma {:induction false} WalkCollectsCovered(e: Expr, st: AllocState, avail: set<int>, met: set<int>, bound: nat)
    requires Unallocated(e) && Inv(st, avail, met, bound) && Size(e) <= bound && Covered(UncondCalls(e), st.seen, avail)
    ensures Calls(st) && CollectWarmSafe(Walk(e, true, st).0) <= avail
    decreases e, 1
  {
    InvFacts(st, avail, met, bound);
    match e
    case Unary(_, x) => WalkCollectsCovered(x, st, avail, met, bound);
    case Binary(_, l, r) =>
      assert Covered(UncondCalls(l), st.seen, avail) && Covered(UncondCalls(r), st.seen, avail);
      hide KindOf, Inv, Covered, Keys;
      WalkCollectsCovered(l, st, avail, met, bound);
      var st1 := CoveredWalk(l, true, st, avail, met, bound, UncondCalls(r));
      WalkCollectsCovered(r, st1, avail, met, bound);
    case Cond(c, _, _) => WalkCollectsCovered(c, st, avail, met, bound);
    case Call(n, args, _) =>
      assert Covered(UncondCallsArgs(args), st.seen, avail);
      if IsStatefulOp(n) {
        CoveredAliases(e, st, avail, met, bound);
        AliasIsCached(e, st, avail, met, bound);
        assert Assign(e, true, st) == (TryAliasNodeId(st.seen, e), st);
      } else {
        WarmableStateful(n);
      }
      hide KindOf, Inv, Covered, Keys;
      WalkCollectsCoveredArgs(args, st, avail, met, bound);
    case _ => {}
  }

  lemma CoveredAliases(e: Expr, st: AllocState, avail: set<int>, met: set<int>, bound: nat)
    requires e.Call? && IsStatefulOp(e.name) && Inv(st, avail, met, bound) && Covered(UncondCalls(e), st.seen, avail)
    ensures TryAliasNodeId(st.seen, e) > 0
  {
    assert CloneExpr(e) in UncondCalls(e);
    assert CloneExpr(e) in Keys(st.seen, avail);
    var s :| s in st.seen && s.unconditional && s.node.Call? && s.node.nodeId in avail &&
      CloneExpr(e) == CloneExpr(s.node);
    AliasFound(st.seen, e);
  }

  lemma {:induction false} WalkCollectsCoveredArgs(args: seq<Expr>, st: AllocState, avail: set<int>, met: set<int>,
                                                   bound: nat)
    requires UnallocatedArgs(args) && Inv(st, avail, met, bound) && SizeArgs(args) <= bound &&
             Covered(UncondCallsArgs(args), st.seen, avail)
    ensures Calls(st) && CollectWarmSafeArgs(WalkArgs(args, true, st).0) <= avail
    decreases args, 0
  {
    InvFacts(st, avail, met, bound);
    if args != [] {
      assert Covered(UncondCalls(args[0]), st.seen, avail) && Covered(UncondCallsArgs(args[1..]), st.seen, avail);
      hide KindOf, Inv, Covered, Keys;
      WalkCollectsCovered(args[0], st, avail, met, bound);
      var st1 := CoveredWalk(args[0], true, st, avail, met, bound, UncondCallsArgs(args[1..]));
      WalkCollectsCoveredArgs(args[1..], st1, avail, met, bound);
      var a, rest := Walk(args[0], true, st).0, WalkArgs(args[1..], true, st1).0;
      assert ([a] + rest)[1..] == rest;
    }
  }

  lemma {:induction false} AllocateCollects(bodies: seq<Expr>, nextId: int)
    requires WellFormedArgs(bodies) && nextId > 0
    ensures CollectAll(AllocateProgram(bodies, nextId).0) <= AllLive(AllocateProgram(bodies, nextId).0)
    decreases bodies
  {
    hide KindOf, AvailAfter, CollectWarmSafe, WellFormed, Inv;
    if bodies != [] {
      var st := AllocState(nextId, []);
      WellFormedUnallocated(bodies[0]);
      FreshInv(nextId, Size(bodies[0]));
      WalkCollects(bodies[0], st, {}, {}, Size(bodies[0]));
      WalkGrows(bodies[0], st, Size(bodies[0]));
      var (body, st1) := Walk(bodies[0], true, st);
      AllocateCollects(bodies[1..], st1.nextId);
      var rest := AllocateProgram(bodies[1..], st1.nextId).0;
      assert ([body] + rest)[1..] == rest;
    }
  }

  lemma FreshInv(nextId: int, bound: nat)
    requires nextId > 0
    ensures Inv(AllocState(nextId, []), {}, {}, bound)
  {
  }

  lemma WalkGrows(e: Expr, st: AllocState, bound: nat)
    requires Unallocated(e) && Inv(st, {}, {}, bound) && Size(e) <= bound
    ensures Calls(st) && Walk(e, true, st).1.nextId > 0
  {
    InvFacts(st, {}, {}, bound);
    WalkSound(e, true, st, {}, {}, bound);
  }

  /** The laws a warm variant has to obey.  `ripe(k, s, n)` says that the machine of call `k` may be in
      state `s` after `n` steps or more; after `ticks(k)` of them, both variants do the same. */
  ghost predicate WarmLaws<M, V(!new), S(!new)>(ops: Ops<M, V, S>, ripe: (Expr, S, nat) -> bool, ticks: Expr -> int) {
    && (forall k: Expr :: Warmed(k) ==> ripe(k, ops.init(k), 0))
    && (forall k: Expr, vs: seq<V>, s: S, n: nat :: Warmed(k) && ripe(k, s, n) ==> ripe(k, ops.step(k, vs, s).1, n + 1))
    && (forall k: Expr, s: S, m: nat, n: nat :: m <= n && ripe(k, s, n) ==> ripe(k, s, m))
    && (forall k: Expr, vs: seq<V>, s: S, n: nat :: Warmed(k) && ripe(k, s, n) && n >= ticks(k) ==>
      ops.warm(k, vs, s) == ops.step(k, vs, s))
  }

  ghost predicate Warmed(k: Expr) {
    k.Call? && IsWarmable(k.name)
  }

  /** The slot of a warm-safe id has seen at least `n` steps. */
  ghost predicate RipeAt<M, V, S>(ops: Ops<M, V, S>, ripe: (Expr, S, nat) -> bool, k: Expr, slots: map<int, S>, id: int,
                                  n: nat)
  {
    Warmed(k) && ripe(k, if id in slots then slots[id] else ops.init(k), n)
  }

  lemma RipeLess<M, V(!new), S(!new)>(ops: Ops<M, V, S>, ripe: (Expr, S, nat) -> bool, ticks: Expr -> int, k: Expr,
                                      slots: map<int, S>, id: int, m: nat, n: nat)
    requires WarmLaws(ops, ripe, ticks) && RipeAt(ops, ripe, k, slots, id, n) && m <= n
    ensures RipeAt(ops, ripe, k, slots, id, m)
  {
  }

  /** What one evaluation does to the age of slot `id`. */
  ghost predicate Aged<M, V, S>(ops: Ops<M, V, S>, ripe: (Expr, S, nat) -> bool, k: Expr, id: int, m: nat,
                                st: EvalState<V, S>, st': EvalState<V, S>)
  {
    && st.cache.Keys <= st'.cache.Keys
    && RipeAt(ops, ripe, k, st'.slots, id, m)
    && (id in st'.cache && id !in st.cache ==> RipeAt(ops, ripe, k, st'.slots, id, m + 1))
  }

  lemma AgedTrans<M, V(!new), S(!new)>(ops: Ops<M, V, S>, ripe: (Expr, S, nat) -> bool, ticks: Expr -> int, k: Expr,
                                       id: int, m: nat, a: EvalState<V, S>, b: EvalState<V, S>, c: EvalState<V, S>,
                                       m': nat)
    requires WarmLaws(ops, ripe, ticks)
    requires Aged(ops, ripe, k, id, m, a, b) && Aged(ops, ripe, k, id, m', b, c)
    requires m' == if id in b.cache && id !in a.cache then m + 1 else m
    ensures Aged(ops, ripe, k, id, m, a, c)
  {
    RipeLess(ops, ripe, ticks, k, c.slots, id, m, m');
  }

  lemma AgedFire<M, V(!new), S(!new)>(env: Env<M, V, S>, ripe: (Expr, S, nat) -> bool, ticks: Expr -> int,
                                      key: map<int, Expr>, call: Expr, vs: seq<V>, st: EvalState<V, S>, id: int, m: nat)
    requires WarmLaws(env.ops, ripe, ticks) && env.warmIds == {} && call.Call?
    requires id in key && RipeAt(env.ops, ripe, key[id], st.slots, id, m)
    requires call.nodeId in key && key[call.nodeId] == CloneExpr(call)
    ensures Aged(env.ops, ripe, key[id], id, m, st, Fire(env, call, vs, st).1)
  {
    var st' := Fire(env, call, vs, st).1;
    if id == call.nodeId {
      assert RipeAt(env.ops, ripe, key[id], st'.slots, id, m + 1);
      RipeLess(env.ops, ripe, ticks, key[id], st'.slots, id, m, m + 1);
    }
  }

  lemma ThreeConsistent(a: Expr, b: Expr, c: Expr, key: map<int, Expr>)
    ensures ConsistentArgs([a, b, c], key) <==> Consistent(a, key) && Consistent(b, key) && Consistent(c, key)
  {
    hide Consistent;
    assert [a, b, c][1..] == [b, c] && [b, c][1..] == [c] && [c][1..] == [];
    assert ConsistentArgs([c], key) <==> Consistent(c, key) && ConsistentArgs([], key);
    assert ConsistentArgs([b, c], key) <==> Consistent(b, key) && ConsistentArgs([c], key);
  }

  lemma OrderConsistent(noiseFirst: bool, e: Expr, key: map<int, Expr>)
    requires Runnable(e) && e.Call? && IsStatefulOp(e.name) && Consistent(e, key)
    ensures ConsistentArgs(ArgOrder(noiseFirst, e.name, e.args), key)
  {
    if KindOf(e.name).Kalman1d? {
      var a := e.args;
      assert a == [a[0], a[1], a[2]];
      ThreeConsistent(a[0], a[1], a[2], key);
      ThreeConsistent(a[1], a[2], a[0], key);
    } else {
      SourceArgsSteady(e, key, {});
    }
  }

  /** Evaluation never makes a slot younger, and makes it older when it steps it. */
  lemma {:induction false} EvalAges<M, V(!new), S(!new)>(env: Env<M, V, S>, ripe: (Expr, S, nat) -> bool,
                                                         ticks: Expr -> int, key: map<int, Expr>, e: Expr,
                                                         st: EvalState<V, S>, id: int, m: nat)
    requires Runnable(e) && Consistent(e, key) && WarmLaws(env.ops, ripe, ticks) && env.warmIds == {}
    requires id in key && RipeAt(env.ops, ripe, key[id], st.slots, id, m)
    ensures Aged(env.ops, ripe, key[id], id, m, st, Eval(env, e, st).1)
    decreases Size(e), 1
  {
    hide KindOf, RipeAt, WarmLaws, Fire;
    var k := key[id];
    match e
    case Num(_) => {}
    case Param(_, _) => {}
    case Unary(_, x) => EvalAges(env, ripe, ticks, key, x, st, id, m);
    case Binary(_, l, r) =>
      EvalAges(env, ripe, ticks, key, l, st, id, m);
      var st1 := Eval(env, l, st).1;
      var m1 := if id in st1.cache && id !in st.cache then m + 1 else m;
      EvalAges(env, ripe, ticks, key, r, st1, id, m1);
      AgedTrans(env.ops, ripe, ticks, k, id, m, st, st1, Eval(env, r, st1).1, m1);
    case Cond(c, t, f) =>
      EvalAges(env, ripe, ticks, key, c, st, id, m);
      var (cv, st1) := Eval(env, c, st);
      var m1 := if id in st1.cache && id !in st.cache then m + 1 else m;
      var b := if env.ops.isTrue(cv) then t else f;
      EvalAges(env, ripe, ticks, key, b, st1, id, m1);
      AgedTrans(env.ops, ripe, ticks, k, id, m, st, st1, Eval(env, b, st1).1, m1);
    case Call(n, args, nid) =>
      if nid > 0 && nid in st.cache {
      } else if IsMarketFn(n) {
      } else if IsMathFn(n) {
        SingleArg(args);
        EvalAges(env, ripe, ticks, key, args[0], st, id, m);
      } else {
        OrderRunnable(env.noiseFirst, e);
        OrderConsistent(env.noiseFirst, e, key);
        var o := ArgOrder(env.noiseFirst, n, args);
        EvalAgesArgs(env, ripe, ticks, key, o, st, id, m);
        var (vs, st1) := EvalArgs(env, o, st);
        var m1 := if id in st1.cache && id !in st.cache then m + 1 else m;
        var inputs := MarketInput(env, n, args) + SourceOrder(env.noiseFirst, n, vs);
        AgedFire(env, ripe, ticks, key, e, inputs, st1, id, m1);
        AgedTrans(env.ops, ripe, ticks, k, id, m, st, st1, Fire(env, e, inputs, st1).1, m1);
      }
  }

  lemma {:induction false} EvalAgesArgs<M, V(!new), S(!new)>(env: Env<M, V, S>, ripe: (Expr, S, nat) -> bool,
                                                             ticks: Expr -> int, key: map<int, Expr>, args: seq<Expr>,
                                                             st: EvalState<V, S>, id: int, m: nat)
    requires RunnableArgs(args) && ConsistentArgs(args, key) && WarmLaws(env.ops, ripe, ticks) && env.warmIds == {}
    requires id in key && RipeAt(env.ops, ripe, key[id], st.slots, id, m)
    ensures Aged(env.ops, ripe, key[id], id, m, st, EvalArgs(env, args, st).1)
    decreases SizeArgs(args), 2, |args|
  {
    hide KindOf, RipeAt, WarmLaws;
    if args != [] {
      EvalAges(env, ripe, ticks, key, args[0], st, id, m);
      var st1 := Eval(env, args[0], st).1;
      var m1 := if id in st1.cache && id !in st.cache then m + 1 else m;
      EvalAgesArgs(env, ripe, ticks, key, args[1..], st1, id, m1);
      AgedTrans(env.ops, ripe, ticks, key[id], id, m, st, st1, EvalArgs(env, args[1..], st1).1, m1);
    }
  }

  /** All warm-safe slots have seen enough steps. */
  ghost predicate AllRipe<M, V, S>(ops: Ops<M, V, S>, ripe: (Expr, S, nat) -> bool, ticks: Expr -> int,
                                   key: map<int, Expr>, ids: set<int>, slots: map<int, S>, n: nat)
  {
    forall id <- ids :: id in key && RipeAt(ops, ripe, key[id], slots, id, n) && ticks(key[id]) <= n
  }

  lemma AllRipeAfter<M, V(!new), S(!new)>(env: Env<M, V, S>, ripe: (Expr, S, nat) -> bool, ticks: Expr -> int,
                                          key: map<int, Expr>, ids: set<int>, e: Expr, st: EvalState<V, S>, n: nat)
    requires Runnable(e) && Consistent(e, key) && WarmLaws(env.ops, ripe, ticks) && env.warmIds == {}
    requires AllRipe(env.ops, ripe, ticks, key, ids, st.slots, n)
    ensures AllRipe(env.ops, ripe, ticks, key, ids, Eval(env, e, st).1.slots, n)
  {
    hide KindOf, RipeAt, WarmLaws, Eval;
    var st' := Eval(env, e, st).1;
    forall id | id in ids ensures id in key && RipeAt(env.ops, ripe, key[id], st'.slots, id, n) && ticks(key[id]) <= n {
      EvalAges(env, ripe, ticks, key, e, st, id, n);
    }
  }

  lemma AllRipeAfterArgs<M, V(!new), S(!new)>(env: Env<M, V, S>, ripe: (Expr, S, nat) -> bool, ticks: Expr -> int,
                                              key: map<int, Expr>, ids: set<int>, args: seq<Expr>, st: EvalState<V, S>,
                                              n: nat)
    requires RunnableArgs(args) && ConsistentArgs(args, key) && WarmLaws(env.ops, ripe, ticks) && env.warmIds == {}
    requires AllRipe(env.ops, ripe, ticks, key, ids, st.slots, n)
    ensures AllRipe(env.ops, ripe, ticks, key, ids, EvalArgs(env, args, st).1.slots, n)
  {
    hide KindOf, RipeAt, WarmLaws, Eval, EvalArgs;
    var st' := EvalArgs(env, args, st).1;
    forall id | id in ids ensures id in key && RipeAt(env.ops, ripe, key[id], st'.slots, id, n) && ticks(key[id]) <= n {
      EvalAgesArgs(env, ripe, ticks, key, args, st, id, n);
    }
  }

  lemma SameFire<M, V(!new), S(!new)>(env: Env<M, V, S>, ripe: (Expr, S, nat) -> bool, ticks: Expr -> int,
                                      key: map<int, Expr>, ids: set<int>, call: Expr, vs: seq<V>, st: EvalState<V, S>,
                                      n: nat)
    requires WarmLaws(env.ops, ripe, ticks) && env.warmIds == {} && call.Call?
    requires AllRipe(env.ops, ripe, ticks, key, ids, st.slots, n)
    requires call.nodeId in key && key[call.nodeId] == CloneExpr(call)
    ensures Fire(env.(warmIds := ids), call, vs, st) == Fire(env, call, vs, st)
  {
  }

  /** With ripe slots, evaluating without guards is evaluating. */
  lemma {:induction false} WarmSame<M, V(!new), S(!new)>(env: Env<M, V, S>, ripe: (Expr, S, nat) -> bool,
                                                         ticks: Expr -> int, key: map<int, Expr>, ids: set<int>,
                                                         e: Expr, st: EvalState<V, S>, n: nat)
    requires Runnable(e) && Consistent(e, key) && WarmLaws(env.ops, ripe, ticks) && env.warmIds == {}
    requires AllRipe(env.ops, ripe, ticks, key, ids, st.slots, n)
    ensures Eval(env.(warmIds := ids), e, st) == Eval(env, e, st)
    decreases Size(e), 1
  {
    hide KindOf, AllRipe, WarmLaws, Fire;
    match e
    case Num(_) => {}
    case Param(_, _) => {}
    case Unary(_, x) => WarmSame(env, ripe, ticks, key, ids, x, st, n);
    case Binary(_, l, r) =>
      WarmSame(env, ripe, ticks, key, ids, l, st, n);
      AllRipeAfter(env, ripe, ticks, key, ids, l, st, n);
      WarmSame(env, ripe, ticks, key, ids, r, Eval(env, l, st).1, n);
    case Cond(c, t, f) =>
      WarmSame(env, ripe, ticks, key, ids, c, st, n);
      AllRipeAfter(env, ripe, ticks, key, ids, c, st, n);
      var st1 := Eval(env, c, st).1;
      WarmSame(env, ripe, ticks, key, ids, t, st1, n);
      WarmSame(env, ripe, ticks, key, ids, f, st1, n);
    case Call(name, args, nid) =>
      if nid > 0 && nid in st.cache {
      } else if IsMarketFn(name) {
      } else if IsMathFn(name) {
        SingleArg(args);
        WarmSame(env, ripe, ticks, key, ids, args[0], st, n);
      } else {
        OrderRunnable(env.noiseFirst, e);
        OrderConsistent(env.noiseFirst, e, key);
        var o := ArgOrder(env.noiseFirst, name, args);
        WarmSameArgs(env, ripe, ticks, key, ids, o, st, n);
        AllRipeAfterArgs(env, ripe, ticks, key, ids, o, st, n);
        var (vs, st1) := EvalArgs(env, o, st);
        SameFire(env, ripe, ticks, key, ids, e, MarketInput(env, name, args) + SourceOrder(env.noiseFirst, name, vs),
                 st1, n);
      }
  }

  lemma {:induction false} WarmSameArgs<M, V(!new), S(!new)>(env: Env<M, V, S>, ripe: (Expr, S, nat) -> bool,
                                                             ticks: Expr -> int, key: map<int, Expr>, ids: set<int>,
                                                             args: seq<Expr>, st: EvalState<V, S>, n: nat)
    requires RunnableArgs(args) && ConsistentArgs(args, key) && WarmLaws(env.ops, ripe, ticks) && env.warmIds == {}
    requires AllRipe(env.ops, ripe, ticks, key, ids, st.slots, n)
    ensures EvalArgs(env.(warmIds := ids), args, st) == EvalArgs(env, args, st)
    decreases SizeArgs(args), 2, |args|
  {
    hide KindOf, AllRipe, WarmLaws;
    if args != [] {
      WarmSame(env, ripe, ticks, key, ids, args[0], st, n);
      AllRipeAfter(env, ripe, ticks, key, ids, args[0], st, n);
      WarmSameArgs(env, ripe, ticks, key, ids, args[1..], Eval(env, args[0], st).1, n);
    }
  }

  /** A tick of the baseline program ages every slot it surely steps. */
  lemma {:induction false} TickAges<M, V(!new), S(!new)>(env: Env<M, V, S>, ripe: (Expr, S, nat) -> bool,
                                                         ticks: Expr -> int, key: map<int, Expr>, bodies: seq<Expr>,
                                                         slots: map<int, S>, log: multiset<int>, seen: set<int>,
                                                         id: int, m: nat)
    requires RunnableArgs(bodies) && LeftToRight(env) && ProgramShared(bodies, seen) && ConsistentArgs(bodies, key)
    requires WarmLaws(env.ops, ripe, ticks) && env.warmIds == {}
    requires id in key && RipeAt(env.ops, ripe, key[id], slots, id, m)
    ensures var slots' := EvalProgram(env, bodies, slots, log).1;
      && RipeAt(env.ops, ripe, key[id], slots', id, m)
      && (id in AllLive(bodies) ==> RipeAt(env.ops, ripe, key[id], slots', id, m + 1))
    decreases bodies
  {
    hide KindOf, RipeAt, WarmLaws, Eval, Stepped;
    if bodies != [] {
      var st0: EvalState<V, S> := EvalState(slots, map[], log);
      assert st0.cache.Keys == {};
      EvalSteps(env, bodies[0], st0, {}, seen);
      EvalAges(env, ripe, ticks, key, bodies[0], st0, id, m);
      var st := Eval(env, bodies[0], st0).1;
      var m1 := if id in AvailAfter(bodies[0], {}) then m + 1 else m;
      TickAges(env, ripe, ticks, key, bodies[1..], st.slots, st.log, SeenAfter(bodies[0], {}, seen), id, m1);
      RipeLess(env.ops, ripe, ticks, key[id], EvalProgram(env, bodies, slots, log).1, id, m, m1);
    }
  }

  /** A tick of the specialised program, once the slots are ripe. */
  lemma {:induction false} TickSame<M, V(!new), S(!new)>(env: Env<M, V, S>, ripe: (Expr, S, nat) -> bool,
                                                         ticks: Expr -> int, key: map<int, Expr>, ids: set<int>,
                                                         bodies: seq<Expr>, slots: map<int, S>, log: multiset<int>,
                                                         n: nat)
    requires RunnableArgs(bodies) && ConsistentArgs(bodies, key)
    requires WarmLaws(env.ops, ripe, ticks) && env.warmIds == {} && AllRipe(env.ops, ripe, ticks, key, ids, slots, n)
    ensures EvalProgram(env.(warmIds := ids), bodies, slots, log) == EvalProgram(env, bodies, slots, log)
    ensures AllRipe(env.ops, ripe, ticks, key, ids, EvalProgram(env, bodies, slots, log).1, n)
    decreases bodies
  {
    hide KindOf, AllRipe, WarmLaws, Eval;
    if bodies != [] {
      var st0: EvalState<V, S> := EvalState(slots, map[], log);
      WarmSame(env, ripe, ticks, key, ids, bodies[0], st0, n);
      AllRipeAfter(env, ripe, ticks, key, ids, bodies[0], st0, n);
      var st := Eval(env, bodies[0], st0).1;
      TickSame(env, ripe, ticks, key, ids, bodies[1..], st.slots, st.log, n);
    }
  }

  /** Outputs of a run of ticks, and the context it leaves; `ids` are compiled without guards. */
  ghost function RunTicks<M, V, S>(ops: Ops<M, V, S>, params: int -> V, ids: set<int>, bodies: seq<Expr>,
                                   slots: map<int, S>, ms: seq<M>)
      : (seq<seq<V>>, map<int, S>)
    requires RunnableArgs(bodies)
    decreases |ms|
  {
    if ms == [] then ([], slots)
    else
      var (vs, slots1, _) := EvalProgram(Env(ops, ms[0], params, ids, false), bodies, slots, multiset{});
      var (rest, slots2) := RunTicks(ops, params, ids, bodies, slots1, ms[1..]);
      ([vs] + rest, slots2)
  }

  lemma {:induction false} RunAges<M, V(!new), S(!new)>(ops: Ops<M, V, S>, params: int -> V,
                                                        ripe: (Expr, S, nat) -> bool, ticks: Expr -> int,
                                                        key: map<int, Expr>, bodies: seq<Expr>, slots: map<int, S>,
                                                        ms: seq<M>, id: int, m: nat)
    requires RunnableArgs(bodies) && ProgramShared(bodies, {}) && ConsistentArgs(bodies, key)
    requires WarmLaws(ops, ripe, ticks) && id in AllLive(bodies)
    requires id in key && RipeAt(ops, ripe, key[id], slots, id, m)
    ensures RipeAt(ops, ripe, key[id], RunTicks(ops, params, {}, bodies, slots, ms).1, id, m + |ms|)
    decreases |ms|
  {
    hide KindOf, RipeAt, WarmLaws, EvalProgram;
    if ms != [] {
      var env := Env(ops, ms[0], params, {}, false);
      TickAges(env, ripe, ticks, key, bodies, slots, multiset{}, {}, id, m);
      RunAges(ops, params, ripe, ticks, key, bodies, EvalProgram(env, bodies, slots, multiset{}).1, ms[1..], id, m + 1);
    }
  }

  lemma {:induction false} RunSame<M, V(!new), S(!new)>(ops: Ops<M, V, S>, params: int -> V,
                                                        ripe: (Expr, S, nat) -> bool, ticks: Expr -> int,
                                                        key: map<int, Expr>, ids: set<int>, bodies: seq<Expr>,
                                                        slots: map<int, S>, ms: seq<M>, n: nat)
    requires RunnableArgs(bodies) && ConsistentArgs(bodies, key)
    requires WarmLaws(ops, ripe, ticks) && AllRipe(ops, ripe, ticks, key, ids, slots, n)
    ensures RunTicks(ops, params, ids, bodies, slots, ms) == RunTicks(ops, params, {}, bodies, slots, ms)
    decreases |ms|
  {
    hide KindOf, AllRipe, WarmLaws, EvalProgram;
    if ms != [] {
      var env := Env(ops, ms[0], params, {}, false);
      TickSame(env, ripe, ticks, key, ids, bodies, slots, multiset{}, n);
      RunSame(ops, params, ripe, ticks, key, ids, bodies, EvalProgram(env, bodies, slots, multiset{}).1, ms[1..], n);
    }
  }

  /** Ids stand for structures in every allocated program. */
  lemma {:induction false} AllocateConsistent(bodies: seq<Expr>, nextId: int) returns (key: map<int, Expr>)
    requires WellFormedArgs(bodies) && nextId > 0
    ensures ConsistentArgs(AllocateProgram(bodies, nextId).0, key)
    ensures forall i <- key :: nextId <= i
    decreases bodies
  {
    hide KindOf, Walk, Consistent, WellFormed;
    if bodies == [] {
      key := map[];
    } else {
      var st0 := AllocState(nextId, []);
      WellFormedUnallocated(bodies[0]);
      WalkConsistent(bodies[0], true, st0, nextId, map[]);
      var (body, st) := Walk(bodies[0], true, st0);
      var first := KeysOf(st, nextId);
      WalkConsistent(bodies[0], true, st0, nextId, first);
      var rest := AllocateConsistent(bodies[1..], st.nextId);
      key := first + rest;
      var bodies' := AllocateProgram(bodies[1..], st.nextId).0;
      ConsistentGrows(body, first, key);
      ConsistentArgsGrow(bodies', rest, key);
      assert ([body] + bodies')[1..] == bodies';
    }
  }

  /** What a call needs before its guards are dead, read off its own text. */
  function OwnTicks(k: Expr, intOf: Bits64 -> int): int {
    if k.Call? then OpThreshold(k.name, k.args, intOf) else 0
  }

  /** The specialised program is the baseline program, from the warm-up threshold on: whatever ticks come
      before and after, outputs and contexts agree from then on. */
  lemma SpecialisedAfterThreshold<M, V(!new), S(!new)>(ops: Ops<M, V, S>, params: int -> V,
                                                       ripe: (Expr, S, nat) -> bool, intOf: Bits64 -> int,
                                                       bodies: seq<Expr>, before: seq<M>, after: seq<M>)
    requires WellFormedArgs(bodies)
    requires WarmLaws(ops, ripe, k => OwnTicks(k, intOf))
    requires |before| >= ComputeProgramWarmupThreshold(AllocateProgram(bodies, 1).0, intOf)
    ensures RunnableArgs(AllocateProgram(bodies, 1).0)
    ensures var withIds := AllocateProgram(bodies, 1).0;
      var warmed := RunTicks(ops, params, {}, withIds, map[], before).1;
      RunTicks(ops, params, CollectAll(withIds), withIds, warmed, after) ==
          RunTicks(ops, params, {}, withIds, warmed, after)
  {
    hide KindOf, AllocateProgram, EvalProgram, WarmLaws, Consistent;
    AllocateProgramSound(bodies, 1, {});
    AllocateCollects(bodies, 1);
    var withIds := AllocateProgram(bodies, 1).0;
    var key := AllocateConsistent(bodies, 1);
    var ids, ticks := CollectAll(withIds), k => OwnTicks(k, intOf);
    ThresholdCoversArgs(withIds, key, 0, intOf);
    var slots0: map<int, S> := map[];
    var warmed := RunTicks(ops, params, {}, withIds, slots0, before).1;
    forall id | id in ids
      ensures id in key && RipeAt(ops, ripe, key[id], warmed, id, |before|) && ticks(key[id]) <= |before|
    {
      FreshRipe(ops, ripe, ticks, key[id], id);
      RunAges(ops, params, ripe, ticks, key, withIds, slots0, before, id, 0);
    }
    RunSame(ops, params, ripe, ticks, key, ids, withIds, warmed, after, |before|);
  }

  lemma FreshRipe<M, V(!new), S(!new)>(ops: Ops<M, V, S>, ripe: (Expr, S, nat) -> bool, ticks: Expr -> int, k: Expr,
                                       id: int)
    requires WarmLaws(ops, ripe, ticks) && Warmed(k)
    ensures RipeAt(ops, ripe, k, map[], id, 0)
  {
  }
}

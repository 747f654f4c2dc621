/** What a signal means on a whole run, with no slots, ids or caches: every stateful call is a machine of its
    own, determined by the call's structure, that takes one step at every tick. */
module Streams {
  import opened Ast
  import opened Evaluation
  import opened Sharing
  import opened CodegenCorrect
  import opened Program

  ghost function EnvAt<M, V, S>(ops: Ops<M, V, S>, params: int -> V, m: M): Env<M, V, S> {
    Env(ops, m, params, {}, false)
  }

  /** The value of `e` at the last of the ticks `ms`. */
  ghost function Val<M, V, S>(ops: Ops<M, V, S>, params: int -> V, e: Expr, ms: seq<M>): V
    requires WellFormed(e) && |ms| > 0
    decreases |ms|, Size(e), 2
  {
    match e
    case Num(b) => ops.num(b)
    case Param(_, id) => params(id)
    case Unary(op, x) => if op == Plus then Val(ops, params, x, ms) else ops.neg(Val(ops, params, x, ms))
    case Binary(op, l, r) => ops.bin(op, Val(ops, params, l, ms), Val(ops, params, r, ms))
    case Cond(c, t, f) =>
      if ops.isTrue(Val(ops, params, c, ms)) then Val(ops, params, t, ms) else Val(ops, params, f, ms)
    case Call(n, args, _) =>
      if IsMarketFn(n) then ops.market(ms[|ms| - 1], n, args[0].name)
      else if IsMathFn(n) then
        SingleArgWellFormed(args);
        ops.math(n, Val(ops, params, args[0], ms))
      else
        ops.step(CloneExpr(e), Inputs(ops, params, e, ms), StateOf(ops, params, e, ms[..|ms| - 1])).0
  }

  /** The state of the machine of a stateful call after the ticks `ms`. */
  ghost function StateOf<M, V, S>(ops: Ops<M, V, S>, params: int -> V, e: Expr, ms: seq<M>): S
    requires WellFormed(e) && e.Call? && IsStatefulOp(e.name)
    decreases |ms|, Size(e), 1
  {
    if ms == [] then ops.init(CloneExpr(e))
    else ops.step(CloneExpr(e), Inputs(ops, params, e, ms), StateOf(ops, params, e, ms[..|ms| - 1])).1
  }

  /** What its machine takes in at the last tick. */
  ghost function Inputs<M, V, S>(ops: Ops<M, V, S>, params: int -> V, e: Expr, ms: seq<M>): seq<V>
    requires WellFormed(e) && e.Call? && IsStatefulOp(e.name) && |ms| > 0
    decreases |ms|, Size(e), 0
  {
    SourceArgsSmaller(e);
    MarketInput(EnvAt(ops, params, ms[|ms| - 1]), e.name, e.args) + ValArgs(ops, params, SourceArgs(e.name, e.args), ms)
  }

  ghost function ValArgs<M, V, S>(ops: Ops<M, V, S>, params: int -> V, args: seq<Expr>, ms: seq<M>): (vs: seq<V>)
    requires WellFormedArgs(args) && |ms| > 0
    ensures |vs| == |args|
    decreases |ms|, SizeArgs(args), 3, |args|
  {
    if args == [] then []
    else [Val(ops, params, args[0], ms)] + ValArgs(ops, params, args[1..], ms)
  }

  lemma SingleArgWellFormed(args: seq<Expr>)
    requires |args| == 1
    ensures SizeArgs(args) == Size(args[0])
    ensures WellFormedArgs(args) <==> WellFormed(args[0])
  {
    assert args[1..] == [];
  }

  lemma SourceArgsSmaller(e: Expr)
    requires e.Call?
    ensures SizeArgs(SourceArgs(e.name, e.args)) < Size(e)
  {
  }

  /** Clones of what runs are well formed, so that the meaning is defined on them. */
  lemma {:induction false} CloneWellFormed(e: Expr)
    requires Runnable(e)
    ensures WellFormed(CloneExpr(e))
    decreases e, 1
  {
    hide KindOf;
    match e
    case Unary(_, x) => CloneWellFormed(x);
    case Binary(_, l, r) => CloneWellFormed(l); CloneWellFormed(r);
    case Cond(c, t, f) => CloneWellFormed(c); CloneWellFormed(t); CloneWellFormed(f);
    case Call(n, args, _) =>
      assert !KindOf(n).Unknown? by { KnownNames(n); }
      ClonesWellFormed(SourceArgs(n, args));
      SourceArgsClone(n, args);
    case _ => {}
  }

  lemma KnownNames(n: string)
    requires IsMarketFn(n) || IsMathFn(n) || IsStatefulOp(n)
    ensures !KindOf(n).Unknown?
  {
    hide KindOf;
  }

  lemma SourceArgsClone(n: string, args: seq<Expr>)
    ensures SourceArgs(n, CloneArgs(args)) == CloneArgs(SourceArgs(n, args))
  {
  }

  lemma {:induction false} ClonesWellFormed(args: seq<Expr>)
    requires RunnableArgs(args)
    ensures WellFormedArgs(CloneArgs(args))
    decreases args, 0
  {
    if args != [] {
      CloneWellFormed(args[0]);
      ClonesWellFormed(args[1..]);
      assert CloneArgs(args)[1..] == CloneArgs(args[1..]);
    }
  }

  /** The id of a stateful call stands for the call's structure. */
  predicate Consistent(e: Expr, key: map<int, Expr>)
    decreases e, 1
  {
    match e
    case Unary(_, x) => Consistent(x, key)
    case Binary(_, l, r) => Consistent(l, key) && Consistent(r, key)
    case Cond(c, t, f) => Consistent(c, key) && Consistent(t, key) && Consistent(f, key)
    case Call(n, args, id) =>
      (IsStatefulOp(n) ==> id in key && key[id] == CloneExpr(e)) && ConsistentArgs(args, key)
    case _ => true
  }

  predicate ConsistentArgs(args: seq<Expr>, key: map<int, Expr>)
    decreases args, 0
  {
    args == [] || (Consistent(args[0], key) && ConsistentArgs(args[1..], key))
  }

  /** Evaluating `e` only looks up cached ids. */
  predicate Hits(e: Expr, avail: set<int>)
    decreases e, 1
  {
    match e
    case Unary(_, x) => Hits(x, avail)
    case Binary(_, l, r) => Hits(l, avail) && Hits(r, avail)
    case Cond(c, t, f) => Hits(c, avail) && Hits(t, avail) && Hits(f, avail)
    case Call(n, args, id) => if IsStatefulOp(n) then id in avail else HitsArgs(args, avail)
    case _ => true
  }

  predicate HitsArgs(args: seq<Expr>, avail: set<int>)
    decreases args, 0
  {
    args == [] || (Hits(args[0], avail) && HitsArgs(args[1..], avail))
  }

  /** Inside branches, evaluation only looks up what was surely evaluated before. */
  predicate Steady(e: Expr, avail: set<int>)
    decreases e, 1
  {
    match e
    case Unary(_, x) => Steady(x, avail)
    case Binary(_, l, r) => Steady(l, avail) && Steady(r, AvailAfter(l, avail))
    case Cond(c, t, f) => Steady(c, avail) && Hits(t, AvailAfter(c, avail)) && Hits(f, AvailAfter(c, avail))
    case Call(n, args, id) => (IsStatefulOp(n) && id in avail) || SteadyArgs(args, avail)
    case _ => true
  }

  predicate SteadyArgs(args: seq<Expr>, avail: set<int>)
    decreases args, 0
  {
    args == [] || (Steady(args[0], avail) && SteadyArgs(args[1..], AvailAfter(args[0], avail)))
  }

  ghost predicate IsKey(k: Expr) {
    WellFormed(k) && k.Call? && IsStatefulOp(k.name) && CloneExpr(k) == k
  }

  /** One slot within a tick: stepped and cached, or still as the last tick left it. */
  ghost predicate GoodSlot<M, V, S>(env: Env<M, V, S>, k: Expr, id: int, st: EvalState<V, S>, ms: seq<M>)
    requires |ms| > 0
  {
    && IsKey(k)
    && if id in st.cache then
         st.cache[id] == Val(env.ops, env.params, k, ms)
         && id in st.slots && st.slots[id] == StateOf(env.ops, env.params, k, ms)
       else
         (if id in st.slots then st.slots[id] else env.ops.init(k)) == StateOf(env.ops, env.params, k, ms[..|ms| - 1])
  }

  ghost predicate Good<M, V, S>(env: Env<M, V, S>, key: map<int, Expr>, live: set<int>, st: EvalState<V, S>, ms: seq<M>)
  {
    && |ms| > 0 && env.market == ms[|ms| - 1] && env.warmIds == {}
    && live <= key.Keys && st.cache.Keys <= live
    && (forall id <- live :: GoodSlot(env, key[id], id, st, ms))
  }

  ghost predicate SlotsKept<S(!new)>(ids: set<int>, a: map<int, S>, b: map<int, S>) {
    forall id | id !in ids :: (id in b <==> id in a) && (id in a ==> b[id] == a[id])
  }

  /** Evaluation where everything stateful is cached: the plain value, and nothing changes. */
  lemma {:induction false} HitsVal<M, V, S>(env: Env<M, V, S>, key: map<int, Expr>, live: set<int>, e: Expr,
                                            st: EvalState<V, S>, ms: seq<M>)
    requires Runnable(e) && Consistent(e, key) && Good(env, key, live, st, ms) && Hits(e, st.cache.Keys)
    ensures WellFormed(CloneExpr(e)) && Eval(env, e, st) == (Val(env.ops, env.params, CloneExpr(e), ms), st)
    decreases e
  {
    hide KindOf, StateOf, Inputs;
    CloneWellFormed(e);
    match e
    case Num(_) => {}
    case Param(_, _) => {}
    case Unary(_, x) => HitsVal(env, key, live, x, st, ms);
    case Binary(_, l, r) => HitsVal(env, key, live, l, st, ms); HitsVal(env, key, live, r, st, ms);
    case Cond(c, t, f) =>
      HitsVal(env, key, live, c, st, ms);
      HitsVal(env, key, live, t, st, ms);
      HitsVal(env, key, live, f, st, ms);
    case Call(n, args, id) =>
      if IsStatefulOp(n) {
        assert GoodSlot(env, key[id], id, st, ms);
      } else if IsMathFn(n) {
        SingleArg(args);
        HitsVal(env, key, live, args[0], st, ms);
      }
  }

  /** Where a subtree's new ids come from. */
  ghost predicate NewIds(key: map<int, Expr>, size: nat, avail: set<int>, avail': set<int>) {
    avail <= avail' && forall id <- avail' - avail :: id in key && Size(key[id]) <= size
  }

  /** What evaluating one steady expression gives. */
  ghost predicate Valued<M, V, S(!new)>(env: Env<M, V, S>, key: map<int, Expr>, live: set<int>, e: Expr,
                                        st: EvalState<V, S>, ms: seq<M>)
    requires Runnable(e) && |ms| > 0
  {
    var (v, st') := Eval(env, e, st);
    && WellFormed(CloneExpr(e)) && v == Val(env.ops, env.params, CloneExpr(e), ms)
    && st'.cache.Keys == AvailAfter(e, st.cache.Keys)
    && Good(env, key, live, st', ms)
    && NewIds(key, Size(e), st.cache.Keys, st'.cache.Keys)
    && SlotsKept(live, st.slots, st'.slots)
  }

  lemma {:induction false} EvalVal<M, V, S(!new)>(env: Env<M, V, S>, key: map<int, Expr>, live: set<int>, e: Expr,
                                            st: EvalState<V, S>, ms: seq<M>)
    requires Runnable(e) && LeftToRight(env) && Consistent(e, key) && Steady(e, st.cache.Keys)
    requires Good(env, key, live, st, ms) && AvailAfter(e, st.cache.Keys) <= live
    ensures Valued(env, key, live, e, st, ms)
    decreases e, 1
  {
    assert env.market == ms[|ms| - 1];
    hide KindOf, StateOf, Inputs, Good;
    CloneWellFormed(e);
    match e
    case Num(_) => {}
    case Param(_, _) => {}
    case Unary(_, x) => EvalVal(env, key, live, x, st, ms);
    case Binary(_, l, r) =>
      assert AvailAfter(l, st.cache.Keys) <= live;
      EvalVal(env, key, live, l, st, ms);
      EvalVal(env, key, live, r, Eval(env, l, st).1, ms);
    case Cond(c, t, f) =>
      EvalVal(env, key, live, c, st, ms);
      var st1 := Eval(env, c, st).1;
      HitsVal(env, key, live, t, st1, ms);
      HitsVal(env, key, live, f, st1, ms);
    case Call(n, args, id) =>
      if IsStatefulOp(n) {
        EvalValStateful(env, key, live, e, st, ms);
      } else if IsMathFn(n) {
        SingleArg(args);
        SingleArgShared(args, st.cache.Keys, st.cache.Keys);
        assert args == [args[0]];
        EvalVal(env, key, live, args[0], st, ms);
      } else {
        SingleArgShared(args, st.cache.Keys, st.cache.Keys);
        assert IsTickerFn(n) && IsMarketFn(n) && args[0].Ident?;
        assert CloneArgs(args)[0] == args[0];
        assert AvailAfter(args[0], st.cache.Keys) == st.cache.Keys;
      }
  }

  ghost predicate ValuedArgs<M, V, S(!new)>(env: Env<M, V, S>, key: map<int, Expr>, live: set<int>, args: seq<Expr>,
                                            st: EvalState<V, S>, ms: seq<M>)
    requires RunnableArgs(args) && |ms| > 0
  {
    var (vs, st') := EvalArgs(env, args, st);
    && WellFormedArgs(CloneArgs(args)) && vs == ValArgs(env.ops, env.params, CloneArgs(args), ms)
    && st'.cache.Keys == AvailAfterArgs(args, st.cache.Keys)
    && Good(env, key, live, st', ms)
    && NewIds(key, SizeArgs(args), st.cache.Keys, st'.cache.Keys)
    && SlotsKept(live, st.slots, st'.slots)
  }

  lemma {:induction false} EvalValArgs<M, V, S(!new)>(env: Env<M, V, S>, key: map<int, Expr>, live: set<int>,
                                                      args: seq<Expr>, st: EvalState<V, S>, ms: seq<M>)
    requires RunnableArgs(args) && LeftToRight(env) && ConsistentArgs(args, key) && SteadyArgs(args, st.cache.Keys)
    requires Good(env, key, live, st, ms) && AvailAfterArgs(args, st.cache.Keys) <= live
    ensures ValuedArgs(env, key, live, args, st, ms)
    decreases args, 0
  {
    hide KindOf, Val, Good;
    if args != [] {
      EvalVal(env, key, live, args[0], st, ms);
      var (v, st1) := Eval(env, args[0], st);
      EvalValArgs(env, key, live, args[1..], st1, ms);
      assert CloneArgs(args)[1..] == CloneArgs(args[1..]);
    }
  }

  lemma SourceArgsSteady(e: Expr, key: map<int, Expr>, avail: set<int>)
    requires Runnable(e) && e.Call?
    ensures SteadyArgs(SourceArgs(e.name, e.args), avail) <==> SteadyArgs(e.args, avail)
    ensures ConsistentArgs(SourceArgs(e.name, e.args), key) <==> ConsistentArgs(e.args, key)
  {
    hide KindOf;
    if IsTickerFn(e.name) && |e.args| > 0 {
      assert AvailAfter(e.args[0], avail) == avail;
    }
  }

  /** The inputs of a stateful call are the plain inputs of its structure. */
  lemma InputsAgree<M, V, S>(env: Env<M, V, S>, e: Expr, vs: seq<V>, ms: seq<M>)
    requires Runnable(e) && e.Call? && IsStatefulOp(e.name) && |ms| > 0 && env.market == ms[|ms| - 1]
    requires WellFormed(CloneExpr(e)) && WellFormedArgs(CloneArgs(SourceArgs(e.name, e.args)))
    requires vs == ValArgs(env.ops, env.params, CloneArgs(SourceArgs(e.name, e.args)), ms)
    ensures MarketInput(env, e.name, e.args) + vs == Inputs(env.ops, env.params, CloneExpr(e), ms)
  {
    hide KindOf, Val;
    SourceArgsClone(e.name, e.args);
  }

  /** A step of a slot that still stands where the last tick left it. */
  lemma FireGood<M, V, S(!new)>(env: Env<M, V, S>, key: map<int, Expr>, live: set<int>, e: Expr, st: EvalState<V, S>,
                                ms: seq<M>)
    requires Runnable(e) && e.Call? && IsStatefulOp(e.name) && Good(env, key, live, st, ms)
    requires e.nodeId in live && e.nodeId !in st.cache && key[e.nodeId] == CloneExpr(e) && WellFormed(CloneExpr(e))
    ensures var (v, st') := Fire(env, e, Inputs(env.ops, env.params, CloneExpr(e), ms), st);
      && v == Val(env.ops, env.params, CloneExpr(e), ms) && Good(env, key, live, st', ms)
      && st'.cache.Keys == st.cache.Keys + {e.nodeId} && SlotsKept(live, st.slots, st'.slots)
  {
    var k, id := CloneExpr(e), e.nodeId;
    CloneIdempotent(e);
    assert GoodSlot(env, key[id], id, st, ms);
    hide KindOf, Inputs;
    var inputs := Inputs(env.ops, env.params, k, ms);
    var (v, st') := Fire(env, e, inputs, st);
    assert Val(env.ops, env.params, k, ms) == v by { NotOther(e.name); }
    assert StateOf(env.ops, env.params, k, ms) == st'.slots[id];
    hide Val, StateOf;
    forall i | i in live ensures GoodSlot(env, key[i], i, st', ms) {
      assert GoodSlot(env, key[i], i, st, ms);
    }
  }

  lemma NotOther(n: string)
    requires IsStatefulOp(n)
    ensures !IsMarketFn(n) && !IsMathFn(n)
  {
  }

  lemma {:induction false} EvalValStateful<M, V, S(!new)>(env: Env<M, V, S>, key: map<int, Expr>, live: set<int>,
                                                          e: Expr, st: EvalState<V, S>, ms: seq<M>)
    requires e.Call? && IsStatefulOp(e.name)
    requires Runnable(e) && LeftToRight(env) && Consistent(e, key) && Steady(e, st.cache.Keys)
    requires Good(env, key, live, st, ms) && AvailAfter(e, st.cache.Keys) <= live
    ensures Valued(env, key, live, e, st, ms)
    decreases e, 0
  {
    hide KindOf, StateOf, Inputs, Val;
    CloneWellFormed(e);
    NotOther(e.name);
    var k, id, avail := CloneExpr(e), e.nodeId, st.cache.Keys;
    if id in avail {
      assert GoodSlot(env, key[id], id, st, ms);
    } else {
      var args := SourceArgs(e.name, e.args);
      SourceArgsShared(e, avail, avail);
      SourceArgsSteady(e, key, avail);
      SourceArgsSmaller(e);
      hide Good;
      EvalValArgs(env, key, live, args, st, ms);
      InputsInOrder(env, e);
      var (vs, st1) := EvalArgs(env, args, st);
      assert Size(k) == Size(e);
      assert id !in st1.cache;
      InputsAgree(env, e, vs, ms);
      FireGood(env, key, live, e, st1, ms);
      assert AvailAfter(e, avail) == AvailAfterArgs(e.args, avail) + {id};
    }
  }
}

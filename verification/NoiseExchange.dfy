/** When the order of kalman1d's arguments does not matter: every slot its noise uses belongs to one tree there.

    A call whose tree is the only one with its id has a value of its own, and stepping it early or late is
    the same; so noise and sample can be exchanged. */
module NoiseExchange {
  import opened Ast
  import opened Evaluation
  import opened CodegenCorrect
  import opened Program

  /** The stateful calls of a tree, at any depth. */
  function StatefulIn(e: Expr): (r: set<Expr>)
    ensures forall c <- r :: c.Call? && IsStatefulOp(c.name) && Size(c) <= Size(e)
    decreases e, 1
  {
    match e
    case Unary(_, x) => StatefulIn(x)
    case Binary(_, l, r) => StatefulIn(l) + StatefulIn(r)
    case Cond(c, t, f) => StatefulIn(c) + StatefulIn(t) + StatefulIn(f)
    case Call(n, args, _) => (if IsStatefulOp(n) then {e} else {}) + StatefulInArgs(args)
    case _ => {}
  }

  function StatefulInArgs(args: seq<Expr>): (r: set<Expr>)
    ensures forall c <- r :: c.Call? && IsStatefulOp(c.name) && Size(c) <= SizeArgs(args)
    decreases args, 0
  {
    if args == [] then {} else StatefulIn(args[0]) + StatefulInArgs(args[1..])
  }

  /** An id of the `noise` has the same tree wherever it occurs in `all`. */
  predicate OneTree(all: set<Expr>, noise: set<Expr>)
    requires forall c <- all + noise :: c.Call?
  {
    forall a <- all, b <- noise :: a.nodeId == b.nodeId ==> a == b
  }

  /** The noise of every kalman1d shares no slot with the sample, or shares it with the same tree. */
  predicate NoiseShared(e: Expr)
    decreases e, 1
  {
    match e
    case Unary(_, x) => NoiseShared(x)
    case Binary(_, l, r) => NoiseShared(l) && NoiseShared(r)
    case Cond(c, t, f) => NoiseShared(c) && NoiseShared(t) && NoiseShared(f)
    case Call(n, args, _) =>
      && NoiseSharedArgs(args)
      && (KindOf(n).Kalman1d? && |args| == 3 ==> OneTree(StatefulInArgs(args),
                                                         StatefulIn(args[1]) + StatefulIn(args[2])))
    case _ => true
  }

  predicate NoiseSharedArgs(args: seq<Expr>)
    decreases args, 0
  {
    args == [] || (NoiseShared(args[0]) && NoiseSharedArgs(args[1..]))
  }

  lemma {:induction false} CallsClosed(e: Expr, c: Expr)
    requires c in StatefulIn(e)
    ensures StatefulInArgs(c.args) <= StatefulIn(e)
    decreases e, 1
  {
    hide KindOf;
    match e
    case Unary(_, x) => CallsClosed(x, c);
    case Binary(_, l, r) => if c in StatefulIn(l) { CallsClosed(l, c); } else { CallsClosed(r, c); }
    case Cond(p, t, f) =>
      if c in StatefulIn(p) { CallsClosed(p, c); } else if c in StatefulIn(t) { CallsClosed(t, c); }
        else { CallsClosed(f, c); }
    case Call(_, args, _) => if c != e { CallsArgsClosed(args, c); }
    case _ => {}
  }

  lemma {:induction false} CallsArgsClosed(args: seq<Expr>, c: Expr)
    requires c in StatefulInArgs(args)
    ensures StatefulInArgs(c.args) <= StatefulInArgs(args)
    decreases args, 0
  {
    if c in StatefulIn(args[0]) { CallsClosed(args[0], c); } else { CallsArgsClosed(args[1..], c); }
  }

  // ---- The value of a tree, each slot standing where `base` leaves it ----

  ghost function TreeVal<M, V, S>(env: Env<M, V, S>, base: EvalState<V, S>, e: Expr): V
    requires Runnable(e)
    decreases Size(e), 1
  {
    match e
    case Num(b) => env.ops.num(b)
    case Param(_, id) => env.params(id)
    case Unary(op, x) => if op == Plus then TreeVal(env, base, x) else env.ops.neg(TreeVal(env, base, x))
    case Binary(op, l, r) => env.ops.bin(op, TreeVal(env, base, l), TreeVal(env, base, r))
    case Cond(c, t, f) =>
      if env.ops.isTrue(TreeVal(env, base, c)) then TreeVal(env, base, t) else TreeVal(env, base, f)
    case Call(n, args, id) =>
      if id > 0 && id in base.cache then base.cache[id]
      else if IsMarketFn(n) then MarketInput(env, n, args)[0]
      else if IsMathFn(n) then
        SingleArg(args);
        env.ops.math(n, TreeVal(env, base, args[0]))
      else TreeStep(env, base, e).0
  }

  ghost function TreeStep<M, V, S>(env: Env<M, V, S>, base: EvalState<V, S>, e: Expr): (V, S)
    requires Runnable(e) && e.Call? && IsStatefulOp(e.name)
    decreases Size(e), 0
  {
    OrderRunnable(false, e);
    StepAt(env, e, MarketInput(env, e.name, e.args) + TreeVals(env, base, SourceArgs(e.name, e.args)),
           SlotOf(env, base.slots, e))
  }

  ghost function TreeVals<M, V, S>(env: Env<M, V, S>, base: EvalState<V, S>, args: seq<Expr>): (vs: seq<V>)
    requires RunnableArgs(args)
    ensures |vs| == |args|
    decreases SizeArgs(args), 2, |args|
  {
    if args == [] then [] else [TreeVal(env, base, args[0])] + TreeVals(env, base, args[1..])
  }

  /** The slots it steps. */
  ghost function Touched<M, V, S>(env: Env<M, V, S>, base: EvalState<V, S>, e: Expr): set<int>
    requires Runnable(e)
    decreases Size(e), 1
  {
    match e
    case Unary(_, x) => Touched(env, base, x)
    case Binary(_, l, r) => Touched(env, base, l) + Touched(env, base, r)
    case Cond(c, t, f) =>
      Touched(env, base, c) +
      (if env.ops.isTrue(TreeVal(env, base, c)) then Touched(env, base, t) else Touched(env, base, f))
    case Call(n, args, id) =>
      if IsMathFn(n) then
        SingleArg(args);
        Touched(env, base, args[0])
      else if !IsStatefulOp(n) || id in base.cache then {}
      else
        OrderRunnable(false, e);
        TouchedArgs(env, base, SourceArgs(n, args)) + {id}
    case _ => {}
  }

  ghost function TouchedArgs<M, V, S>(env: Env<M, V, S>, base: EvalState<V, S>, args: seq<Expr>): set<int>
    requires RunnableArgs(args)
    decreases SizeArgs(args), 2, |args|
  {
    if args == [] then {} else Touched(env, base, args[0]) + TouchedArgs(env, base, args[1..])
  }

  // ---- States between ----

  ghost predicate SameAt<V, S>(a: EvalState<V, S>, b: EvalState<V, S>, id: int) {
    && (id in a.cache <==> id in b.cache) && (id in a.cache ==> a.cache[id] == b.cache[id])
    && (id in a.slots <==> id in b.slots) && (id in a.slots ==> a.slots[id] == b.slots[id])
    && a.log[id] == b.log[id]
  }

  ghost predicate FiredAt<M, V, S>(env: Env<M, V, S>, base: EvalState<V, S>, m: EvalState<V, S>, c: Expr)
    requires c.Call? && IsStatefulOp(c.name) && Runnable(c)
  {
    var id, (v, s) := c.nodeId, TreeStep(env, base, c);
    && id in m.cache && m.cache[id] == v && id in m.slots && m.slots[id] == s && m.log[id] == base.log[id] + 1
  }

  /** `m` differs from `base` only by calls that were stepped from where `base` leaves them. */
  ghost predicate Between<M, V, S>(env: Env<M, V, S>, base: EvalState<V, S>, calls: set<Expr>, fired: set<int>,
                                   m: EvalState<V, S>)
  {
    forall c <- calls :: Stands(env, base, fired, m, c)
  }

  ghost predicate Stands<M, V, S>(env: Env<M, V, S>, base: EvalState<V, S>, fired: set<int>, m: EvalState<V, S>,
                                  c: Expr)
  {
    && c.Call? && IsStatefulOp(c.name) && Runnable(c)
    && if c.nodeId in fired then
         c.nodeId !in base.cache && FiredAt(env, base, m, c) &&
             TouchedArgs(env, base, SourceArgs(c.name, c.args)) <= fired
       else SameAt(m, base, c.nodeId)
  }

  /** StatefulIn that belong together: with each call those inside it, and one tree for each id. */
  ghost predicate Family(calls: set<Expr>) {
    && (forall c <- calls :: c.Call? && IsStatefulOp(c.name) && StatefulInArgs(c.args) <= calls)
    && OneTree(calls, calls)
  }

  ghost predicate KeptBut<V, S>(a: EvalState<V, S>, b: EvalState<V, S>, ids: set<int>) {
    forall id: int :: id !in ids ==> SameAt(a, b, id)
  }

  lemma KeptButTrans<V, S>(a: EvalState<V, S>, b: EvalState<V, S>, c: EvalState<V, S>, i: set<int>, j: set<int>)
    requires KeptBut(a, b, i) && KeptBut(b, c, j)
    ensures KeptBut(a, c, i + j)
  {
  }

  lemma {:induction false} TouchedIsCall<M, V, S>(env: Env<M, V, S>, base: EvalState<V, S>, e: Expr, id: int)
      returns (c: Expr)
    requires Runnable(e) && id in Touched(env, base, e)
    ensures c in StatefulIn(e) && c.nodeId == id && id !in base.cache
    decreases Size(e), 1
  {
    hide KindOf;
    match e
    case Unary(_, x) => c := TouchedIsCall(env, base, x, id);
    case Binary(_, l, r) =>
      if id in Touched(env, base, l) { c := TouchedIsCall(env, base, l, id); }
        else { c := TouchedIsCall(env, base, r, id); }
    case Cond(p, t, f) =>
      if id in Touched(env, base, p) {
        c := TouchedIsCall(env, base, p, id);
      } else if env.ops.isTrue(TreeVal(env, base, p)) {
        c := TouchedIsCall(env, base, t, id);
      } else {
        c := TouchedIsCall(env, base, f, id);
      }
    case Call(n, args, i) =>
      if IsMathFn(n) {
        SingleArg(args);
        c := TouchedIsCall(env, base, args[0], id);
        assert args[1..] == [];
      } else if id == i {
        c := e;
      } else {
        OrderRunnable(false, e);
        c := TouchedArgIsCall(env, base, SourceArgs(n, args), id);
        SourceCalls(e);
      }
  }

  lemma {:induction false} TouchedArgIsCall<M, V, S>(env: Env<M, V, S>, base: EvalState<V, S>, args: seq<Expr>, id: int)
      returns (c: Expr)
    requires RunnableArgs(args) && id in TouchedArgs(env, base, args)
    ensures c in StatefulInArgs(args) && c.nodeId == id && id !in base.cache
    decreases SizeArgs(args), 2, |args|
  {
    if id in Touched(env, base, args[0]) {
      c := TouchedIsCall(env, base, args[0], id);
    } else {
      c := TouchedArgIsCall(env, base, args[1..], id);
    }
  }

  /** A ticker contains no call. */
  lemma SourceCalls(e: Expr)
    requires Runnable(e) && e.Call?
    ensures StatefulInArgs(SourceArgs(e.name, e.args)) == StatefulInArgs(e.args)
  {
    hide KindOf;
  }

  /** Between two states, evaluating a tree of the family gives its own value and steps its own slots. */
  ghost predicate Evaluated<M, V, S>(env: Env<M, V, S>, base: EvalState<V, S>, calls: set<Expr>, fired: set<int>,
                                     e: Expr, m: EvalState<V, S>)
    requires Runnable(e)
  {
    var (v, m') := Eval(env, e, m);
    && v == TreeVal(env, base, e)
    && Between(env, base, calls, fired + Touched(env, base, e), m')
    && KeptBut(m', m, Touched(env, base, e) - fired)
  }

  lemma KeptSelf<V, S>(m: EvalState<V, S>, ids: set<int>)
    ensures KeptBut(m, m, ids)
  {
  }

  lemma NothingFired<M, V, S>(env: Env<M, V, S>, base: EvalState<V, S>, calls: set<Expr>, fired: set<int>,
                              m: EvalState<V, S>)
    requires Between(env, base, calls, fired, m)
    ensures Between(env, base, calls, fired + {}, m) && KeptBut(m, m, {} - fired)
  {
    assert fired + {} == fired;
    KeptSelf(m, {} - fired);
  }

  lemma KeptWider<V, S>(a: EvalState<V, S>, b: EvalState<V, S>, i: set<int>, j: set<int>)
    requires KeptBut(a, b, i) && i <= j
    ensures KeptBut(a, b, j)
  {
  }

  lemma {:induction false} EvalBetween<M, V, S>(env: Env<M, V, S>, base: EvalState<V, S>, calls: set<Expr>,
                                                fired: set<int>, e: Expr, m: EvalState<V, S>)
    requires Runnable(e) && LeftToRight(env) && StatefulIn(e) <= calls && Family(calls) &&
             Between(env, base, calls, fired, m)
    ensures Evaluated(env, base, calls, fired, e, m)
    decreases Size(e), 1
  {
    hide KindOf, Family, Between, KeptBut, StepAt;
    match e
    case Num(_) => NothingFired(env, base, calls, fired, m);
    case Param(_, _) => NothingFired(env, base, calls, fired, m);
    case Unary(_, x) => EvalBetween(env, base, calls, fired, x, m);
    case Binary(_, l, r) =>
      EvalBetween(env, base, calls, fired, l, m);
      var m1, t1 := Eval(env, l, m).1, Touched(env, base, l);
      EvalBetween(env, base, calls, fired + t1, r, m1);
      BetweenTwo(env, base, calls, fired, m, t1, m1, Touched(env, base, r), Eval(env, r, m1).1);
    case Cond(c, t, f) =>
      EvalBetween(env, base, calls, fired, c, m);
      var (v, m1) := Eval(env, c, m);
      var t1 := Touched(env, base, c);
      var taken := if env.ops.isTrue(v) then t else f;
      EvalBetween(env, base, calls, fired + t1, taken, m1);
      BetweenTwo(env, base, calls, fired, m, t1, m1, Touched(env, base, taken), Eval(env, taken, m1).1);
    case Call(n, args, _) =>
      if IsStatefulOp(n) {
        EvalBetweenStateful(env, base, calls, fired, e, m);
      } else if IsMathFn(n) {
        SingleArg(args);
        assert args[1..] == [];
        EvalBetween(env, base, calls, fired, args[0], m);
      } else {
        NothingFired(env, base, calls, fired, m);
      }
  }

  lemma BetweenTwo<M, V, S>(env: Env<M, V, S>, base: EvalState<V, S>, calls: set<Expr>, fired: set<int>,
                            m: EvalState<V, S>, t1: set<int>, m1: EvalState<V, S>, t2: set<int>, m2: EvalState<V, S>)
    requires KeptBut(m1, m, t1 - fired) && KeptBut(m2, m1, t2 - (fired + t1))
    requires Between(env, base, calls, fired + t1 + t2, m2)
    ensures KeptBut(m2, m, (t1 + t2) - fired)
    ensures Between(env, base, calls, fired + (t1 + t2), m2)
  {
    KeptButTrans(m2, m1, m, t2 - (fired + t1), t1 - fired);
    assert fired + t1 + t2 == fired + (t1 + t2);
    hide Between;
  }

  lemma FamilyCall(calls: set<Expr>, c: Expr)
    requires Family(calls) && c in calls
    ensures c.Call? && IsStatefulOp(c.name) && StatefulInArgs(c.args) <= calls
    ensures forall a <- calls :: a.Call? && (a.nodeId == c.nodeId ==> a == c)
  {
  }

  lemma {:induction false} EvalBetweenStateful<M, V, S>(env: Env<M, V, S>, base: EvalState<V, S>, calls: set<Expr>,
                                                        fired: set<int>, e: Expr, m: EvalState<V, S>)
    requires e.Call? && IsStatefulOp(e.name)
    requires Runnable(e) && LeftToRight(env) && StatefulIn(e) <= calls && Family(calls) &&
             Between(env, base, calls, fired, m)
    ensures Evaluated(env, base, calls, fired, e, m)
    decreases Size(e), 0
  {
    assert !IsMarketFn(e.name) && !IsMathFn(e.name);
    hide KindOf, Family, KeptBut, StepAt;
    assert e in calls;
    var id := e.nodeId;
    assert Stands(env, base, fired, m, e);
    if id in base.cache {
      NothingFired(env, base, calls, fired, m);
    } else if id in fired {
      assert fired + Touched(env, base, e) == fired;
      KeptSelf(m, Touched(env, base, e) - fired);
    } else {
      FamilyCall(calls, e);
      OrderRunnable(false, e);
      InputsInOrder(env, e);
      SourceCalls(e);
      var args := SourceArgs(e.name, e.args);
      var t1 := TouchedArgs(env, base, args);
      EvalBetweenArgs(env, base, calls, fired, args, m);
      var (vs, m1) := EvalArgs(env, args, m);
      if id in t1 {
        var c := TouchedArgIsCall(env, base, args, id);
        assert false;
      }
      FiresOne(env, base, calls, fired, e, m, t1, m1);
    }
  }

  lemma FiresOne<M, V, S>(env: Env<M, V, S>, base: EvalState<V, S>, calls: set<Expr>, fired: set<int>, e: Expr,
                          m: EvalState<V, S>, t1: set<int>, m1: EvalState<V, S>)
    requires e in calls && Runnable(e) && e.Call? && IsStatefulOp(e.name) && Between(env, base, calls, fired + t1, m1)
    requires forall a <- calls :: a.Call? && (a.nodeId == e.nodeId ==> a == e)
    requires e.nodeId !in base.cache && e.nodeId !in fired && e.nodeId !in t1
    requires t1 == TouchedArgs(env, base, SourceArgs(e.name, e.args)) && KeptBut(m1, m, t1 - fired)
    ensures var inputs := MarketInput(env, e.name, e.args) + TreeVals(env, base, SourceArgs(e.name, e.args));
      var (v, m2) := Fire(env, e, inputs, m1);
      && v == TreeStep(env, base, e).0
      && Between(env, base, calls, fired + (t1 + {e.nodeId}), m2)
      && KeptBut(m2, m, (t1 + {e.nodeId}) - fired)
  {
    OrderRunnable(false, e);
    hide StepAt, TouchedArgs, TreeVals, MarketInput, KindOf, Runnable, RunnableArgs, TreeStep;
    var inputs := MarketInput(env, e.name, e.args) + TreeVals(env, base, SourceArgs(e.name, e.args));
    var (v, m2) := Fire(env, e, inputs, m1);
    assert Stands(env, base, fired + t1, m1, e);
    assert SlotOf(env, m1.slots, e) == SlotOf(env, base.slots, e);
    assert FiredAt(env, base, m2, e) && v == TreeStep(env, base, e).0 by { StepOfTree(env, base, e); }
    forall id: int | id != e.nodeId ensures SameAt(m2, m1, id) {}
    KeptButTrans(m2, m1, m, {e.nodeId}, t1 - fired);
    KeptWider(m2, m, {e.nodeId} + (t1 - fired), (t1 + {e.nodeId}) - fired);
    StandsStill(env, base, calls, fired + t1, e, m1, m2);
    assert fired + t1 + {e.nodeId} == fired + (t1 + {e.nodeId});
  }

  lemma StepOfTree<M, V, S>(env: Env<M, V, S>, base: EvalState<V, S>, e: Expr)
    requires Runnable(e) && e.Call? && IsStatefulOp(e.name)
    ensures RunnableArgs(SourceArgs(e.name, e.args))
    ensures TreeStep(env, base, e) == StepAt(env, e, MarketInput(env, e.name, e.args) +
                                             TreeVals(env, base, SourceArgs(e.name, e.args)),
                                                 SlotOf(env, base.slots, e))
  {
    hide KindOf;
  }

  /** Stepping `e` leaves the other calls as they stand. */
  lemma StandsStill<M, V, S>(env: Env<M, V, S>, base: EvalState<V, S>, calls: set<Expr>, fired: set<int>, e: Expr,
                             m1: EvalState<V, S>, m2: EvalState<V, S>)
    requires Between(env, base, calls, fired, m1) && e.Call? && IsStatefulOp(e.name) && Runnable(e)
    requires forall a <- calls :: a.Call? && (a.nodeId == e.nodeId ==> a == e)
    requires e.nodeId !in base.cache && FiredAt(env, base, m2, e)
    requires TouchedArgs(env, base, SourceArgs(e.name, e.args)) <= fired
    requires forall id: int :: id != e.nodeId ==> SameAt(m2, m1, id)
    ensures Between(env, base, calls, fired + {e.nodeId}, m2)
  {
    hide TouchedArgs, KindOf, Runnable, RunnableArgs, TreeStep;
    forall c | c in calls ensures Stands(env, base, fired + {e.nodeId}, m2, c) {
      assert Stands(env, base, fired, m1, c);
      assert c.nodeId != e.nodeId ==> SameAt(m2, m1, c.nodeId);
    }
  }

  lemma {:induction false} EvalBetweenArgs<M, V, S>(env: Env<M, V, S>, base: EvalState<V, S>, calls: set<Expr>,
                                                    fired: set<int>, args: seq<Expr>, m: EvalState<V, S>)
    requires RunnableArgs(args) && LeftToRight(env) && StatefulInArgs(args) <= calls && Family(calls) &&
             Between(env, base, calls, fired, m)
    ensures var (vs, m') := EvalArgs(env, args, m);
      && vs == TreeVals(env, base, args)
      && Between(env, base, calls, fired + TouchedArgs(env, base, args), m')
      && KeptBut(m', m, TouchedArgs(env, base, args) - fired)
    decreases SizeArgs(args), 2, |args|
  {
    hide KindOf, Family, Between, KeptBut, StepAt;
    if args == [] {
      NothingFired(env, base, calls, fired, m);
    } else {
      EvalBetween(env, base, calls, fired, args[0], m);
      var m1, t1 := Eval(env, args[0], m).1, Touched(env, base, args[0]);
      EvalBetweenArgs(env, base, calls, fired + t1, args[1..], m1);
      BetweenTwo(env, base, calls, fired, m, t1, m1, TouchedArgs(env, base, args[1..]), EvalArgs(env, args[1..], m1).1);
    }
  }

  // ---- Exchanging sample and noise ----

  ghost function Ids(calls: set<Expr>): set<int>
    requires forall c <- calls :: c.Call?
  {
    set c <- calls :: c.nodeId
  }

  lemma {:induction false} CallsRunnable(e: Expr, c: Expr)
    requires Runnable(e) && c in StatefulIn(e)
    ensures Runnable(c)
    decreases Size(e), 1
  {
    hide KindOf;
    match e
    case Unary(_, x) => CallsRunnable(x, c);
    case Binary(_, l, r) => if c in StatefulIn(l) { CallsRunnable(l, c); } else { CallsRunnable(r, c); }
    case Cond(p, t, f) =>
      if c in StatefulIn(p) { CallsRunnable(p, c); } else if c in StatefulIn(t) { CallsRunnable(t, c); }
        else { CallsRunnable(f, c); }
    case Call(n, args, _) =>
      SourceCalls(e);
      if c != e { CallsArgsRunnable(SourceArgs(n, args), c); }
    case _ => {}
  }

  lemma {:induction false} CallsArgsRunnable(args: seq<Expr>, c: Expr)
    requires RunnableArgs(args) && c in StatefulInArgs(args)
    ensures Runnable(c)
    decreases SizeArgs(args), 2, |args|
  {
    if c in StatefulIn(args[0]) { CallsRunnable(args[0], c); } else { CallsArgsRunnable(args[1..], c); }
  }

  lemma TouchedIsOurs<M, V, S>(env: Env<M, V, S>, base: EvalState<V, S>, calls: set<Expr>, args: seq<Expr>)
    requires RunnableArgs(args) && StatefulInArgs(args) <= calls && Family(calls)
    ensures TouchedArgs(env, base, args) <= Ids(calls)
  {
    forall id | id in TouchedArgs(env, base, args) ensures id in Ids(calls) {
      var c := TouchedArgIsCall(env, base, args, id);
    }
  }

  /** Two states that differ only in how far the family has been stepped. */
  ghost predicate Parallel<M, V, S>(env: Env<M, V, S>, base: EvalState<V, S>, calls: set<Expr>,
                                    f1: set<int>, m1: EvalState<V, S>, f2: set<int>, m2: EvalState<V, S>) {
    && Family(calls) && Between(env, base, calls, f1, m1) && Between(env, base, calls, f2, m2)
    && KeptBut(m1, m2, Ids(calls))
  }

  lemma {:induction false} Exchange<M, V, S>(env: Env<M, V, S>, base: EvalState<V, S>, calls: set<Expr>, e: Expr,
                                             f1: set<int>, m1: EvalState<V, S>, f2: set<int>, m2: EvalState<V, S>)
      returns (t: set<int>)
    requires Runnable(e) && LeftToRight(env) && Parallel(env, base, calls, f1, m1, f2, m2) &&
             OneTree(StatefulIn(e), calls)
    ensures Eval(env, e, m1).0 == Eval(env, e, m2).0
    ensures Parallel(env, base, calls, f1 + t, Eval(env, e, m1).1, f2 + t, Eval(env, e, m2).1)
    decreases Size(e), 1
  {
    hide KindOf, Parallel, StepAt;
    match e
    case Num(_) => t := ParallelSelf(env, base, calls, f1, m1, f2, m2);
    case Param(_, _) => t := ParallelSelf(env, base, calls, f1, m1, f2, m2);
    case Unary(_, x) => t := Exchange(env, base, calls, x, f1, m1, f2, m2);
    case Binary(_, l, r) =>
      var tl := Exchange(env, base, calls, l, f1, m1, f2, m2);
      var tr := Exchange(env, base, calls, r, f1 + tl, Eval(env, l, m1).1, f2 + tl, Eval(env, l, m2).1);
      t := ParallelTwo(env, base, calls, f1, f2, tl, tr, Eval(env, e, m1).1, Eval(env, e, m2).1);
    case Cond(c, thn, els) =>
      var tc := Exchange(env, base, calls, c, f1, m1, f2, m2);
      var taken := if env.ops.isTrue(Eval(env, c, m1).0) then thn else els;
      var tt := Exchange(env, base, calls, taken, f1 + tc, Eval(env, c, m1).1, f2 + tc, Eval(env, c, m2).1);
      t := ParallelTwo(env, base, calls, f1, f2, tc, tt, Eval(env, e, m1).1, Eval(env, e, m2).1);
    case Call(n, args, _) =>
      if IsStatefulOp(n) {
        t := ExchangeStateful(env, base, calls, e, f1, m1, f2, m2);
      } else if IsMathFn(n) {
        SingleArg(args);
        assert args[1..] == [];
        t := Exchange(env, base, calls, args[0], f1, m1, f2, m2);
      } else {
        t := ParallelSelf(env, base, calls, f1, m1, f2, m2);
      }
  }

  lemma {:induction false} ExchangeStateful<M, V, S>(env: Env<M, V, S>, base: EvalState<V, S>, calls: set<Expr>,
                                                     e: Expr, f1: set<int>, m1: EvalState<V, S>, f2: set<int>,
                                                     m2: EvalState<V, S>) returns (t: set<int>)
    requires e.Call? && IsStatefulOp(e.name)
    requires Runnable(e) && LeftToRight(env) && Parallel(env, base, calls, f1, m1, f2, m2) &&
             OneTree(StatefulIn(e), calls)
    ensures Eval(env, e, m1).0 == Eval(env, e, m2).0
    ensures Parallel(env, base, calls, f1 + t, Eval(env, e, m1).1, f2 + t, Eval(env, e, m2).1)
    decreases Size(e), 0
  {
    assert !IsMarketFn(e.name) && !IsMathFn(e.name);
    hide KindOf, StepAt, Between, KeptBut, Family;
    var id := e.nodeId;
    if id in Ids(calls) {
      t := OursExchange(env, base, calls, e, f1, m1, f2, m2);
    } else {
      assert SameAt(m1, m2, id) by { ParallelAt(env, base, calls, f1, m1, f2, m2, id); }
      if id in m1.cache {
        t := ParallelSelf(env, base, calls, f1, m1, f2, m2);
      } else {
        OrderRunnable(false, e);
        InputsInOrder(env, e);
        SourceCalls(e);
        var args := SourceArgs(e.name, e.args);
        t := ExchangeArgs(env, base, calls, args, f1, m1, f2, m2);
        var (vs, n1) := EvalArgs(env, args, m1);
        var n2 := EvalArgs(env, args, m2).1;
        OthersFire(env, base, calls, e, MarketInput(env, e.name, e.args) + vs, f1 + t, n1, f2 + t, n2);
      }
    }
  }

  lemma ParallelAt<M, V, S>(env: Env<M, V, S>, base: EvalState<V, S>, calls: set<Expr>,
                            f1: set<int>, m1: EvalState<V, S>, f2: set<int>, m2: EvalState<V, S>, id: int)
    requires Parallel(env, base, calls, f1, m1, f2, m2) && id !in Ids(calls)
    ensures SameAt(m1, m2, id)
  {
    hide Between;
  }

  lemma ParallelSelf<M, V, S>(env: Env<M, V, S>, base: EvalState<V, S>, calls: set<Expr>, f1: set<int>,
                              m1: EvalState<V, S>, f2: set<int>, m2: EvalState<V, S>) returns (t: set<int>)
    requires Parallel(env, base, calls, f1, m1, f2, m2)
    ensures t == {} && Parallel(env, base, calls, f1 + t, m1, f2 + t, m2)
  {
    t := {};
    assert f1 + t == f1 && f2 + t == f2;
  }

  lemma ParallelTwo<M, V, S>(env: Env<M, V, S>, base: EvalState<V, S>, calls: set<Expr>, f1: set<int>, f2: set<int>,
                             t1: set<int>, t2: set<int>, m1: EvalState<V, S>, m2: EvalState<V, S>) returns (t: set<int>)
    requires Parallel(env, base, calls, f1 + t1 + t2, m1, f2 + t1 + t2, m2)
    ensures t == t1 + t2 && Parallel(env, base, calls, f1 + t, m1, f2 + t, m2)
  {
    t := t1 + t2;
    assert f1 + t1 + t2 == f1 + t && f2 + t1 + t2 == f2 + t;
  }

  /** A call of the family, evaluated on both sides. */
  lemma OursExchange<M, V, S>(env: Env<M, V, S>, base: EvalState<V, S>, calls: set<Expr>, e: Expr, f1: set<int>,
                              m1: EvalState<V, S>, f2: set<int>, m2: EvalState<V, S>) returns (t: set<int>)
    requires Runnable(e) && LeftToRight(env) && Parallel(env, base, calls, f1, m1, f2, m2) &&
             OneTree(StatefulIn(e), calls)
    requires e.Call? && IsStatefulOp(e.name) && e.nodeId in Ids(calls)
    ensures Eval(env, e, m1).0 == Eval(env, e, m2).0
    ensures Parallel(env, base, calls, f1 + t, Eval(env, e, m1).1, f2 + t, Eval(env, e, m2).1)
  {
    assert e in calls by { assert e in StatefulIn(e); }
    assert StatefulIn(e) <= calls by { FamilyCall(calls, e); }
    assert [e][1..] == [] && StatefulInArgs([e]) == StatefulIn(e);
    SingleArg([e]);
    t := Touched(env, base, e);
    hide Between, Eval;
    EvalBetween(env, base, calls, f1, e, m1);
    EvalBetween(env, base, calls, f2, e, m2);
    var n1, n2, ids := Eval(env, e, m1).1, Eval(env, e, m2).1, Ids(calls);
    TouchedIsOurs(env, base, calls, [e]);
    assert TouchedArgs(env, base, [e]) == t;
    KeptWider(n1, m1, t - f1, ids);
    KeptWider(n2, m2, t - f2, ids);
    KeptAround(n1, m1, m2, n2, ids);
  }

  lemma KeptAround<V, S>(n1: EvalState<V, S>, m1: EvalState<V, S>, m2: EvalState<V, S>, n2: EvalState<V, S>,
                         ids: set<int>)
    requires KeptBut(n1, m1, ids) && KeptBut(m1, m2, ids) && KeptBut(n2, m2, ids)
    ensures KeptBut(n1, n2, ids)
  {
  }

  /** A call outside the family, stepped on both sides with the same inputs. */
  lemma OthersFire<M, V, S>(env: Env<M, V, S>, base: EvalState<V, S>, calls: set<Expr>, e: Expr, vs: seq<V>,
                            f1: set<int>, m1: EvalState<V, S>, f2: set<int>, m2: EvalState<V, S>)
    requires Parallel(env, base, calls, f1, m1, f2, m2) && e.Call? && e.nodeId !in Ids(calls)
    ensures Fire(env, e, vs, m1).0 == Fire(env, e, vs, m2).0
    ensures Parallel(env, base, calls, f1, Fire(env, e, vs, m1).1, f2, Fire(env, e, vs, m2).1)
  {
    var n1, n2 := Fire(env, e, vs, m1).1, Fire(env, e, vs, m2).1;
    assert SameAt(m1, m2, e.nodeId);
    hide StepAt;
    forall id: int | id !in Ids(calls) ensures SameAt(n1, n2, id) {
      assert SameAt(m1, m2, id);
    }
    OtherStands(env, base, calls, e, vs, f1, m1);
    OtherStands(env, base, calls, e, vs, f2, m2);
    hide Between, Fire;
  }

  lemma OtherStands<M, V, S>(env: Env<M, V, S>, base: EvalState<V, S>, calls: set<Expr>, e: Expr, vs: seq<V>,
                             fired: set<int>, m: EvalState<V, S>)
    requires Between(env, base, calls, fired, m)
    requires e.Call? && forall c <- calls :: c.Call? && c.nodeId != e.nodeId
    ensures Between(env, base, calls, fired, Fire(env, e, vs, m).1)
  {
    hide StepAt, TouchedArgs, TreeStep, Runnable, KindOf;
    forall c | c in calls ensures Stands(env, base, fired, Fire(env, e, vs, m).1, c) {
      assert Stands(env, base, fired, m, c);
    }
  }

  lemma {:induction false} ExchangeArgs<M, V, S>(env: Env<M, V, S>, base: EvalState<V, S>, calls: set<Expr>,
                                                 args: seq<Expr>, f1: set<int>, m1: EvalState<V, S>, f2: set<int>,
                                                 m2: EvalState<V, S>) returns (t: set<int>)
    requires RunnableArgs(args) && LeftToRight(env) && Parallel(env, base, calls, f1, m1, f2, m2) &&
             OneTree(StatefulInArgs(args), calls)
    ensures EvalArgs(env, args, m1).0 == EvalArgs(env, args, m2).0
    ensures Parallel(env, base, calls, f1 + t, EvalArgs(env, args, m1).1, f2 + t, EvalArgs(env, args, m2).1)
    decreases SizeArgs(args), 2, |args|
  {
    hide KindOf, Parallel;
    if args == [] {
      t := ParallelSelf(env, base, calls, f1, m1, f2, m2);
    } else {
      var tl := Exchange(env, base, calls, args[0], f1, m1, f2, m2);
      var n1, n2 := Eval(env, args[0], m1).1, Eval(env, args[0], m2).1;
      var tr := ExchangeArgs(env, base, calls, args[1..], f1 + tl, n1, f2 + tl, n2);
      t := ParallelTwo(env, base, calls, f1, f2, tl, tr, EvalArgs(env, args, m1).1, EvalArgs(env, args, m2).1);
    }
  }

  lemma SameAll<V, S>(a: EvalState<V, S>, b: EvalState<V, S>)
    requires forall id: int :: SameAt(a, b, id)
    ensures a == b
  {
    forall id: int
      ensures id in a.slots <==> id in b.slots
      ensures id in a.slots ==> a.slots[id] == b.slots[id]
      ensures id in a.cache <==> id in b.cache
      ensures id in a.cache ==> a.cache[id] == b.cache[id]
      ensures a.log[id] == b.log[id]
    {
      assert SameAt(a, b, id);
    }
    assert a.slots == b.slots && a.cache == b.cache && a.log == b.log;
  }

  lemma FiredAlike<M, V, S>(env: Env<M, V, S>, base: EvalState<V, S>, calls: set<Expr>, fired: set<int>,
                            m1: EvalState<V, S>, m2: EvalState<V, S>)
    requires Parallel(env, base, calls, fired, m1, fired, m2)
    ensures m1 == m2
  {
    hide TouchedArgs, TreeStep, Runnable, KindOf;
    forall id: int ensures SameAt(m1, m2, id) {
      if id in Ids(calls) {
        var c :| c in calls && c.nodeId == id;
        assert Stands(env, base, fired, m1, c) && Stands(env, base, fired, m2, c);
      }
    }
    SameAll(m1, m2);
  }

  /** Noise before the sample or after it: the same values, the same state. */
  lemma NoiseEitherWay<M, V, S>(env: Env<M, V, S>, x: Expr, noise: seq<Expr>, st: EvalState<V, S>)
    requires Runnable(x) && RunnableArgs(noise) && LeftToRight(env)
    requires OneTree(StatefulIn(x) + StatefulInArgs(noise), StatefulInArgs(noise))
    ensures var (v1, a1) := Eval(env, x, st); var (n1, a2) := EvalArgs(env, noise, a1);
            var (n2, b1) := EvalArgs(env, noise, st); var (v2, b2) := Eval(env, x, b1);
      v1 == v2 && n1 == n2 && a2 == b2
  {
    var calls := StatefulInArgs(noise);
    forall c | c in calls ensures Stands(env, st, {}, st, c) && StatefulInArgs(c.args) <= calls {
      CallsArgsRunnable(noise, c);
      CallsArgsClosed(noise, c);
    }
    assert Family(calls);
    TouchedIsOurs(env, st, calls, noise);
    var a1, b1 := Eval(env, x, st).1, EvalArgs(env, noise, st).1;
    var t := TouchedArgs(env, st, noise);
    EvalBetweenArgs(env, st, calls, {}, noise, st);
    hide Between, KeptBut, Family, Runnable, RunnableArgs, Eval, EvalArgs, Ids, StatefulInArgs, StatefulIn;
    KeptBack(b1, st, t - {}, Ids(calls));
    assert Parallel(env, st, calls, {}, st, {} + t, b1);
    var tx := Exchange(env, st, calls, x, {}, st, {} + t, b1);
    var b2 := Eval(env, x, b1).1;
    EvalBetweenArgs(env, st, calls, {} + tx, noise, a1);
    var a2 := EvalArgs(env, noise, a1).1;
    KeptWider(a2, a1, t - ({} + tx), Ids(calls));
    KeptSelf(b2, Ids(calls));
    KeptAround(a2, a1, b2, b2, Ids(calls));
    assert {} + tx + t == {} + t + tx;
    FiredAlike(env, st, calls, {} + t + tx, a2, b2);
  }

  lemma KeptBack<V, S>(a: EvalState<V, S>, b: EvalState<V, S>, i: set<int>, j: set<int>)
    requires KeptBut(a, b, i) && i <= j
    ensures KeptBut(b, a, j)
  {
  }
}

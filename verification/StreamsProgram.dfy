/** Whole programs on whole runs: shared slots and the evaluation cache compute the plain stream meaning. */
module StreamsProgram {
  import opened Ast
  import opened Evaluation
  import opened Sharing
  import opened NodeIds
  import opened AllocSound
  import opened CodegenCorrect
  import opened Program
  import opened Streams

  /** The slots a program steps at every tick. */
  function AllLive(bodies: seq<Expr>): set<int> {
    if bodies == [] then {} else AvailAfter(bodies[0], {}) + AllLive(bodies[1..])
  }

  predicate Apart(a: set<int>, b: set<int>) {
    forall i <- a :: i !in b
  }

  /** What allocation gives on programs whose branches only repeat unconditional calls. */
  predicate AllSteady(bodies: seq<Expr>, key: map<int, Expr>) {
    bodies == [] ||
    (Consistent(bodies[0], key) && Steady(bodies[0], {}) && Apart(AvailAfter(bodies[0], {}), AllLive(bodies[1..])) &&
     AllSteady(bodies[1..], key))
  }

  ghost predicate SlotAt<M, V, S>(ops: Ops<M, V, S>, params: int -> V, k: Expr, id: int, slots: map<int, S>, ms: seq<M>)
  {
    IsKey(k) && (if id in slots then slots[id] else ops.init(k)) == StateOf(ops, params, k, ms)
  }

  /** Between ticks: every slot holds the state of its own machine after the ticks `ms`. */
  ghost predicate SlotsAt<M, V, S>(ops: Ops<M, V, S>, params: int -> V, key: map<int, Expr>, ids: set<int>,
                                   slots: map<int, S>, ms: seq<M>)
  {
    ids <= key.Keys && forall id <- ids :: SlotAt(ops, params, key[id], id, slots, ms)
  }

  lemma {:induction false} LiveKeys(e: Expr, key: map<int, Expr>, avail: set<int>)
    requires Runnable(e) && Consistent(e, key)
    ensures forall id <- AvailAfter(e, avail) - avail :: id in key && IsKey(key[id])
    decreases e, 1
  {
    hide KindOf, IsKey;
    match e
    case Unary(_, x) => LiveKeys(x, key, avail);
    case Binary(_, l, r) => LiveKeys(l, key, avail); LiveKeys(r, key, AvailAfter(l, avail));
    case Cond(c, _, _) => LiveKeys(c, key, avail);
    case Call(n, args, id) =>
      SourceArgsShared(e, avail, avail);
      SourceArgsSteady(e, key, avail);
      LiveKeysArgs(SourceArgs(n, args), key, avail);
      if IsStatefulOp(n) { CallKey(e); }
    case _ => {}
  }

  lemma CallKey(e: Expr)
    requires Runnable(e) && e.Call? && IsStatefulOp(e.name)
    ensures IsKey(CloneExpr(e))
  {
    hide KindOf;
    CloneWellFormed(e);
    CloneIdempotent(e);
  }

  lemma {:induction false} LiveKeysArgs(args: seq<Expr>, key: map<int, Expr>, avail: set<int>)
    requires RunnableArgs(args) && ConsistentArgs(args, key)
    ensures forall id <- AvailAfterArgs(args, avail) - avail :: id in key && IsKey(key[id])
    decreases args, 0
  {
    hide IsKey;
    if args != [] {
      LiveKeys(args[0], key, avail);
      LiveKeysArgs(args[1..], key, AvailAfter(args[0], avail));
    }
  }

  /** One signal within a tick. */
  lemma SignalVal<M, V, S(!new)>(env: Env<M, V, S>, key: map<int, Expr>, body: Expr, slots: map<int, S>,
                                 log: multiset<int>, ms: seq<M>)
    requires |ms| > 0 && env.market == ms[|ms| - 1] && env.warmIds == {}
    requires Runnable(body) && LeftToRight(env) && Consistent(body, key) && Steady(body, {})
    requires SlotsAt(env.ops, env.params, key, AvailAfter(body, {}), slots, ms[..|ms| - 1])
    ensures WellFormed(CloneExpr(body))
    ensures var live := AvailAfter(body, {});
      var (v, st) := Eval(env, body, EvalState(slots, map[], log));
      && v == Val(env.ops, env.params, CloneExpr(body), ms)
      && SlotsAt(env.ops, env.params, key, live, st.slots, ms)
      && SlotsKept(live, slots, st.slots)
  {
    var live := AvailAfter(body, {});
    var st0: EvalState<V, S> := EvalState(slots, map[], log);
    assert st0.cache.Keys == {};
    forall id | id in live ensures GoodSlot(env, key[id], id, st0, ms) {
      assert SlotAt(env.ops, env.params, key[id], id, slots, ms[..|ms| - 1]);
    }
    EvalVal(env, key, live, body, st0, ms);
    var st := Eval(env, body, st0).1;
    forall id | id in live ensures SlotAt(env.ops, env.params, key[id], id, st.slots, ms) {
      assert GoodSlot(env, key[id], id, st, ms);
    }
  }

  lemma SlotsAtKept<M, V, S(!new)>(ops: Ops<M, V, S>, params: int -> V, key: map<int, Expr>, ids: set<int>,
                                   a: map<int, S>, b: map<int, S>, ms: seq<M>, changed: set<int>)
    requires SlotsAt(ops, params, key, ids, a, ms) && SlotsKept(changed, a, b) && Apart(ids, changed)
    ensures SlotsAt(ops, params, key, ids, b, ms)
  {
    forall id | id in ids ensures SlotAt(ops, params, key[id], id, b, ms) {
      assert SlotAt(ops, params, key[id], id, a, ms);
      assert id !in changed;
    }
  }

  lemma SlotsAtPart<M, V, S>(ops: Ops<M, V, S>, params: int -> V, key: map<int, Expr>, ids: set<int>, part: set<int>,
                             slots: map<int, S>, ms: seq<M>)
    requires SlotsAt(ops, params, key, ids, slots, ms) && part <= ids
    ensures SlotsAt(ops, params, key, part, slots, ms)
  {
  }

  lemma SlotsAtUnion<M, V, S>(ops: Ops<M, V, S>, params: int -> V, key: map<int, Expr>, a: set<int>, b: set<int>,
                              slots: map<int, S>, ms: seq<M>)
    requires SlotsAt(ops, params, key, a, slots, ms) && SlotsAt(ops, params, key, b, slots, ms)
    ensures SlotsAt(ops, params, key, a + b, slots, ms)
  {
  }

  /** One tick of a program. */
  lemma {:induction false} TickVal<M, V, S(!new)>(env: Env<M, V, S>, key: map<int, Expr>, bodies: seq<Expr>,
                                                  slots: map<int, S>, log: multiset<int>, ms: seq<M>)
    requires |ms| > 0 && env.market == ms[|ms| - 1] && env.warmIds == {}
    requires RunnableArgs(bodies) && LeftToRight(env) && AllSteady(bodies, key)
    requires SlotsAt(env.ops, env.params, key, AllLive(bodies), slots, ms[..|ms| - 1])
    ensures WellFormedArgs(CloneArgs(bodies))
    ensures var (vs, slots', _) := EvalProgram(env, bodies, slots, log);
      && vs == ValArgs(env.ops, env.params, CloneArgs(bodies), ms)
      && SlotsAt(env.ops, env.params, key, AllLive(bodies), slots', ms)
      && SlotsKept(AllLive(bodies), slots, slots')
    decreases bodies
  {
    hide KindOf, Val, Eval, SlotsAt, Consistent, Steady;
    ClonesWellFormed(bodies);
    if bodies == [] {
      NoSlots(env.ops, env.params, key, slots, ms);
    } else {
      var prev := ms[..|ms| - 1];
      var live, rest := AvailAfter(bodies[0], {}), AllLive(bodies[1..]);
      SlotsAtPart(env.ops, env.params, key, AllLive(bodies), live, slots, prev);
      SlotsAtPart(env.ops, env.params, key, AllLive(bodies), rest, slots, prev);
      SignalVal(env, key, bodies[0], slots, log, ms);
      var (v, st) := Eval(env, bodies[0], EvalState(slots, map[], log));
      assert Apart(rest, live);
      SlotsAtKept(env.ops, env.params, key, rest, slots, st.slots, prev, live);
      TickVal(env, key, bodies[1..], st.slots, st.log, ms);
      var slots' := EvalProgram(env, bodies[1..], st.slots, st.log).1;
      SlotsAtKept(env.ops, env.params, key, live, st.slots, slots', ms, rest);
      SlotsAtUnion(env.ops, env.params, key, live, rest, slots', ms);
      assert CloneArgs(bodies)[1..] == CloneArgs(bodies[1..]);
    }
  }

  lemma NoSlots<M, V, S>(ops: Ops<M, V, S>, params: int -> V, key: map<int, Expr>, slots: map<int, S>, ms: seq<M>)
    ensures SlotsAt(ops, params, key, {}, slots, ms)
  {
  }

  /** The signal context after the ticks `ms`, from a context in which nothing was evaluated yet. */
  ghost function Session<M, V, S>(ops: Ops<M, V, S>, params: int -> V, noiseFirst: bool, bodies: seq<Expr>, ms: seq<M>)
      : map<int, S>
    requires RunnableArgs(bodies)
    decreases |ms|, 1
  {
    if ms == [] then map[] else Tick(ops, params, noiseFirst, bodies, ms).1
  }

  /** The outputs at the last of the ticks `ms`, and the context after it. */
  ghost function Tick<M, V, S>(ops: Ops<M, V, S>, params: int -> V, noiseFirst: bool, bodies: seq<Expr>, ms: seq<M>)
      : (r: (seq<V>, map<int, S>))
    requires RunnableArgs(bodies) && |ms| > 0
    ensures |r.0| == |bodies|
    decreases |ms|, 0
  {
    var last := |ms| - 1;
    var env := EnvAt(ops, params, ms[last]).(noiseFirst := noiseFirst);
    var (vs, slots, _) := EvalProgram(env, bodies, Session(ops, params, noiseFirst, bodies, ms[..last]), multiset{});
    (vs, slots)
  }

  lemma {:induction false} SessionSlots<M, V, S(!new)>(ops: Ops<M, V, S>, params: int -> V, key: map<int, Expr>,
                                                       bodies: seq<Expr>, ms: seq<M>)
    requires RunnableArgs(bodies) && AllSteady(bodies, key) && AllLive(bodies) <= key.Keys
    ensures SlotsAt(ops, params, key, AllLive(bodies), Session(ops, params, false, bodies, ms), ms)
    decreases |ms|
  {
    hide KindOf, Runnable, Eval, EvalProgram;
    if ms == [] {
      AllLiveKeys(bodies, key);
    } else {
      SessionSlots(ops, params, key, bodies, ms[..|ms| - 1]);
      TickVal(EnvAt(ops, params, ms[|ms| - 1]), key, bodies, Session(ops, params, false, bodies, ms[..|ms| - 1]),
              multiset{}, ms);
    }
  }

  lemma {:induction false} AllLiveKeys(bodies: seq<Expr>, key: map<int, Expr>)
    requires RunnableArgs(bodies) && AllSteady(bodies, key)
    ensures AllLive(bodies) <= key.Keys && forall id <- AllLive(bodies) :: IsKey(key[id])
    decreases bodies
  {
    hide IsKey, Runnable;
    if bodies != [] {
      LiveKeys(bodies[0], key, {});
      AllLiveKeys(bodies[1..], key);
      forall id | id in AllLive(bodies) ensures id in key && IsKey(key[id]) {
        assert id in AvailAfter(bodies[0], {}) - {} || id in AllLive(bodies[1..]);
      }
    }
  }
}

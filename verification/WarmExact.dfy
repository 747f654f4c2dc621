/** The warm-up threshold and the collected calls, read off the tree: the threshold is the least that covers every
    bounded call, and the calls collected are all the unconditional ones. */
module WarmExact {
  import opened Ast
  import opened Claims
  import opened Warm

  /** All calls of a tree, at any depth and in branches too. */
  function AllCalls(e: Expr): set<Expr>
    decreases e, 1
  {
    match e
    case Unary(_, x) => AllCalls(x)
    case Binary(_, l, r) => AllCalls(l) + AllCalls(r)
    case Cond(c, t, f) => AllCalls(c) + AllCalls(t) + AllCalls(f)
    case Call(_, args, _) => {e} + AllCallsArgs(args)
    case _ => {}
  }

  function AllCallsArgs(args: seq<Expr>): set<Expr>
    decreases args, 0
  {
    if args == [] then {} else AllCalls(args[0]) + AllCallsArgs(args[1..])
  }

  const BOUNDED: set<string> :=
    {"sma", "ema", "ema_alpha", "lag", "rolling_std", "rolling_min", "rolling_max", "zscore", "vwap"}

  /** A bounded operator with a literal period, or an ema_alpha. */
  predicate Counts(c: Expr) {
    c.Call? && c.name in BOUNDED && |c.args| >= 2 && (c.name == "ema_alpha" || c.args[1].Num?)
  }

  /** How many ticks it takes such a call to warm up. */
  function Need(c: Expr, intOf: Bits64 -> int): int
    requires Counts(c)
  {
    if c.name == "ema" || c.name == "ema_alpha" then 1 else intOf(c.args[1].bits)
  }

  /** `t` is the least number that is at least `found` and covers all of `calls`. */
  ghost predicate LeastCover(calls: set<Expr>, intOf: Bits64 -> int, found: int, t: int) {
    && found <= t
    && (forall c <- calls | Counts(c) :: Need(c, intOf) <= t)
    && (t == found || exists c <- calls :: Counts(c) && Need(c, intOf) == t)
  }

  lemma CoverBoth(a: set<Expr>, b: set<Expr>, intOf: Bits64 -> int, found: int, t: int, u: int)
    requires LeastCover(a, intOf, found, t) && LeastCover(b, intOf, t, u)
    ensures LeastCover(a + b, intOf, found, u)
  {
    hide Counts, Need;
    if u == t && t != found {
      var c :| c in a && Counts(c) && Need(c, intOf) == t;
      assert c in a + b;
    } else if u != t {
      var c :| c in b && Counts(c) && Need(c, intOf) == u;
      assert c in a + b;
    }
  }

  lemma OwnCover(e: Expr, intOf: Bits64 -> int, found: int)
    requires e.Call? && found >= 0
    ensures LeastCover({e}, intOf, found, Max(found, OpThreshold(e.name, e.args, intOf)))
  {
    assert e in {e};
  }

  lemma {:induction false} RaiseCovers(e: Expr, intOf: Bits64 -> int, found: int)
    requires found >= 0
    ensures LeastCover(AllCalls(e), intOf, found, RaiseThreshold(e, found, intOf))
    decreases e, 1
  {
    hide KindOf, LeastCover, OpThreshold;
    match e
    case Unary(_, x) => RaiseCovers(x, intOf, found);
    case Binary(_, l, r) =>
      RaiseCovers(l, intOf, found);
      var a := RaiseThreshold(l, found, intOf);
      RaiseRaises(l, found, intOf);
      RaiseCovers(r, intOf, a);
      CoverBoth(AllCalls(l), AllCalls(r), intOf, found, a, RaiseThreshold(r, a, intOf));
    case Cond(c, t, f) =>
      RaiseCovers(c, intOf, found);
      var a := RaiseThreshold(c, found, intOf);
      RaiseRaises(c, found, intOf);
      RaiseCovers(t, intOf, a);
      var b := RaiseThreshold(t, a, intOf);
      RaiseRaises(t, a, intOf);
      RaiseCovers(f, intOf, b);
      CoverBoth(AllCalls(c), AllCalls(t), intOf, found, a, b);
      CoverBoth(AllCalls(c) + AllCalls(t), AllCalls(f), intOf, found, b, RaiseThreshold(f, b, intOf));
    case Call(n, args, _) =>
      OwnCover(e, intOf, found);
      var a := Max(found, OpThreshold(n, args, intOf));
      RaiseCoversArgs(args, intOf, a);
      CoverBoth({e}, AllCallsArgs(args), intOf, found, a, RaiseThresholdArgs(args, a, intOf));
    case _ => CoverNone(intOf, found);
  }

  lemma CoverNone(intOf: Bits64 -> int, found: int)
    ensures LeastCover({}, intOf, found, found)
  {
  }

  lemma {:induction false} RaiseCoversArgs(args: seq<Expr>, intOf: Bits64 -> int, found: int)
    requires found >= 0
    ensures LeastCover(AllCallsArgs(args), intOf, found, RaiseThresholdArgs(args, found, intOf))
    decreases args, 0
  {
    hide LeastCover;
    if args == [] {
      CoverNone(intOf, found);
    } else {
      RaiseCovers(args[0], intOf, found);
      var a := RaiseThreshold(args[0], found, intOf);
      RaiseRaises(args[0], found, intOf);
      RaiseCoversArgs(args[1..], intOf, a);
      CoverBoth(AllCalls(args[0]), AllCallsArgs(args[1..]), intOf, found, a, RaiseThresholdArgs(args[1..], a, intOf));
    }
  }

  /** The program's threshold is the largest need of any bounded call in it, in branches too, and 0 if there is
      none above that: no smaller number covers them. */
  lemma ThresholdIsLeast(bodies: seq<Expr>, intOf: Bits64 -> int)
    ensures var t := ComputeProgramWarmupThreshold(bodies, intOf);
      && 0 <= t && (forall c <- AllCallsArgs(bodies) | Counts(c) :: Need(c, intOf) <= t)
      && (t == 0 || exists c <- AllCallsArgs(bodies) :: Counts(c) && Need(c, intOf) == t)
  {
    hide Counts, Need;
    RaiseCoversArgs(bodies, intOf, 0);
  }

  // ---- The calls that are collected ----

  const WARM: set<string> := {"sma", "ema", "lag"}

  ghost predicate IsWarmCall(calls: set<Expr>, id: int) {
    exists c <- calls :: c.Call? && c.name in WARM && c.nodeId == id
  }

  lemma WarmNames(n: string)
    ensures IsWarmable(n) <==> n in WARM
    ensures IsWarmable(n) ==> IsStatefulOp(n)
  {
  }

  lemma WarmBoth(a: set<Expr>, b: set<Expr>, id: int)
    ensures IsWarmCall(a + b, id) <==> IsWarmCall(a, id) || IsWarmCall(b, id)
  {
    if IsWarmCall(a, id) {
      var c :| c in a && c.Call? && c.name in WARM && c.nodeId == id;
      assert c in a + b;
    }
    if IsWarmCall(b, id) {
      var c :| c in b && c.Call? && c.name in WARM && c.nodeId == id;
      assert c in a + b;
    }
  }

  lemma OwnWarm(e: Expr, id: int)
    requires e.Call?
    ensures IsWarmCall(if IsStatefulOp(e.name) then {e} else {}, id) <==>
            id in if IsWarmable(e.name) then {e.nodeId} else {}
  {
    WarmNames(e.name);
    hide KindOf;
    var own := if IsStatefulOp(e.name) then {e} else {};
    if IsWarmable(e.name) { assert e in own; }
  }

  lemma {:induction false} Collects(e: Expr, id: int)
    ensures id in CollectWarmSafe(e) <==> IsWarmCall(UncondIn(e), id)
    decreases e, 1
  {
    hide KindOf, IsWarmCall, IsWarmable;
    match e
    case Unary(_, x) => Collects(x, id);
    case Binary(_, l, r) => Collects(l, id); Collects(r, id); WarmBoth(UncondIn(l), UncondIn(r), id);
    case Cond(c, _, _) => Collects(c, id);
    case Call(n, args, _) =>
      CollectsArgs(args, id);
      OwnWarm(e, id);
      WarmBoth(if IsStatefulOp(n) then {e} else {}, UncondInArgs(args), id);
    case _ => NoWarm(id);
  }

  lemma NoWarm(id: int)
    ensures !IsWarmCall({}, id)
  {
  }

  lemma {:induction false} CollectsArgs(args: seq<Expr>, id: int)
    ensures id in CollectWarmSafeArgs(args) <==> IsWarmCall(UncondInArgs(args), id)
    decreases args, 0
  {
    hide IsWarmCall;
    if args == [] {
      NoWarm(id);
    } else {
      Collects(args[0], id);
      CollectsArgs(args[1..], id);
      WarmBoth(UncondIn(args[0]), UncondInArgs(args[1..]), id);
    }
  }

  /** What is compiled without guards: exactly the sma, ema and lag calls outside every branch. */
  lemma CollectsAllUnconditional(bodies: seq<Expr>, id: int)
    ensures id in CollectAll(bodies) <==>
      exists c <- UncondInArgs(bodies) :: c.name in {"sma", "ema", "lag"} && c.nodeId == id
  {
    CollectsArgs(bodies, id);
  }
}

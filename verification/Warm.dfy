/** The warm specialisation: after enough ticks, the program compiled without warm-up guards on its
    unconditional sma, ema and lag calls does what the baseline program does. */
module Warm {
  import opened Ast
  import opened Evaluation
  import opened Sharing
  import opened NodeIds
  import opened AllocSound
  import opened CodegenCorrect
  import opened Program
  import opened Streams
  import opened StreamsProgram
  import opened AllocSteady
  import opened StepCounts

  /** Operators that have a variant without guards. */
  predicate IsWarmable(n: string) {
    var k := KindOf(n); k.Sma? || k.Ema? || k.Lag?
  }

  /** The ids of the warmable calls outside every then/else branch.  The compiler collects the call nodes
      themselves; the node that is emitted for an id is the first one with that id. */
  function CollectWarmSafe(e: Expr): set<int>
    decreases e, 1
  {
    match e
    case Unary(_, x) => CollectWarmSafe(x)
    case Binary(_, l, r) => CollectWarmSafe(l) + CollectWarmSafe(r)
    case Cond(c, _, _) => CollectWarmSafe(c)
    case Call(n, args, id) => CollectWarmSafeArgs(args) + if IsWarmable(n) then {id} else {}
    case _ => {}
  }

  function CollectWarmSafeArgs(args: seq<Expr>): set<int>
    decreases args, 0
  {
    if args == [] then {} else CollectWarmSafe(args[0]) + CollectWarmSafeArgs(args[1..])
  }

  function CollectAll(bodies: seq<Expr>): set<int> {
    CollectWarmSafeArgs(bodies)
  }

  /** Operators that count towards the warm-up threshold. */
  predicate IsWarmupBounded(n: string) {
    var k := KindOf(n);
    k.Sma? || k.Ema? || k.EmaAlpha? || k.Lag? || k.RollingStd? || k.RollingMin? || k.RollingMax? || k.Zscore? || k.Vwap?
  }

  function Max(a: int, b: int): int {
    if a < b then b else a
  }

  /** One call's contribution; `intOf` truncates a literal to an integer. */
  function OpThreshold(n: string, args: seq<Expr>, intOf: Bits64 -> int): int {
    if !IsWarmupBounded(n) || |args| < 2 then 0
    else if KindOf(n).EmaAlpha? then 1
    else if !args[1].Num? then 0
    else if KindOf(n).Ema? then 1
    else intOf(args[1].bits)
  }

  /** The walk over one body, raising the threshold found so far. */
  function RaiseThreshold(e: Expr, found: int, intOf: Bits64 -> int): int
    decreases e, 1
  {
    match e
    case Unary(_, x) => RaiseThreshold(x, found, intOf)
    case Binary(_, l, r) => RaiseThreshold(r, RaiseThreshold(l, found, intOf), intOf)
    case Cond(c, t, f) => RaiseThreshold(f, RaiseThreshold(t, RaiseThreshold(c, found, intOf), intOf), intOf)
    case Call(n, args, _) => RaiseThresholdArgs(args, Max(found, OpThreshold(n, args, intOf)), intOf)
    case _ => found
  }

  function RaiseThresholdArgs(args: seq<Expr>, found: int, intOf: Bits64 -> int): int
    decreases args, 0
  {
    if args == [] then found else RaiseThresholdArgs(args[1..], RaiseThreshold(args[0], found, intOf), intOf)
  }

  function ComputeProgramWarmupThreshold(bodies: seq<Expr>, intOf: Bits64 -> int): int {
    RaiseThresholdArgs(bodies, 0, intOf)
  }

  /** Every warm-safe id stands for a call whose own threshold the program's threshold covers. */
  ghost predicate Covers(ids: set<int>, key: map<int, Expr>, intOf: Bits64 -> int, threshold: int) {
    forall id <- ids :: id in key && key[id].Call? && IsWarmable(key[id].name) &&
      OpThreshold(key[id].name, key[id].args, intOf) <= threshold
  }

  lemma CoversHigher(ids: set<int>, key: map<int, Expr>, intOf: Bits64 -> int, a: int, b: int)
    requires Covers(ids, key, intOf, a) && a <= b
    ensures Covers(ids, key, intOf, b)
  {
  }

  lemma {:induction false} RaiseRaises(e: Expr, found: int, intOf: Bits64 -> int)
    ensures found <= RaiseThreshold(e, found, intOf)
    decreases e, 1
  {
    hide KindOf, OpThreshold;
    match e
    case Unary(_, x) => RaiseRaises(x, found, intOf);
    case Binary(_, l, r) => RaiseRaises(l, found, intOf); RaiseRaises(r, RaiseThreshold(l, found, intOf), intOf);
    case Cond(c, t, f) =>
      RaiseRaises(c, found, intOf);
      var a := RaiseThreshold(c, found, intOf);
      RaiseRaises(t, a, intOf);
      RaiseRaises(f, RaiseThreshold(t, a, intOf), intOf);
    case Call(n, args, _) => RaiseRaisesArgs(args, Max(found, OpThreshold(n, args, intOf)), intOf);
    case _ => {}
  }

  lemma {:induction false} RaiseRaisesArgs(args: seq<Expr>, found: int, intOf: Bits64 -> int)
    ensures found <= RaiseThresholdArgs(args, found, intOf)
    decreases args, 0
  {
    if args != [] {
      RaiseRaises(args[0], found, intOf);
      RaiseRaisesArgs(args[1..], RaiseThreshold(args[0], found, intOf), intOf);
    }
  }

  lemma WarmableStateful(n: string)
    ensures IsWarmable(n) ==> IsStatefulOp(n) && IsWarmupBounded(n)
  {
  }

  lemma {:induction false} ThresholdCovers(e: Expr, key: map<int, Expr>, found: int, intOf: Bits64 -> int)
    requires Consistent(e, key)
    ensures Covers(CollectWarmSafe(e), key, intOf, RaiseThreshold(e, found, intOf))
    decreases e, 1
  {
    hide KindOf, OpThreshold, Covers;
    match e
    case Unary(_, x) => ThresholdCovers(x, key, found, intOf);
    case Binary(_, l, r) =>
      ThresholdCovers(l, key, found, intOf);
      var a := RaiseThreshold(l, found, intOf);
      ThresholdCovers(r, key, a, intOf);
      RaiseRaises(r, a, intOf);
      CoversBoth(CollectWarmSafe(l), CollectWarmSafe(r), key, intOf, a, RaiseThreshold(r, a, intOf));
    case Cond(c, t, f) =>
      ThresholdCovers(c, key, found, intOf);
      var a := RaiseThreshold(c, found, intOf);
      var b := RaiseThreshold(t, a, intOf);
      RaiseRaises(t, a, intOf);
      RaiseRaises(f, b, intOf);
      CoversHigher(CollectWarmSafe(c), key, intOf, a, RaiseThreshold(f, b, intOf));
    case Call(n, args, id) =>
      var a := Max(found, OpThreshold(n, args, intOf));
      ThresholdCoversArgs(args, key, a, intOf);
      RaiseRaisesArgs(args, a, intOf);
      var own := if IsWarmable(n) then {id} else {};
      WarmableStateful(n);
      assert Covers(own, key, intOf, a) by { CoversOwn(e, key, intOf, own, a); }
      CoversBoth(own, CollectWarmSafeArgs(args), key, intOf, a, RaiseThresholdArgs(args, a, intOf));
      assert own + CollectWarmSafeArgs(args) == CollectWarmSafe(e);
    case _ => CoversNone(key, intOf, found);
  }

  lemma CoversNone(key: map<int, Expr>, intOf: Bits64 -> int, n: int)
    ensures Covers({}, key, intOf, n)
  {
  }

  lemma CoversOwn(e: Expr, key: map<int, Expr>, intOf: Bits64 -> int, own: set<int>, n: int)
    requires e.Call? && own <= {e.nodeId} && OpThreshold(e.name, e.args, intOf) <= n
    requires own != {} ==> IsWarmable(e.name) && e.nodeId in key && key[e.nodeId] == CloneExpr(e)
    ensures Covers(own, key, intOf, n)
  {
    if own != {} {
      var args := CloneArgs(e.args);
      assert OpThreshold(e.name, args, intOf) == OpThreshold(e.name, e.args, intOf) by {
        hide KindOf;
        if |e.args| >= 2 { assert args[1] == CloneExpr(e.args[1]); }
      }
    }
  }

  lemma CoversBoth(a: set<int>, b: set<int>, key: map<int, Expr>, intOf: Bits64 -> int, m: int, n: int)
    requires Covers(a, key, intOf, m) && Covers(b, key, intOf, n) && m <= n
    ensures Covers(a + b, key, intOf, n)
  {
    hide OpThreshold, KindOf;
  }

  lemma {:induction false} ThresholdCoversArgs(args: seq<Expr>, key: map<int, Expr>, found: int, intOf: Bits64 -> int)
    requires ConsistentArgs(args, key)
    ensures Covers(CollectWarmSafeArgs(args), key, intOf, RaiseThresholdArgs(args, found, intOf))
    decreases args, 0
  {
    hide Covers;
    if args == [] {
      CoversNone(key, intOf, found);
    } else {
      ThresholdCovers(args[0], key, found, intOf);
      var a := RaiseThreshold(args[0], found, intOf);
      ThresholdCoversArgs(args[1..], key, a, intOf);
      RaiseRaisesArgs(args[1..], a, intOf);
      CoversBoth(CollectWarmSafe(args[0]), CollectWarmSafeArgs(args[1..]), key, intOf, a,
                 RaiseThresholdArgs(args[1..], a, intOf));
    }
  }
}

/** What the lowered sma, ema and lag compute, over whole runs: the mean of the window, a weighted sum of all
    samples, and the sample of some ticks ago. */
module LoweredRuns {
  import opened Options
  import opened Reals
  import opened Ast
  import opened Evaluation
  import opened Program
  import opened Streams
  import opened Windows
  import opened RingStats
  import opened PairStats
  import opened WarmOps

  // ---- One slot, fed sample by sample ----

  ghost function SlotAfter<M, V, T>(base: Ops<M, V, T>, ar: Arith<V>, intOf: Bits64 -> int, k: Expr, xs: seq<V>)
      : OpState<V, T>
    decreases |xs|
  {
    if xs == [] then InitOf(base, ar, intOf, k)
    else
      var n := |xs| - 1;
      Update(base, ar, intOf, false, k, [xs[n]], SlotAfter(base, ar, intOf, k, xs[..n])).1
  }

  /** The output for the last of the samples `xs`. */
  ghost function OutputOf<M, V, T>(base: Ops<M, V, T>, ar: Arith<V>, intOf: Bits64 -> int, k: Expr, xs: seq<V>): V
    requires xs != []
  {
    var n := |xs| - 1;
    Update(base, ar, intOf, false, k, [xs[n]], SlotAfter(base, ar, intOf, k, xs[..n])).0
  }

  /** The last `period` samples. */
  function Recent<T>(xs: seq<T>, period: nat): seq<T> {
    xs[WindowStart(|xs|, period)..]
  }

  // ---- lag, for any values ----

  ghost predicate Holds<V>(buf: seq<V>, head: nat, count: nat, period: nat, xs: seq<V>) {
    period > 0 && |buf| == period && RingShaped(buf, head, count) && WindowOf(buf, head, count) == Recent(xs, period)
  }

  lemma HoldsMore<V>(buf: seq<V>, head: nat, count: nat, period: nat, xs: seq<V>)
    requires xs != [] && Holds(buf, head, count, period, xs[..|xs| - 1])
    ensures var x := xs[|xs| - 1];
      Holds(buf[head := x], (head + 1) % period, if count == period then count else count + 1, period, xs)
    ensures count == period <==> |xs| > period
    ensures count == period ==> buf[head] == xs[|xs| - 1 - period]
  {
    var n := |xs| - 1;
    WriteMovesWindow(buf, head, count, xs[n]);
    HistoryMovesWindow(xs, period);
    assert |Recent(xs[..n], period)| == count;
    if count == period { assert buf[head] == Recent(xs[..n], period)[0]; }
  }

  lemma NothingHeld<V>(buf: seq<V>, period: nat, xs: seq<V>)
    requires |buf| == period > 0 && xs == []
    ensures Holds(buf, 0, 0, period, xs)
  {
  }

  lemma HoldsShape<V>(buf: seq<V>, head: nat, count: nat, period: nat, xs: seq<V>)
    requires Holds(buf, head, count, period, xs)
    ensures |buf| == period && head < period && (count == period <==> |xs| >= period)
  {
    assert |WindowOf(buf, head, count)| == count;
  }

  lemma LagUpdates<M, V, T>(base: Ops<M, V, T>, ar: Arith<V>, intOf: Bits64 -> int, k: Expr, x: V, s: OpState<V, T>)
    requires s.OfLag? && s.lag.head < |s.lag.buf|
    ensures var a, p, r := s.lag, Period(k, intOf), Update(base, ar, intOf, false, k, [x], s);
      && r.0 == (if a.count == p then a.buf[a.head] else ar.nan)
      && r.1 == OfLag(LagState(a.buf[a.head := x], (a.head + 1) % p, if a.count == p then a.count else a.count + 1))
  {
  }

  lemma {:induction false} LagSlotIs<M, V, T>(base: Ops<M, V, T>, ar: Arith<V>, intOf: Bits64 -> int, k: Expr,
                                              xs: seq<V>)
    requires Accepted(k, intOf) && KindOf(k.name).Lag?
    ensures var s := SlotAfter(base, ar, intOf, k, xs);
      s.OfLag? && Holds(s.lag.buf, s.lag.head, s.lag.count, Period(k, intOf), xs)
    decreases |xs|
  {
    hide KindOf, Holds, Update;
    var p := Period(k, intOf);
    if xs == [] {
      NothingHeld(seq(p, _ => ar.zero), p, xs);
    } else {
      var n := |xs| - 1;
      LagSlotIs(base, ar, intOf, k, xs[..n]);
      var s := SlotAfter(base, ar, intOf, k, xs[..n]);
      HoldsShape(s.lag.buf, s.lag.head, s.lag.count, p, xs[..n]);
      HoldsMore(s.lag.buf, s.lag.head, s.lag.count, p, xs);
      LagUpdates(base, ar, intOf, k, xs[n], s);
    }
  }

  /** Not a number for the first `period` ticks, then the sample of `period` ticks ago. */
  lemma LagOutput<M, V, T>(base: Ops<M, V, T>, ar: Arith<V>, intOf: Bits64 -> int, k: Expr, xs: seq<V>)
    requires Accepted(k, intOf) && KindOf(k.name).Lag? && xs != []
    ensures var p := intOf(k.args[1].bits);
      OutputOf(base, ar, intOf, k, xs) == if |xs| <= p then ar.nan else xs[|xs| - 1 - p]
  {
    hide KindOf, Update, Holds;
    var n, p := |xs| - 1, Period(k, intOf);
    LagSlotIs(base, ar, intOf, k, xs[..n]);
    var s := SlotAfter(base, ar, intOf, k, xs[..n]);
    HoldsShape(s.lag.buf, s.lag.head, s.lag.count, p, xs[..n]);
    HoldsMore(s.lag.buf, s.lag.head, s.lag.count, p, xs);
    LagUpdates(base, ar, intOf, k, xs[n], s);
  }

  // ---- sma and ema, over the reals ----

  function Lift2(f: (real, real) -> real): (Option<real>, Option<real>) -> Option<real> {
    (a: Option<real>, b: Option<real>) => if a.Some? && b.Some? then Some(f(a.value, b.value)) else None
  }

  function Alpha(period: int): real {
    if period == -1 then 0.0 else 2.0 / (period as real + 1.0)
  }

  /** Doubles as reals, with `None` for not a number. */
  function RealArith(): Arith<Option<real>> {
    Arith(Lift2((a: real, b: real) => a + b), Lift2((a: real, b: real) => a - b),
          Lift2((a: real, b: real) => Times(a, b)),
          (a: Option<real>, b: Option<real>) =>
            if a.Some? && b.Some? && b.value != 0.0 then Some(a.value / b.value) else None,
          Some(0.0), None, (p: int) => Some(p as real), (p: int) => Some(Alpha(p)), (p: int) => Some(1.0 - Alpha(p)))
  }

  function Somes(xs: seq<real>): (r: seq<Option<real>>)
    ensures |r| == |xs| && forall i :: 0 <= i < |xs| ==> r[i] == Some(xs[i])
  {
    seq(|xs|, i requires 0 <= i < |xs| => Some(xs[i]))
  }

  lemma SomesSlices(xs: seq<real>, i: nat)
    requires i <= |xs|
    ensures Somes(xs[..i]) == Somes(xs)[..i] && Somes(xs[i..]) == Somes(xs)[i..]
  {
  }

  /** The running sum is that of the window. */
  lemma SumMoves(xs: seq<real>, period: nat)
    requires xs != [] && period > 0
    ensures var n := |xs| - 1;
      SumOf(Recent(xs, period))
        == SumOf(Recent(xs[..n], period)) + xs[n] - if n >= period then xs[n - period] else 0.0
  {
    var n := |xs| - 1;
    var before := Recent(xs[..n], period);
    HistoryMovesWindow(xs, period);
    Snoc(Kept(before, period), xs[n]);
    if n >= period {
      assert before == [xs[n - period]] + before[1..];
      Cons(xs[n - period], before[1..]);
    }
    hide SumOf, SquaresOf;
  }

  lemma SmaUpdates<M, T>(base: Ops<M, Option<real>, T>, intOf: Bits64 -> int, k: Expr, x: real,
                         s: OpState<Option<real>, T>)
    requires s.OfSma? && s.sma.head < |s.sma.buf| && s.sma.sum.Some?
    requires s.sma.count == Period(k, intOf) ==> s.sma.buf[s.sma.head].Some?
    ensures var a, p, r := s.sma, Period(k, intOf), Update(base, RealArith(), intOf, false, k, [Some(x)], s);
      var sum := a.sum.value + x - if a.count == p then a.buf[a.head].value else 0.0;
      var count := if a.count == p then a.count else a.count + 1;
      && r.0 == (if count == p then Some(sum / (p as real)) else None)
      && r.1 == OfSma(SmaState(a.buf[a.head := Some(x)], Some(sum), (a.head + 1) % p, count))
  {
  }

  /** The state of the slot, and what it is about to put out. */
  ghost predicate SmaSound<T>(s: OpState<Option<real>, T>, p: nat, xs: seq<real>) {
    s.OfSma? && Holds(s.sma.buf, s.sma.head, s.sma.count, p, Somes(xs)) && s.sma.sum == Some(SumOf(Recent(xs, p)))
  }

  lemma SmaSteps<M, T>(base: Ops<M, Option<real>, T>, intOf: Bits64 -> int, k: Expr, xs: seq<real>,
                       s: OpState<Option<real>, T>)
    requires xs != [] && SmaSound(s, Period(k, intOf), xs[..|xs| - 1])
    ensures var p, r := Period(k, intOf), Update(base, RealArith(), intOf, false, k, [Some(xs[|xs| - 1])], s);
      && SmaSound(r.1, p, xs)
      && r.0 == if |xs| < p then None else Some(SumOf(Recent(xs, p)) / (p as real))
  {
    hide Update, Holds, SumOf, Recent, WindowOf, Period, Somes;
    var n, p := |xs| - 1, Period(k, intOf);
    SomesSlices(xs, n);
    HoldsShape(s.sma.buf, s.sma.head, s.sma.count, p, Somes(xs)[..n]);
    HoldsMore(s.sma.buf, s.sma.head, s.sma.count, p, Somes(xs));
    SmaUpdates(base, intOf, k, xs[n], s);
    SumMoves(xs, p);
    var a := Update(base, RealArith(), intOf, false, k, [Some(xs[n])], s).1.sma;
    HoldsShape(a.buf, a.head, a.count, p, Somes(xs));
  }

  lemma {:induction false} SmaSlotIs<M, T>(base: Ops<M, Option<real>, T>, intOf: Bits64 -> int, k: Expr, xs: seq<real>)
    requires Accepted(k, intOf) && KindOf(k.name).Sma?
    ensures SmaSound(SlotAfter(base, RealArith(), intOf, k, Somes(xs)), Period(k, intOf), xs)
    decreases |xs|
  {
    hide KindOf, Holds, Update, RealArith;
    var p := Period(k, intOf);
    if xs == [] {
      SmaStarts(base, intOf, k);
      assert Somes(xs) == [] && Recent(xs, p) == [];
    } else {
      var n := |xs| - 1;
      SomesSlices(xs, n);
      SmaSlotIs(base, intOf, k, xs[..n]);
      hide SmaSound;
      SmaSteps(base, intOf, k, xs, SlotAfter(base, RealArith(), intOf, k, Somes(xs[..n])));
    }
  }

  lemma SmaStarts<M, T>(base: Ops<M, Option<real>, T>, intOf: Bits64 -> int, k: Expr)
    requires Accepted(k, intOf) && KindOf(k.name).Sma?
    ensures SmaSound(InitOf(base, RealArith(), intOf, k), Period(k, intOf), [])
  {
    hide KindOf;
    assert Somes([]) == [] && SumOf([]) == 0.0;
  }

  /** Not a number until the window is full, then its mean. */
  lemma SmaOutput<M, T>(base: Ops<M, Option<real>, T>, intOf: Bits64 -> int, k: Expr, xs: seq<real>)
    requires Accepted(k, intOf) && KindOf(k.name).Sma? && xs != []
    ensures var p, out := intOf(k.args[1].bits), OutputOf(base, RealArith(), intOf, k, Somes(xs));
      out == if |xs| < p then None else Some(SumOf(xs[|xs| - p..]) / (p as real))
  {
    hide KindOf, Update, SmaSound, RealArith;
    var n := |xs| - 1;
    SomesSlices(xs, n);
    SmaSlotIs(base, intOf, k, xs[..n]);
    SmaSteps(base, intOf, k, xs, SlotAfter(base, RealArith(), intOf, k, Somes(xs[..n])));
  }

  function Power(b: real, n: nat): real {
    if n == 0 then 1.0 else Times(b, Power(b, n - 1))
  }

  /** The weight of sample `i` of `n`. */
  function Weight(alpha: real, n: nat, i: nat): real
    requires i < n
  {
    if i == 0 then Power(1.0 - alpha, n - 1) else Times(alpha, Power(1.0 - alpha, n - 1 - i))
  }

  /** The weights of `n` samples, oldest first. */
  function Weights(alpha: real, n: nat): (ws: seq<real>)
    ensures |ws| == n && forall i :: 0 <= i < n ==> ws[i] == Weight(alpha, n, i)
  {
    seq(n, i requires 0 <= i < n => Weight(alpha, n, i))
  }

  lemma WeightMoves(alpha: real, n: nat, i: nat)
    requires i < n
    ensures Weight(alpha, n + 1, i) == Times(1.0 - alpha, Weight(alpha, n, i))
    ensures Weight(alpha, n + 1, n) == alpha
  {
    hide Times;
    if i > 0 { Reorders(alpha, 1.0 - alpha, Power(1.0 - alpha, n - 1 - i)); }
    TimesOne(alpha);
  }

  lemma {:induction false} DotScales(c: real, a: seq<real>, b: seq<real>, xs: seq<real>)
    requires |a| == |b| == |xs| && forall i :: 0 <= i < |a| ==> b[i] == Times(c, a[i])
    ensures Dot(b, xs) == Times(c, Dot(a, xs))
    decreases |xs|
  {
    if xs != [] {
      var n := |xs| - 1;
      DotScales(c, a[..n], b[..n], xs[..n]);
      Distributes(c, Dot(a[..n], xs[..n]), a[n], xs[n]);
      hide Times;
    }
  }

  lemma Distributes(c: real, d: real, a: real, x: real)
    ensures Times(c, d + Times(a, x)) == Times(c, d) + Times(Times(c, a), x)
  {
  }

  lemma Reorders(a: real, b: real, c: real)
    ensures Times(a, Times(b, c)) == Times(b, Times(a, c))
  {
  }

  lemma WeightsMove(alpha: real, xs: seq<real>)
    requires |xs| > 1
    ensures var n := |xs| - 1;
      Dot(Weights(alpha, |xs|), xs) == Times(alpha, xs[n]) + Times(1.0 - alpha, Dot(Weights(alpha, n), xs[..n]))
  {
    var n, keep := |xs| - 1, 1.0 - alpha;
    var a, b := Weights(alpha, n), Weights(alpha, n + 1);
    hide Times, Weight, Power;
    forall i | 0 <= i < n ensures b[..n][i] == Times(keep, a[i]) { WeightMoves(alpha, n, i); }
    WeightMoves(alpha, n, 0);
    DotScales(keep, a, b[..n], xs[..n]);
  }

  lemma TimesOne(a: real)
    ensures Times(a, 1.0) == a == Times(1.0, a)
  {
  }

  lemma EmaUpdates<M, T>(base: Ops<M, Option<real>, T>, intOf: Bits64 -> int, k: Expr, x: real,
                         s: OpState<Option<real>, T>)
    requires s.OfEma? && (s.ema.init ==> s.ema.value.Some?)
    ensures var alpha, r := Alpha(Period(k, intOf)), Update(base, RealArith(), intOf, false, k, [Some(x)], s);
      var v := if s.ema.init then Times(alpha, x) + Times(1.0 - alpha, s.ema.value.value) else x;
      r == (Some(v), OfEma(EmaState(Some(v), true)))
  {
    hide Times;
  }

  ghost predicate EmaSound<T>(s: OpState<Option<real>, T>, alpha: real, xs: seq<real>) {
    && s.OfEma? && s.ema.init == (xs != [])
    && (xs != [] ==> s.ema.value == Some(Dot(Weights(alpha, |xs|), xs)))
  }

  lemma EmaSteps<M, T>(base: Ops<M, Option<real>, T>, intOf: Bits64 -> int, k: Expr, xs: seq<real>,
                       s: OpState<Option<real>, T>)
    requires xs != [] && EmaSound(s, Alpha(Period(k, intOf)), xs[..|xs| - 1])
    ensures var alpha, r := Alpha(Period(k, intOf)),
            Update(base, RealArith(), intOf, false, k, [Some(xs[|xs| - 1])], s);
      && EmaSound(r.1, alpha, xs) && r.0 == Some(Dot(Weights(alpha, |xs|), xs))
  {
    hide *;
    var n, alpha := |xs| - 1, Alpha(Period(k, intOf));
    EmaOpens(s, alpha, xs[..n]);
    EmaUpdates(base, intOf, k, xs[n], s);
    EmaMoves(alpha, xs);
    EmaCloses(Update(base, RealArith(), intOf, false, k, [Some(xs[n])], s).1, alpha, xs);
  }

  lemma EmaOpens<T>(s: OpState<Option<real>, T>, alpha: real, xs: seq<real>)
    requires EmaSound(s, alpha, xs)
    ensures s.OfEma? && s.ema.init == (|xs| > 0) && (|xs| > 0 ==> s.ema.value == Some(Dot(Weights(alpha, |xs|), xs)))
  {
    hide Dot, Weights;
  }

  lemma EmaCloses<T>(s: OpState<Option<real>, T>, alpha: real, xs: seq<real>)
    requires xs != [] && s == OfEma(EmaState(Some(Dot(Weights(alpha, |xs|), xs)), true))
    ensures EmaSound(s, alpha, xs)
  {
    hide Dot, Weights;
  }

  lemma EmaMoves(alpha: real, xs: seq<real>)
    requires xs != []
    ensures var n := |xs| - 1;
      Dot(Weights(alpha, |xs|), xs) ==
        if n == 0 then xs[n] else Times(alpha, xs[n]) + Times(1.0 - alpha, Dot(Weights(alpha, n), xs[..n]))
  {
    hide Times, Weights, Dot;
    if |xs| == 1 {
      OneWeight(alpha, xs[0]);
      assert xs == [xs[0]];
    } else {
      WeightsMove(alpha, xs);
    }
  }

  lemma {:induction false} EmaSlotIs<M, T>(base: Ops<M, Option<real>, T>, intOf: Bits64 -> int, k: Expr, xs: seq<real>)
    requires Accepted(k, intOf) && KindOf(k.name).Ema?
    ensures EmaSound(SlotAfter(base, RealArith(), intOf, k, Somes(xs)), Alpha(Period(k, intOf)), xs)
    decreases |xs|
  {
    hide KindOf, Update, Times, Weights, Dot;
    if xs != [] {
      var n := |xs| - 1;
      SomesSlices(xs, n);
      EmaSlotIs(base, intOf, k, xs[..n]);
      hide EmaSound;
      EmaSteps(base, intOf, k, xs, SlotAfter(base, RealArith(), intOf, k, Somes(xs[..n])));
    }
  }

  lemma OneWeight(alpha: real, x: real)
    ensures Dot(Weights(alpha, 1), [x]) == x
  {
    TimesOne(x);
    var w := Weights(alpha, 1);
    hide Times;
    assert w[0] == Weight(alpha, 1, 0) == 1.0;
    assert Dot(w[..0], [x][..0]) == 0.0;
  }

  /** The first output is the first sample; every later one is a weighted sum of all samples, each older one
      weighing 1 - alpha times as much, with alpha = 2 / (period + 1). */
  lemma EmaOutput<M, T>(base: Ops<M, Option<real>, T>, intOf: Bits64 -> int, k: Expr, xs: seq<real>)
    requires Accepted(k, intOf) && KindOf(k.name).Ema? && xs != []
    ensures var alpha, out := 2.0 / (intOf(k.args[1].bits) as real + 1.0),
            OutputOf(base, RealArith(), intOf, k, Somes(xs));
      && out == Some(Dot(Weights(alpha, |xs|), xs))
      && (|xs| == 1 ==> out == Some(xs[0]))
  {
    hide KindOf, Update, Times, Weights, Dot, EmaSound, RealArith;
    var n, alpha := |xs| - 1, Alpha(Period(k, intOf));
    SomesSlices(xs, n);
    EmaSlotIs(base, intOf, k, xs[..n]);
    EmaSteps(base, intOf, k, xs, SlotAfter(base, RealArith(), intOf, k, Somes(xs[..n])));
    if n == 0 {
      OneWeight(alpha, xs[0]);
      assert xs == [xs[0]];
    }
  }

  /** The weights are those of a mean. */
  lemma {:induction false} WeightsSum(alpha: real, n: nat)
    requires n > 0
    ensures SumOf(Weights(alpha, n)) == 1.0
    decreases n
  {
    hide Times, Weight, Power;
    if n == 1 {
      OneWeightSum(alpha);
    } else {
      var a, b, keep := Weights(alpha, n - 1), Weights(alpha, n), 1.0 - alpha;
      WeightsSum(alpha, n - 1);
      forall i | 0 <= i < n - 1 ensures b[..n - 1][i] == Times(keep, a[i]) { WeightMoves(alpha, n - 1, i); }
      WeightMoves(alpha, n - 1, 0);
      SumScales(keep, a, b[..n - 1]);
      TimesOne(keep);
    }
  }

  lemma OneWeightSum(alpha: real)
    ensures SumOf(Weights(alpha, 1)) == 1.0
  {
    var w := Weights(alpha, 1);
    assert w[0] == Weight(alpha, 1, 0) == 1.0;
    assert SumOf(w[..0]) == 0.0;
  }

  lemma {:induction false} SumScales(c: real, a: seq<real>, b: seq<real>)
    requires |a| == |b| && forall i :: 0 <= i < |a| ==> b[i] == Times(c, a[i])
    ensures SumOf(b) == Times(c, SumOf(a))
    decreases |a|
  {
    if a != [] {
      var n := |a| - 1;
      SumScales(c, a[..n], b[..n]);
      assert Times(c, SumOf(a[..n]) + a[n]) == Times(c, SumOf(a[..n])) + Times(c, a[n]);
    }
  }

  // ---- In a program ----

  predicate IsLowered(k: Expr, intOf: Bits64 -> int) {
    Accepted(k, intOf) && (KindOf(k.name).Sma? || KindOf(k.name).Ema? || KindOf(k.name).Lag?)
  }

  /** The values of `e` at each of the ticks `ms`. */
  ghost function Samples<M, V, S>(ops: Ops<M, V, S>, params: int -> V, e: Expr, ms: seq<M>): (xs: seq<V>)
    requires WellFormed(e)
    ensures |xs| == |ms|
  {
    if ms == [] then [] else Samples(ops, params, e, ms[..|ms| - 1]) + [Val(ops, params, e, ms)]
  }

  lemma OwnKind<M, V, T>(base: Ops<M, V, T>, ar: Arith<V>, intOf: Bits64 -> int, k: Expr, xs: seq<V>)
    requires IsLowered(k, intOf)
    ensures !SlotAfter(base, ar, intOf, k, xs).Other?
    decreases |xs|
  {
    hide KindOf;
    if xs != [] { OwnKind(base, ar, intOf, k, xs[..|xs| - 1]); }
  }

  lemma FirstOnly<M, V, T>(base: Ops<M, V, T>, ar: Arith<V>, intOf: Bits64 -> int, k: Expr, vs: seq<V>,
                           s: OpState<V, T>)
    requires vs != [] && !s.Other?
    ensures Update(base, ar, intOf, false, k, vs, s) == Update(base, ar, intOf, false, k, [vs[0]], s)
  {
    hide SmaGuarded, LagGuarded, EmaGuarded;
  }

  lemma LoweredInputs<M, V, S>(ops: Ops<M, V, S>, params: int -> V, e: Expr, intOf: Bits64 -> int, ms: seq<M>)
    requires WellFormed(e) && IsLowered(e, intOf) && ms != []
    ensures IsStatefulOp(e.name) && WellFormed(e.args[0])
    ensures var vs := Inputs(ops, params, e, ms); vs != [] && vs[0] == Val(ops, params, e.args[0], ms)
  {
    assert IsStatefulOp(e.name) && !IsTickerFn(e.name);
    hide KindOf, Val;
    var args := SourceArgs(e.name, e.args);
    assert args == e.args && MarketInput(EnvAt(ops, params, ms[|ms| - 1]), e.name, e.args) == [];
    SourceArgsSmaller(e);
    assert ValArgs(ops, params, args, ms)[0] == Val(ops, params, args[0], ms);
  }

  lemma {:induction false} LoweredState<M, V, T>(base: Ops<M, V, T>, ar: Arith<V>, params: int -> V,
                                                 intOf: Bits64 -> int, e: Expr, ms: seq<M>)
    requires WellFormed(e) && IsLowered(e, intOf)
    ensures IsStatefulOp(e.name) && WellFormed(e.args[0]) && IsLowered(CloneExpr(e), intOf)
    ensures var ops := LoweredOps(base, ar, intOf);
      StateOf(ops, params, e, ms) == SlotAfter(base, ar, intOf, CloneExpr(e), Samples(ops, params, e.args[0], ms))
    decreases |ms|
  {
    LoweredClone(e, intOf);
    hide KindOf, Val, Update, Inputs, InitOf;
    var ops, k := LoweredOps(base, ar, intOf), CloneExpr(e);
    if ms != [] {
      var before := ms[..|ms| - 1];
      LoweredState(base, ar, params, intOf, e, before);
      LoweredInputs(ops, params, e, intOf, ms);
      var xs := Samples(ops, params, e.args[0], ms);
      assert xs[..|xs| - 1] == Samples(ops, params, e.args[0], before);
      OwnKind(base, ar, intOf, k, xs[..|xs| - 1]);
      FirstOnly(base, ar, intOf, k, Inputs(ops, params, e, ms), SlotAfter(base, ar, intOf, k, xs[..|xs| - 1]));
    }
  }

  lemma LoweredClone(e: Expr, intOf: Bits64 -> int)
    requires WellFormed(e) && IsLowered(e, intOf)
    ensures IsStatefulOp(e.name) && !IsTickerFn(e.name) && WellFormed(e.args[0]) && IsLowered(CloneExpr(e), intOf)
  {
  }

  /** In any program, and on every run, the stream meaning of a lowered call is what its slot puts out when it is
      fed the stream meaning of its first argument. */
  lemma LoweredVal<M, V, T>(base: Ops<M, V, T>, ar: Arith<V>, params: int -> V, intOf: Bits64 -> int, e: Expr,
                            ms: seq<M>)
    requires WellFormed(e) && IsLowered(e, intOf) && ms != []
    ensures WellFormed(e.args[0])
    ensures var ops := LoweredOps(base, ar, intOf);
      Val(ops, params, e, ms) == OutputOf(base, ar, intOf, CloneExpr(e), Samples(ops, params, e.args[0], ms))
  {
    LoweredClone(e, intOf);
    var ops, k, before := LoweredOps(base, ar, intOf), CloneExpr(e), ms[..|ms| - 1];
    assert Val(ops, params, e, ms) == ops.step(k, Inputs(ops, params, e, ms), StateOf(ops, params, e, before)).0;
    hide KindOf, Val, Update, Inputs, InitOf, StateOf;
    LoweredState(base, ar, params, intOf, e, before);
    LoweredInputs(ops, params, e, intOf, ms);
    var xs := Samples(ops, params, e.args[0], ms);
    assert xs[..|xs| - 1] == Samples(ops, params, e.args[0], before);
    OwnKind(base, ar, intOf, k, xs[..|xs| - 1]);
    FirstOnly(base, ar, intOf, k, Inputs(ops, params, e, ms), SlotAfter(base, ar, intOf, k, xs[..|xs| - 1]));
  }
}

/** The inline rolling_std and zscore: a running sum and a running sum of squares with branch-free warm-up,
    against the runtime's Welford state.  Square root is any function. */
module LoweredStd {
  import opened Options
  import opened Reals
  import opened Windows
  import opened RingStats

  datatype StdSlot = StdSlot(buf: seq<real>, head: nat, count: nat, sum: real, sumsq: real)

  predicate SlotShaped(period: nat, l: StdSlot) {
    period > 0 && |l.buf| == period && l.head < period && l.count <= period
  }

  /** The ring update: a select feeds zero instead of the oldest sample until the ring is full. */
  function SlotPush(period: nat, l: StdSlot, x: real): (r: StdSlot)
    requires SlotShaped(period, l)
    ensures SlotShaped(period, r)
  {
    var wasFull := l.count == period;
    var oldOrZero := if wasFull then l.buf[l.head] else 0.0;
    StdSlot(l.buf[l.head := x], NextHead(l.head, period), if wasFull then l.count else l.count + 1,
            l.sum + x - oldOrZero, l.sumsq + Square(x) - Square(oldOrZero))
  }

  /** The emitted variance, clamped at zero. */
  function SlotVariance(period: nat, l: StdSlot): real
    requires period >= 2
  {
    var n := period as real;
    var mean := l.sum / n;
    var v := Spread(l.sumsq, n, mean) / (n - 1.0);
    if v < 0.0 then 0.0 else v
  }

  function Abs(x: real): real {
    if x < 0.0 then -x else x
  }

  const NEAR_ZERO := 0.000000000000000001

  function SlotStd(sqrt: real -> real, period: nat, l: StdSlot): Option<real>
    requires period >= 2
  {
    if l.count == period then Some(sqrt(SlotVariance(period, l))) else None
  }

  function SlotZscore(sqrt: real -> real, period: nat, l: StdSlot, x: real): Option<real>
    requires period >= 2
  {
    var stdv := sqrt(SlotVariance(period, l));
    var z := if Abs(stdv) >= NEAR_ZERO then Some((x - l.sum / (period as real)) / stdv) else None;
    if l.count == period then z else None
  }

  predicate Full(s: Stats) {
    s.count == s.capacity && s.capacity > 0
  }

  /** The runtime's operators after their push. */
  function RuntimeStd(sqrt: real -> real, s: Stats): Option<real> {
    if !Full(s) then None else StddevReadout(sqrt, s)
  }

  function RuntimeZscore(sqrt: real -> real, s: Stats, x: real): Option<real> {
    if !Full(s) then None
    else
      match (MeanReadout(s), StddevReadout(sqrt, s))
      case (Some(mean), Some(stddev)) => if Abs(stddev) < NEAR_ZERO then None else Some((x - mean) / stddev)
      case _ => None
  }

  /** The slot that goes with a state of the runtime. */
  ghost predicate Matches(period: nat, l: StdSlot, s: Stats) {
    && Sound(s) && s.capacity == period
    && l.buf == s.buffer && l.head == s.head && l.count == s.count && l.sum == s.sum
    && l.sumsq == SquaresOf(Window(s))
  }

  function SlotAfter(period: nat, xs: seq<real>): (l: StdSlot)
    requires period > 0
    ensures SlotShaped(period, l)
    decreases |xs|
  {
    if xs == [] then StdSlot(seq(period, _ => 0.0), 0, 0, 0.0, 0.0)
    else SlotPush(period, SlotAfter(period, xs[..|xs| - 1]), xs[|xs| - 1])
  }

  lemma RingMoves(s: Stats, x: real)
    requires WellShaped(s)
    ensures var r := PushPrepared(s, x);
      && r.buffer == s.buffer[s.head := x] && r.head == NextHead(s.head, s.capacity)
      && r.count == (if s.count == s.capacity then s.count else s.count + 1)
      && r.sum == (if s.count == s.capacity then s.sum - s.buffer[s.head] + x else s.sum + x)
  {
    hide NextHead, SumOf, DeviationsFrom, AddTo, RemoveFrom;
  }

  lemma SquaresSlide(old_: real, rest: seq<real>, x: real)
    ensures SquaresOf(rest + [x]) == SquaresOf([old_] + rest) - Square(old_) + Square(x)
  {
    Cons(old_, rest);
    Snoc(rest, x);
  }

  lemma PushMatches(period: nat, l: StdSlot, s: Stats, x: real)
    requires period > 0 && Matches(period, l, s)
    ensures SlotShaped(period, l) && Matches(period, SlotPush(period, l, x), PushPrepared(s, x))
  {
    SoundShape(s);
    RingMoves(s, x);
    PushSound(s, x);
    var ws := Window(s);
    if s.count == s.capacity {
      var old_ := s.buffer[s.head];
      WriteMovesWindow(s.buffer, s.head, s.count, x);
      SquaresSlide(old_, ws[1..], x);
    } else {
      Snoc(ws, x);
      ZeroSquare();
    }
    hide Sound, PushPrepared, Window, SquaresOf, NextHead, Square, WellShaped;
  }

  lemma ZeroSquare()
    ensures Square(0.0) == 0.0
  {
  }

  lemma {:induction false} RunMatches(period: nat, xs: seq<real>)
    requires period > 0
    ensures Matches(period, SlotAfter(period, xs), After(period, xs))
    decreases |xs|
  {
    hide SlotPush, PushPrepared, Sound, Window, SquaresOf;
    if xs == [] {
      PreparedSound(period);
      NoSquares();
    } else {
      var n := |xs| - 1;
      RunMatches(period, xs[..n]);
      SoundShape(After(period, xs[..n]));
      PushMatches(period, SlotAfter(period, xs[..n]), After(period, xs[..n]), xs[n]);
    }
  }

  lemma NoSquares()
    ensures SquaresOf([]) == 0.0
  {
  }

  /** Sum of squares minus n times the squared mean is the sum of squared deviations. */
  lemma SlotVarianceIs(period: nat, l: StdSlot, s: Stats)
    requires period >= 2 && Matches(period, l, s) && l.count == period
    ensures s.m2 >= 0.0 && SlotVariance(period, l) == s.m2 / (period as real - 1.0)
    ensures l.sum / (period as real) == s.sum / (s.count as real)
  {
    var ws, n := Window(s), period as real;
    SoundMeans(s);
    QuotientNonNegative(s.m2, n - 1.0);
    SpreadIsM2(s);
    assert s.mean == l.sum / n;
    hide Sound, Window, SumOf, SquaresOf, DeviationsFrom, Spread;
  }

  lemma SpreadIsM2(s: Stats)
    requires Sound(s)
    ensures s.m2 == Spread(SquaresOf(Window(s)), s.count as real, s.mean)
  {
    SoundShape(s);
    hide SumOf, SquaresOf, Spread, Times;
  }

  lemma OutcomesAgree(sqrt: real -> real, period: nat, l: StdSlot, s: Stats, x: real)
    requires period >= 2 && Matches(period, l, s)
    ensures SlotStd(sqrt, period, l) == RuntimeStd(sqrt, s)
    ensures SlotZscore(sqrt, period, l, x) == RuntimeZscore(sqrt, s, x)
    ensures RuntimeStd(sqrt, s).None? <==> s.count != period
  {
    if s.count == period {
      SlotVarianceIs(period, l, s);
      StddevPlain(sqrt, s.m2, s.count);
      hide Matches, SlotVariance, StddevOf;
    }
  }

  /** Every run from a prewarmed state, every period from 2 on: both inline operators have at every tick the
      outcome of the runtime's, including "not yet". */
  lemma LoweredIsRuntime(sqrt: real -> real, period: nat, xs: seq<real>)
    requires period >= 2 && xs != []
    ensures var l, s, x := SlotAfter(period, xs), After(period, xs), xs[|xs| - 1];
      && SlotStd(sqrt, period, l) == RuntimeStd(sqrt, s)
      && SlotZscore(sqrt, period, l, x) == RuntimeZscore(sqrt, s, x)
      && (RuntimeStd(sqrt, s).None? <==> |xs| < period)
  {
    hide After, SlotAfter, Sound, Window, SumOf, DeviationsFrom, SquaresOf, Matches, SlotStd, SlotZscore, RuntimeStd,
         RuntimeZscore;
    RunMatches(period, xs);
    RunIsSound(period, xs);
    SoundMeans(After(period, xs));
    OutcomesAgree(sqrt, period, SlotAfter(period, xs), After(period, xs), xs[|xs| - 1]);
  }

  lemma ZscoreReads(sqrt: real -> real, s: Stats, x: real, mean: real, sd: real)
    requires Full(s) && MeanReadout(s) == Some(mean) && StddevReadout(sqrt, s) == Some(sd)
    ensures RuntimeStd(sqrt, s) == Some(sd)
    ensures RuntimeZscore(sqrt, s, x) ==
      if -0.000000000000000001 < sd < 0.000000000000000001 then None else Some((x - mean) / sd)
  {
  }

  /** Both operators by the samples alone: nothing until there are `period` of them; then the sample standard
      deviation of the last `period`, and how many of these the newest lies from their mean, unless the deviation
      is within 1e-18 of zero. */
  lemma StdAndZscoreOfRun(sqrt: real -> real, period: nat, xs: seq<real>)
    requires period >= 2 && xs != []
    ensures var l, x := SlotAfter(period, xs), xs[|xs| - 1];
      if |xs| < period then SlotStd(sqrt, period, l) == None && SlotZscore(sqrt, period, l, x) == None
      else
        var ws := xs[|xs| - period..];
        var sd := sqrt(DeviationsFrom(ws, MeanOf(ws)) / (period as real - 1.0));
        && SlotStd(sqrt, period, l) == Some(sd)
        && SlotZscore(sqrt, period, l, x) ==
             if -0.000000000000000001 < sd < 0.000000000000000001 then None else Some((x - MeanOf(ws)) / sd)
  {
    hide After, SlotAfter, Sound, Window, SumOf, DeviationsFrom, SquaresOf, SlotStd, SlotZscore, RuntimeZscore, MeanOf,
         MeanReadout, StddevReadout;
    LoweredIsRuntime(sqrt, period, xs);
    StddevIsTwoPass(sqrt, period, xs);
    RunIsSound(period, xs);
    var s, x := After(period, xs), xs[|xs| - 1];
    SoundMeans(s);
    if |xs| >= period {
      var ws := xs[|xs| - period..];
      ZscoreReads(sqrt, s, x, MeanOf(ws), sqrt(DeviationsFrom(ws, MeanOf(ws)) / (period as real - 1.0)));
    } else {
      NotFullReads(sqrt, s, x);
    }
  }

  lemma NotFullReads(sqrt: real -> real, s: Stats, x: real)
    requires s.count < s.capacity
    ensures RuntimeStd(sqrt, s) == None && RuntimeZscore(sqrt, s, x) == None
  {
  }

  /** The emitted code in its own form: loads, selects and stores on the fields of one slot. */
  class RollingStdSlot {
    const buf: array<real>
    var head: nat
    var count: nat
    var sum: real
    var sumsq: real

    ghost function State(): StdSlot
      reads this, buf
    {
      StdSlot(buf[..], head, count, sum, sumsq)
    }

    constructor (period: nat)
      requires period > 0
      ensures fresh(buf) && State() == SlotAfter(period, [])
    {
      buf := new real[period](_ => 0.0);
      head, count, sum, sumsq := 0, 0, 0.0, 0.0;
      new;
      assert buf[..] == seq(period, _ => 0.0);
    }

    method Push(x: real)
      requires SlotShaped(buf.Length, State())
      modifies this, buf
      ensures State() == SlotPush(buf.Length, old(State()), x)
    {
      var period := buf.Length;
      var wasFull := count == period;
      var oldOrZero := if wasFull then buf[head] else 0.0;
      var x2, old2 := Square(x), Square(oldOrZero);
      hide Square;
      sum, sumsq := sum + x - oldOrZero, sumsq + x2 - old2;
      count := if wasFull then count else count + 1;
      buf[head] := x;
      head := (head + 1) % period;
    }

    method Zscore(sqrt: real -> real, x: real) returns (std: Option<real>, z: Option<real>)
      requires SlotShaped(buf.Length, State()) && buf.Length >= 2
      modifies this, buf
      ensures State() == SlotPush(buf.Length, old(State()), x)
      ensures std == SlotStd(sqrt, buf.Length, State()) && z == SlotZscore(sqrt, buf.Length, State(), x)
    {
      Push(x);
      var n := buf.Length as real;
      var mean := sum / n;
      var v := Spread(sumsq, n, mean) / (n - 1.0);
      hide Spread, Square, SlotPush;
      var stdv := sqrt(if v < 0.0 then 0.0 else v);
      std, z := None, None;
      if count == buf.Length {
        std := Some(stdv);
        z := if Abs(stdv) >= NEAR_ZERO then Some((x - mean) / stdv) else None;
      }
    }
  }
}

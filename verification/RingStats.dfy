/** Rolling mean and standard deviation over a ring: a running sum, and Welford's mean and sum of squared
    deviations updated by removing the oldest sample and adding the newest.

    Doubles and long doubles are reals here, so what is proved is the algebra, not the rounding.  `None`
    stands for NaN, the "not yet" of a window that is not full. */
module RingStats {
  import opened Options
  import opened Reals
  import opened Windows

  datatype Stats = Stats(
    buffer: seq<real>, capacity: nat, head: nat, count: nat, sum: real, mean: real, m2: real, slides: nat)

  function SumOf(ws: seq<real>): real {
    if ws == [] then 0.0 else SumOf(ws[..|ws| - 1]) + ws[|ws| - 1]
  }

  function Square(x: real): (r: real)
    ensures r >= 0.0
  {
    x * x
  }

  function SquaresOf(ws: seq<real>): real {
    if ws == [] then 0.0 else SquaresOf(ws[..|ws| - 1]) + Square(ws[|ws| - 1])
  }

  /** The sum of squared deviations from `m`. */
  function DeviationsFrom(ws: seq<real>, m: real): (d: real)
    ensures d >= 0.0
  {
    if ws == [] then 0.0 else DeviationsFrom(ws[..|ws| - 1], m) + Square(ws[|ws| - 1] - m)
  }

  function MeanOf(ws: seq<real>): real
    requires ws != []
  {
    SumOf(ws) / (|ws| as real)
  }

  predicate WellShaped(s: Stats) {
    |s.buffer| == s.capacity && RingShaped(s.buffer, s.head, s.count)
  }

  /** The samples in the ring, oldest first. */
  function Window(s: Stats): (ws: seq<real>)
    requires WellShaped(s)
    ensures |ws| == s.count
  {
    WindowOf(s.buffer, s.head, s.count)
  }

  function Prepared(period: nat): Stats {
    Stats(seq(period, _ => 0.0), period, 0, 0, 0.0, 0.0, 0.0, 0)
  }

  datatype Moments = Moments(mean: real, m2: real)

  /** Add `x` to a window, which then has `n` samples. */
  function AddTo(m: Moments, n: real, x: real): Moments
    requires n != 0.0
  {
    var mean := m.mean + (x - m.mean) / n;
    Moments(mean, m.m2 + (x - m.mean) * (x - mean))
  }

  /** Remove `x` from a window, which then has `k` samples. */
  function RemoveFrom(m: Moments, k: real, x: real): Moments
    requires k != 0.0
  {
    var mean := m.mean - (x - m.mean) / k;
    Moments(mean, m.m2 - (x - m.mean) * (x - mean))
  }

  /** `RingStatsUpdateMeanM2OnAdd`, with the count already raised. */
  function OnAdd(s: Stats, x: real): Stats
    requires s.count > 0
  {
    var m := AddTo(Moments(s.mean, s.m2), s.count as real, x);
    s.(mean := m.mean, m2 := m.m2)
  }

  /** `RingStatsUpdateMeanM2OnSlide`: remove, then add, then clamp. */
  function OnSlide(s: Stats, old_: real, x: real): Stats
    requires s.capacity > 1 ==> s.count > 1
  {
    if s.capacity <= 1 then s.(mean := x, m2 := 0.0)
    else
      var n := s.count as real;
      var m := AddTo(RemoveFrom(Moments(s.mean, s.m2), n - 1.0, old_), n, x);
      s.(mean := m.mean, m2 := if m.m2 < 0.0 then 0.0 else m.m2)
  }

  /** `RingStatsRefreshMeanM2FromBuffer`: recompute from the buffer, in buffer order. */
  function Refresh(s: Stats): Stats
    requires 0 < s.count <= |s.buffer|
  {
    var held := s.buffer[..s.count];
    var mean := SumOf(held) / (s.count as real);
    s.(mean := mean, m2 := DeviationsFrom(held, mean), slides := 0)
  }

  function StoreSample(s: Stats, x: real): (r: Stats)
    requires s.capacity > 0 && |s.buffer| == s.capacity && s.head < s.capacity
    ensures r.count == s.count && |r.buffer| == s.capacity == r.capacity && r.head < s.capacity
  {
    s.(buffer := s.buffer[s.head := x], sum := s.sum + x, head := NextHead(s.head, s.capacity))
  }

  /** A push into a full ring, but for the refresh. */
  function SlideSample(s: Stats, x: real): (r: Stats)
    requires WellShaped(s) && s.count == s.capacity
    ensures |r.buffer| == r.capacity == s.capacity && r.head < r.capacity && r.count == s.count
  {
    var old_ := s.buffer[s.head];
    var r := StoreSample(OnSlide(s.(sum := s.sum - old_), old_, x), x);
    r.(slides := r.slides + 1)
  }

  function PushPrepared(s: Stats, x: real): (r: Stats)
    requires WellShaped(s)
    ensures |r.buffer| == r.capacity == s.capacity && r.head < r.capacity && 0 < r.count <= r.capacity
  {
    if s.count == s.capacity then
      var r := SlideSample(s, x);
      if r.slides >= r.capacity && r.capacity > 1 then Refresh(r) else r
    else StoreSample(OnAdd(s.(count := s.count + 1), x), x)
  }

  lemma {:induction false} SumOfAppend(a: seq<real>, b: seq<real>)
    ensures SumOf(a + b) == SumOf(a) + SumOf(b)
    ensures SquaresOf(a + b) == SquaresOf(a) + SquaresOf(b)
    decreases |b|
  {
    if b == [] {
      assert a + b == a;
    } else {
      var n := |b| - 1;
      SumOfAppend(a, b[..n]);
      assert (a + b)[..|a| + n] == a + b[..n];
    }
  }

  /** The sum of squared deviations from `m`, through the two plain sums of `n` samples. */
  function Expanded(squares: real, sum: real, n: real, m: real): real {
    squares - 2.0 * m * sum + n * m * m
  }

  lemma ExpandOne(squares: real, sum: real, k: real, m: real, w: real)
    ensures Expanded(squares, sum, k, m) + Square(w - m) == Expanded(squares + Square(w), sum + w, k + 1.0, m)
  {
  }

  lemma ExpandNone(m: real)
    ensures Expanded(0.0, 0.0, 0.0, m) == 0.0
  {
  }

  lemma {:induction false} DeviationsExpand(ws: seq<real>, m: real)
    ensures DeviationsFrom(ws, m) == Expanded(SquaresOf(ws), SumOf(ws), |ws| as real, m)
    decreases |ws|
  {
    ExpandNone(m);
    hide Expanded, Square;
    if ws != [] {
      var n := |ws| - 1;
      DeviationsExpand(ws[..n], m);
      assert |ws| as real == n as real + 1.0;
      ExpandOne(SquaresOf(ws[..n]), SumOf(ws[..n]), n as real, m, ws[n]);
    }
  }

  /** What is left of it when `m` is the mean. */
  function Spread(squares: real, n: real, mean: real): real {
    squares - n * mean * mean
  }

  /** Mean and sum of squared deviations are those of `ws`; in terms of sums that is two equations. */
  ghost predicate Describes(m: Moments, ws: seq<real>) {
    Times(m.mean, |ws| as real) == SumOf(ws) && m.m2 == Spread(SquaresOf(ws), |ws| as real, m.mean)
  }

  lemma CollapseMean(squares: real, sum: real, n: real, m: real)
    requires Times(m, n) == sum
    ensures Expanded(squares, sum, n, m) == Spread(squares, n, m)
  {
    assert m * sum == m * (m * n);
    assert m * (m * n) == n * m * m;
  }

  lemma DivideBack(s: real, n: real)
    requires n != 0.0
    ensures s / n * n == s == Times(s / n, n)
  {
  }

  lemma QuotientIs(m: real, n: real, s: real)
    requires n != 0.0 && Times(m, n) == s
    ensures m == s / n
  {
  }

  lemma DescribesMeans(m: Moments, ws: seq<real>)
    requires Describes(m, ws) && ws != []
    ensures m.mean == MeanOf(ws) && m.m2 == DeviationsFrom(ws, m.mean) >= 0.0
  {
    hide SumOf, SquaresOf, DeviationsFrom, Spread, Expanded, Times;
    DeviationsExpand(ws, m.mean);
    CollapseMean(SquaresOf(ws), SumOf(ws), |ws| as real, m.mean);
    QuotientIs(m.mean, |ws| as real, SumOf(ws));
  }

  lemma MeansDescribe(ws: seq<real>, mean: real)
    requires ws != [] && mean == MeanOf(ws)
    ensures Describes(Moments(mean, DeviationsFrom(ws, mean)), ws)
  {
    hide SumOf, SquaresOf, DeviationsFrom, Spread, Expanded, Times;
    DeviationsExpand(ws, mean);
    DivideBack(SumOf(ws), |ws| as real);
    CollapseMean(SquaresOf(ws), SumOf(ws), |ws| as real, mean);
  }

  /** Welford's step as an identity between polynomials: `x` is what moves the mean from `m` to `m1`. */
  lemma WelfordStep(n: real, m: real, m1: real)
    ensures var x := n * m1 - (n - 1.0) * m;
      (x - m) * (x - m1) == x * x - n * m1 * m1 + (n - 1.0) * m * m
  {
  }

  /** The same for the two equations of `k` samples and of `k + 1`. */
  lemma AddMoments(m: Moments, squares: real, sum: real, k: real, x: real)
    requires k + 1.0 != 0.0 && Times(m.mean, k) == sum && m.m2 == Spread(squares, k, m.mean)
    ensures var r := AddTo(m, k + 1.0, x);
      Times(r.mean, k + 1.0) == sum + x && r.m2 == Spread(squares + Square(x), k + 1.0, r.mean)
  {
    hide AddTo, Spread, Square;
    var d := AddShift(m, k, x);
    AddPolynomial(m.mean, d, k, x);
    AddSpread(squares, k, x, m, m.mean + d, (x - m.mean) * (x - (m.mean + d)));
  }

  lemma AddSpread(squares: real, k: real, x: real, m: Moments, mean: real, p: real)
    requires m.m2 == Spread(squares, k, m.mean)
    requires p == x * x - (k + 1.0) * mean * mean + k * m.mean * m.mean
    ensures m.m2 + p == Spread(squares + Square(x), k + 1.0, mean)
  {
  }

  /** Adding a sample moves the mean by `d`. */
  lemma AddShift(m: Moments, k: real, x: real) returns (d: real)
    requires k + 1.0 != 0.0
    ensures d * (k + 1.0) == x - m.mean
    ensures AddTo(m, k + 1.0, x) == Moments(m.mean + d, m.m2 + (x - m.mean) * (x - (m.mean + d)))
  {
    d := (x - m.mean) / (k + 1.0);
    DivideBack(x - m.mean, k + 1.0);
    hide Times;
  }

  lemma AddPolynomial(mean: real, d: real, k: real, x: real)
    requires d * (k + 1.0) == x - mean
    ensures (mean + d) * (k + 1.0) == mean * k + x
    ensures (x - mean) * (x - (mean + d)) == x * x - (k + 1.0) * (mean + d) * (mean + d) + k * mean * mean
  {
    assert (mean + d) * (k + 1.0) == mean * (k + 1.0) + d * (k + 1.0);
    assert x == (k + 1.0) * (mean + d) - k * mean;
    WelfordStep(k + 1.0, mean, mean + d);
  }

  lemma RemoveMoments(m: Moments, squares: real, sum: real, k: real, x: real)
    requires k != 0.0 && Times(m.mean, k + 1.0) == x + sum && m.m2 == Spread(Square(x) + squares, k + 1.0, m.mean)
    ensures var r := RemoveFrom(m, k, x);
      Times(r.mean, k) == sum && r.m2 == Spread(squares, k, r.mean)
  {
    hide RemoveFrom, Spread, Square;
    var d := RemoveShift(m, k, x);
    RemovePolynomial(m.mean, d, k, x);
    RemoveSpread(squares, k, x, m, m.mean - d, (x - m.mean) * (x - (m.mean - d)));
  }

  lemma RemoveSpread(squares: real, k: real, x: real, m: Moments, mean: real, p: real)
    requires m.m2 == Spread(Square(x) + squares, k + 1.0, m.mean)
    requires p == x * x - (k + 1.0) * m.mean * m.mean + k * mean * mean
    ensures m.m2 - p == Spread(squares, k, mean)
  {
  }

  lemma RemoveShift(m: Moments, k: real, x: real) returns (d: real)
    requires k != 0.0
    ensures d * k == x - m.mean
    ensures RemoveFrom(m, k, x) == Moments(m.mean - d, m.m2 - (x - m.mean) * (x - (m.mean - d)))
  {
    d := (x - m.mean) / k;
    DivideBack(x - m.mean, k);
    hide Times;
  }

  lemma RemovePolynomial(mean: real, d: real, k: real, x: real)
    requires d * k == x - mean
    ensures (mean - d) * k == mean * (k + 1.0) - x
    ensures (x - mean) * (x - (mean - d)) == x * x - (k + 1.0) * mean * mean + k * (mean - d) * (mean - d)
  {
    assert (mean - d) * k == mean * k - d * k;
    assert x == (k + 1.0) * mean - k * (mean - d);
    WelfordStep(k + 1.0, mean - d, mean);
  }

  lemma Snoc(ws: seq<real>, x: real)
    ensures SumOf(ws + [x]) == SumOf(ws) + x && SquaresOf(ws + [x]) == SquaresOf(ws) + Square(x)
  {
    assert (ws + [x])[..|ws|] == ws;
  }

  lemma Cons(x: real, ws: seq<real>)
    ensures SumOf([x] + ws) == x + SumOf(ws) && SquaresOf([x] + ws) == Square(x) + SquaresOf(ws)
  {
    SumOfAppend([x], ws);
    Snoc([], x);
    assert [] + [x] == [x];
  }

  /** Adding a sample. */
  lemma AddDescribes(m: Moments, ws: seq<real>, x: real)
    requires Describes(m, ws)
    ensures Describes(AddTo(m, |ws| as real + 1.0, x), ws + [x])
  {
    hide SumOf, SquaresOf, Spread, Square, AddTo, Times;
    Snoc(ws, x);
    assert |ws + [x]| as real == |ws| as real + 1.0;
    AddMoments(m, SquaresOf(ws), SumOf(ws), |ws| as real, x);
  }

  /** Removing one is the same step backwards. */
  lemma RemoveDescribes(m: Moments, old_: real, ws: seq<real>)
    requires Describes(m, [old_] + ws) && ws != []
    ensures Describes(RemoveFrom(m, |ws| as real, old_), ws)
  {
    hide SumOf, SquaresOf, Spread, Square, RemoveFrom, Times;
    Cons(old_, ws);
    assert |[old_] + ws| as real == |ws| as real + 1.0;
    RemoveMoments(m, SquaresOf(ws), SumOf(ws), |ws| as real, old_);
  }

  /** What every reachable state satisfies. */
  ghost predicate Sound(s: Stats) {
    WellShaped(s) && s.sum == SumOf(Window(s)) && Describes(Moments(s.mean, s.m2), Window(s))
  }

  lemma PreparedSound(period: nat)
    requires period > 0
    ensures Sound(Prepared(period)) && Window(Prepared(period)) == []
  {
  }

  /** Sums do not depend on where the ring starts. */
  lemma HeldSums(s: Stats)
    requires WellShaped(s)
    ensures SumOf(s.buffer[..s.count]) == SumOf(Window(s)) && SquaresOf(s.buffer[..s.count]) == SquaresOf(Window(s))
  {
    if s.count == s.capacity {
      var a, b := s.buffer[..s.head], s.buffer[s.head..];
      SumOfAppend(a, b);
      SumOfAppend(b, a);
      assert s.buffer[..s.count] == a + b;
    }
  }

  /** The periodic refresh recomputes what is there already. */
  lemma RefreshChangesNothing(s: Stats)
    requires Sound(s) && s.count > 0
    ensures Refresh(s) == s.(slides := 0)
  {
    var held, ws, n := s.buffer[..s.count], Window(s), s.count as real;
    HeldSums(s);
    DescribesMeans(Moments(s.mean, s.m2), ws);
    var mean := SumOf(held) / n;
    MeansDescribe(held, mean);
    hide SumOf, SquaresOf, DeviationsFrom, Window;
    assert mean == s.mean;
  }

  lemma OneSample(x: real)
    ensures Describes(Moments(x, 0.0), [x])
  {
    Snoc([], x);
    assert [] + [x] == [x];
  }

  lemma OnSlideDescribes(s: Stats, old_: real, rest: seq<real>, x: real)
    requires s.count == s.capacity == |rest| + 1 && Describes(Moments(s.mean, s.m2), [old_] + rest)
    ensures var r := OnSlide(s, old_, x);
      && Describes(Moments(r.mean, r.m2), rest + [x])
      && r == s.(mean := r.mean, m2 := r.m2)
  {
    if s.capacity == 1 {
      OneSample(x);
      assert rest + [x] == [x];
    } else {
      var m := Moments(s.mean, s.m2);
      RemoveDescribes(m, old_, rest);
      assert s.count as real - 1.0 == |rest| as real;
      var m1 := RemoveFrom(m, |rest| as real, old_);
      AddDescribes(m1, rest, x);
      DescribesMeans(AddTo(m1, s.count as real, x), rest + [x]);
      hide Describes, AddTo, RemoveFrom, SumOf, DeviationsFrom;
    }
  }

  /** Every push keeps the state sound and moves the window by one sample. */
  lemma PushSound(s: Stats, x: real)
    requires Sound(s)
    ensures var r := PushPrepared(s, x);
      Sound(r) && r.capacity == s.capacity && Window(r) == Kept(Window(s), s.capacity) + [x]
  {
    hide Sound, PushPrepared, Window;
    if s.count == s.capacity { PushSlides(s, x); } else { FullOrNot(s); PushGrows(s, x); }
  }

  lemma FullOrNot(s: Stats)
    requires Sound(s)
    ensures s.count <= s.capacity
  {
  }

  lemma PushGrows(s: Stats, x: real)
    requires Sound(s) && s.count < s.capacity
    ensures var r := PushPrepared(s, x);
      Sound(r) && r.capacity == s.capacity && Window(r) == Window(s) + [x]
  {
    var r, ws := PushPrepared(s, x), Window(s);
    WriteMovesWindow(s.buffer, s.head, s.count, x);
    assert (s.count + 1) as real == |ws| as real + 1.0;
    AddDescribes(Moments(s.mean, s.m2), ws, x);
    Snoc(ws, x);
    hide Window, SumOf, SquaresOf, Describes, AddTo, NextHead;
  }

  lemma SumSlides(old_: real, rest: seq<real>, x: real)
    ensures SumOf(rest + [x]) == SumOf([old_] + rest) - old_ + x
  {
    Cons(old_, rest);
    Snoc(rest, x);
  }

  lemma SlideSound(s: Stats, r: Stats, x: real)
    requires Sound(s) && s.count == s.capacity
    requires r.capacity == s.capacity && r.count == s.count && r.buffer == s.buffer[s.head := x] &&
             r.head == NextHead(s.head, s.capacity)
    requires r.sum == s.sum - s.buffer[s.head] + x
    requires Describes(Moments(r.mean, r.m2), Window(s)[1..] + [x])
    ensures Sound(r) && Window(r) == Window(s)[1..] + [x]
  {
    WriteMovesWindow(s.buffer, s.head, s.count, x);
    SumSlides(s.buffer[s.head], Window(s)[1..], x);
    hide Describes, SumOf, NextHead, WindowOf;
  }

  lemma SlideSampleSound(s: Stats, x: real)
    requires Sound(s) && s.count == s.capacity
    ensures var r := SlideSample(s, x); Sound(r) && Window(r) == Window(s)[1..] + [x]
  {
    var old_, rest := s.buffer[s.head], Window(s)[1..];
    var s0 := s.(sum := s.sum - old_);
    WriteMovesWindow(s.buffer, s.head, s.count, x);
    hide NextHead, Describes, WindowOf, SumOf;
    OnSlideDescribes(s0, old_, rest, x);
    hide OnSlide;
    SlideSound(s, SlideSample(s, x), x);
  }

  lemma PushSlides(s: Stats, x: real)
    requires Sound(s) && s.count == s.capacity
    ensures var r := PushPrepared(s, x);
      Sound(r) && r.capacity == s.capacity && Window(r) == Window(s)[1..] + [x]
  {
    SoundShape(s);
    hide Sound, Window, SlideSample, Refresh, WellShaped;
    SlideSampleSound(s, x);
    var r := SlideSample(s, x);
    RefreshChangesNothing(r);
    SlidesDoNotMatter(r);
  }

  lemma SlidesDoNotMatter(s: Stats)
    requires Sound(s)
    ensures Sound(s.(slides := 0)) && Window(s.(slides := 0)) == Window(s)
  {
  }

  /** The state after the samples `xs`. */
  function After(period: nat, xs: seq<real>): (s: Stats)
    requires period > 0
    ensures |s.buffer| == s.capacity == period
    decreases |xs|
  {
    if xs == [] then Prepared(period)
    else
      var s := After(period, xs[..|xs| - 1]);
      if WellShaped(s) then PushPrepared(s, xs[|xs| - 1]) else s
  }

  /** Over every run with a fixed period: the ring holds exactly the last min(n, period) samples, and the
      running sum, mean and sum of squared deviations are those of that window. */
  lemma {:induction false} RunIsSound(period: nat, xs: seq<real>)
    requires period > 0
    ensures var s, ws := After(period, xs), xs[WindowStart(|xs|, period)..];
      && Sound(s) && s.capacity == period && Window(s) == ws
      && s.sum == SumOf(ws)
      && (ws != [] ==> s.mean == MeanOf(ws) && s.m2 == DeviationsFrom(ws, MeanOf(ws)))
    decreases |xs|
  {
    hide PushPrepared, Sound, SumOf, DeviationsFrom, Window;
    if xs == [] {
      PreparedSound(period);
    } else {
      var n := |xs| - 1;
      RunIsSound(period, xs[..n]);
      var s := After(period, xs[..n]);
      PushSound(s, xs[n]);
      SoundShape(s);
      HistoryMovesWindow(xs, period);
    }
    SoundMeans(After(period, xs));
  }

  lemma SoundShape(s: Stats)
    requires Sound(s)
    ensures WellShaped(s)
  {
  }

  lemma SoundMeans(s: Stats)
    requires Sound(s)
    ensures var ws := Window(s);
      s.sum == SumOf(ws) && |ws| == s.count &&
          (ws != [] ==> s.mean == MeanOf(ws) && s.m2 == DeviationsFrom(ws, MeanOf(ws)))
  {
    if Window(s) != [] { DescribesMeans(Moments(s.mean, s.m2), Window(s)); }
  }

  /** Readouts. */
  function MeanReadout(s: Stats): Option<real> {
    if s.count == 0 then None else Some(s.sum / (s.count as real))
  }

  const TINY := 0.000000000000001

  /** Both readouts of a variance: tiny negatives become zero, others NaN. */
  function StddevOf(sqrt: real -> real, m2: real, n: nat): Option<real>
    requires n >= 2
  {
    var v := m2 / (n as real - 1.0);
    var v1 := if v < 0.0 && -v <= TINY * (1.0 + m2) then 0.0 else v;
    if v1 < 0.0 then None else Some(sqrt(v1))
  }

  function StddevReadout(sqrt: real -> real, s: Stats): Option<real> {
    if s.count < 2 then None else StddevOf(sqrt, s.m2, s.count)
  }

  function StddevTwoPass(sqrt: real -> real, s: Stats): Option<real>
    requires s.count <= |s.buffer|
  {
    if s.count < 2 then None
    else
      var held := s.buffer[..s.count];
      StddevOf(sqrt, DeviationsFrom(held, SumOf(held) / (s.count as real)), s.count)
  }

  lemma StddevPlain(sqrt: real -> real, m2: real, n: nat)
    requires n >= 2 && m2 >= 0.0
    ensures StddevOf(sqrt, m2, n) == Some(sqrt(m2 / (n as real - 1.0)))
  {
    QuotientNonNegative(m2, n as real - 1.0);
  }

  lemma QuotientNonNegative(a: real, b: real)
    requires a >= 0.0 && b > 0.0
    ensures a / b >= 0.0
  {
  }

  /** The constant-time standard deviation is the two-pass one, and both are the sample standard deviation
      of the last min(n, period) samples; neither guard against a negative variance is ever taken. */
  lemma StddevIsTwoPass(sqrt: real -> real, period: nat, xs: seq<real>)
    requires period > 0
    ensures var s, ws := After(period, xs), xs[WindowStart(|xs|, period)..];
      && s.count <= |s.buffer|
      && StddevReadout(sqrt, s) == StddevTwoPass(sqrt, s)
      && StddevReadout(sqrt, s) ==
           (if |ws| < 2 then None else Some(sqrt(DeviationsFrom(ws, MeanOf(ws)) / (|ws| as real - 1.0))))
      && MeanReadout(s) == (if ws == [] then None else Some(MeanOf(ws)))
  {
    RunIsSound(period, xs);
    var s, ws := After(period, xs), xs[WindowStart(|xs|, period)..];
    SoundShape(s);
    SoundMeans(s);
    if s.count >= 2 {
      RefreshChangesNothing(s);
      StddevPlain(sqrt, s.m2, s.count);
    }
    hide After, DeviationsFrom, Sound, Window, SumOf, StddevOf, WindowStart, WellShaped;
    assert |ws| == s.count;
  }

  /** The runtime's state in its own form. */
  class RingStatsState {
    var buffer: array<real>
    var capacity: nat
    var head: nat
    var count: nat
    var sum: real
    var mean: real
    var m2: real
    var slidesSinceRefresh: nat

    ghost function State(): Stats
      reads this, buffer
    {
      Stats(buffer[..], capacity, head, count, sum, mean, m2, slidesSinceRefresh)
    }

    ghost predicate Shaped()
      reads this, buffer
    {
      capacity > 0 && buffer.Length == capacity && head < capacity && count <= capacity &&
          (count < capacity ==> head == count)
    }

    constructor ()
      ensures fresh(buffer) && capacity == 0 && count == 0
    {
      buffer := new real[0];
      capacity, head, count, sum, mean, m2, slidesSinceRefresh := 0, 0, 0, 0.0, 0.0, 0.0, 0;
    }

    method UpdateOnAdd(sample: real)
      requires count > 0
      modifies this`mean, this`m2
      ensures State() == OnAdd(old(State()), sample)
    {
      var delta := sample - mean;
      mean := mean + delta / (count as real);
      m2 := m2 + delta * (sample - mean);
    }

    method UpdateOnSlide(oldSample: real, newSample: real)
      requires capacity > 1 ==> count > 1
      modifies this`mean, this`m2
      ensures State() == OnSlide(old(State()), oldSample, newSample)
    {
      if capacity <= 1 {
        mean, m2 := newSample, 0.0;
        return;
      }
      var n := count as real;
      ghost var m0 := Moments(mean, m2);
      var delta := oldSample - mean;
      mean := mean - delta / (n - 1.0);
      m2 := m2 - delta * (oldSample - mean);
      assert Moments(mean, m2) == RemoveFrom(m0, n - 1.0, oldSample);
      ghost var m1 := Moments(mean, m2);
      delta := newSample - mean;
      mean := mean + delta / n;
      m2 := m2 + delta * (newSample - mean);
      assert Moments(mean, m2) == AddTo(m1, n, newSample);
      hide RemoveFrom, AddTo;
      if m2 < 0.0 { m2 := 0.0; }
    }

    /** Two passes over the buffer. */
    method TwoPass() returns (bufferMean: real, ss: real)
      requires 0 < count <= buffer.Length
      ensures bufferMean == SumOf(buffer[..count]) / (count as real) &&
              ss == DeviationsFrom(buffer[..count], bufferMean)
    {
      hide Square;
      var total := 0.0;
      for i := 0 to count
        invariant total == SumOf(buffer[..i])
      {
        assert buffer[..i + 1][..i] == buffer[..i];
        total := total + buffer[i];
      }
      bufferMean, ss := total / (count as real), 0.0;
      for i := 0 to count
        invariant ss == DeviationsFrom(buffer[..i], bufferMean)
      {
        assert buffer[..i + 1][..i] == buffer[..i];
        ss := ss + Square(buffer[i] - bufferMean);
      }
    }

    method RefreshFromBuffer()
      requires 0 < count <= buffer.Length
      modifies this`mean, this`m2, this`slidesSinceRefresh
      ensures State() == Refresh(old(State()))
    {
      var bufferMean, ss := TwoPass();
      mean := bufferMean;
      m2 := if ss < 0.0 then 0.0 else ss;
      slidesSinceRefresh := 0;
    }

    method PushPreparedSample(sample: real)
      requires Shaped()
      modifies this, buffer
      ensures buffer == old(buffer) && State() == PushPrepared(old(State()), sample)
    {
      hide OnAdd, OnSlide, Refresh;
      var slid := count == capacity;
      if slid {
        var oldest := buffer[head];
        sum := sum - oldest;
        UpdateOnSlide(oldest, sample);
      } else {
        count := count + 1;
        UpdateOnAdd(sample);
      }
      buffer[head] := sample;
      sum := sum + sample;
      head := (head + 1) % capacity;
      if slid {
        slidesSinceRefresh := slidesSinceRefresh + 1;
        if slidesSinceRefresh >= capacity && capacity > 1 {
          RefreshFromBuffer();
        }
      }
    }

    /** `RingStatsPush`: a period other than the current one starts afresh; a zero period is an error. */
    method Push(period: nat, sample: real) returns (ok: bool)
      requires capacity > 0 ==> Shaped()
      modifies this, buffer
      ensures ok == (period > 0)
      ensures !ok ==> State() == old(State())
      ensures ok ==> State() == PushPrepared(if old(capacity) == period then old(State()) else Prepared(period), sample)
    {
      if period == 0 { return false; }
      if capacity != period {
        buffer := new real[period](_ => 0.0);
        capacity, head, count, sum, mean, m2, slidesSinceRefresh := period, 0, 0, 0.0, 0.0, 0.0, 0;
        assert buffer[..] == seq(period, _ => 0.0);
      }
      PushPreparedSample(sample);
      ok := true;
    }
  }
}

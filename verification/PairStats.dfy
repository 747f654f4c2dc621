/** Rolling correlation and regression slope of two paired series, from five running sums. */
module PairStats {
  import opened Options
  import opened Reals
  import opened Windows
  import opened RingStats

  /** The sum of products of two series. */
  function Dot(a: seq<real>, b: seq<real>): real
    requires |a| == |b|
  {
    if a == [] then 0.0 else Dot(a[..|a| - 1], b[..|b| - 1]) + Times(a[|a| - 1], b[|b| - 1])
  }

  datatype Sums = Sums(x: real, y: real, xy: real, xx: real, yy: real)

  datatype PairState = PairState(xBuf: seq<real>, yBuf: seq<real>, capacity: nat, head: nat, count: nat, sums: Sums)

  predicate PairShaped(s: PairState) {
    |s.xBuf| == |s.yBuf| == s.capacity && RingShaped(s.xBuf, s.head, s.count)
  }

  function PairPrepared(period: nat): PairState {
    PairState(seq(period, _ => 0.0), seq(period, _ => 0.0), period, 0, 0, Sums(0.0, 0.0, 0.0, 0.0, 0.0))
  }

  function Drop(s: Sums, x: real, y: real): Sums {
    Sums(s.x - x, s.y - y, s.xy - Times(x, y), s.xx - Times(x, x), s.yy - Times(y, y))
  }

  function Add(s: Sums, x: real, y: real): Sums {
    Sums(s.x + x, s.y + y, s.xy + Times(x, y), s.xx + Times(x, x), s.yy + Times(y, y))
  }

  /** `RollingPairPush` with the period it was prepared for. */
  function PairPush(s: PairState, x: real, y: real): (r: PairState)
    requires PairShaped(s)
    ensures PairShaped(r) && r.capacity == s.capacity
  {
    var kept := if s.count == s.capacity then Drop(s.sums, s.xBuf[s.head], s.yBuf[s.head]) else s.sums;
    WriteMovesWindow(s.xBuf, s.head, s.count, x);
    PairState(s.xBuf[s.head := x], s.yBuf[s.head := y], s.capacity, NextHead(s.head, s.capacity),
              NextCount(s.count, s.capacity), Add(kept, x, y))
  }

  lemma PairPushIs(s: PairState, x: real, y: real)
    requires PairShaped(s)
    ensures var kept := if s.count == s.capacity then Drop(s.sums, s.xBuf[s.head], s.yBuf[s.head]) else s.sums;
      PairPush(s, x, y) ==
        PairState(s.xBuf[s.head := x], s.yBuf[s.head := y], s.capacity, (s.head + 1) % s.capacity,
                  if s.count == s.capacity then s.count else s.count + 1, Add(kept, x, y))
  {
  }

  function XWindow(s: PairState): (ws: seq<real>)
    requires PairShaped(s)
    ensures |ws| == s.count
  {
    WindowOf(s.xBuf, s.head, s.count)
  }

  function YWindow(s: PairState): (ws: seq<real>)
    requires PairShaped(s)
    ensures |ws| == s.count
  {
    WindowOf(s.yBuf, s.head, s.count)
  }

  function SumsOf(xs: seq<real>, ys: seq<real>): Sums
    requires |xs| == |ys|
  {
    Sums(SumOf(xs), SumOf(ys), Dot(xs, ys), Dot(xs, xs), Dot(ys, ys))
  }

  ghost predicate PairSound(s: PairState) {
    PairShaped(s) && s.sums == SumsOf(XWindow(s), YWindow(s))
  }

  lemma DotSnoc(a: seq<real>, b: seq<real>, x: real, y: real)
    requires |a| == |b|
    ensures Dot(a + [x], b + [y]) == Dot(a, b) + Times(x, y)
  {
    assert (a + [x])[..|a|] == a && (b + [y])[..|b|] == b;
  }

  lemma {:induction false} DotCons(x: real, a: seq<real>, y: real, b: seq<real>)
    requires |a| == |b|
    ensures Dot([x] + a, [y] + b) == Times(x, y) + Dot(a, b)
    decreases |a|
  {
    hide Times;
    if a == [] {
      assert [x] + a == [] + [x] && [y] + b == [] + [y];
      DotSnoc([], [], x, y);
    } else {
      var n := |a| - 1;
      DotCons(x, a[..n], y, b[..n]);
      assert [x] + a == ([x] + a[..n]) + [a[n]] && [y] + b == ([y] + b[..n]) + [b[n]];
      DotSnoc([x] + a[..n], [y] + b[..n], a[n], b[n]);
    }
  }

  lemma SumsAdd(xs: seq<real>, ys: seq<real>, x: real, y: real)
    requires |xs| == |ys|
    ensures SumsOf(xs + [x], ys + [y]) == Add(SumsOf(xs, ys), x, y)
  {
    hide Times, Dot, SumOf, Square, SquaresOf;
    Snoc(xs, x);
    Snoc(ys, y);
    DotSnoc(xs, ys, x, y);
    DotSnoc(xs, xs, x, x);
    DotSnoc(ys, ys, y, y);
  }

  lemma SumsDrop(x: real, xs: seq<real>, y: real, ys: seq<real>)
    requires |xs| == |ys|
    ensures Drop(SumsOf([x] + xs, [y] + ys), x, y) == SumsOf(xs, ys)
  {
    hide Times, Dot, SumOf, Square, SquaresOf;
    Cons(x, xs);
    Cons(y, ys);
    DotCons(x, xs, y, ys);
    DotCons(x, xs, x, xs);
    DotCons(y, ys, y, ys);
  }

  lemma PairPushSound(s: PairState, x: real, y: real)
    requires PairSound(s)
    ensures var r := PairPush(s, x, y);
      && PairSound(r)
      && XWindow(r) == Kept(XWindow(s), s.capacity) + [x] && YWindow(r) == Kept(YWindow(s), s.capacity) + [y]
  {
    WriteMovesWindow(s.xBuf, s.head, s.count, x);
    WriteMovesWindow(s.yBuf, s.head, s.count, y);
    var xs, ys := Kept(XWindow(s), s.capacity), Kept(YWindow(s), s.capacity);
    if s.count == s.capacity { SumsDrop(s.xBuf[s.head], xs, s.yBuf[s.head], ys); }
    SumsAdd(xs, ys, x, y);
    hide WindowOf, SumsOf, Add, Drop, NextHead;
  }

  function PairAfter(period: nat, xs: seq<real>, ys: seq<real>): (s: PairState)
    requires period > 0 && |xs| == |ys|
    ensures PairShaped(s) && s.capacity == period
    decreases |xs|
  {
    if xs == [] then PairPrepared(period)
    else PairPush(PairAfter(period, xs[..|xs| - 1], ys[..|ys| - 1]), xs[|xs| - 1], ys[|ys| - 1])
  }

  /** Every run with a fixed period: the five running sums are those of the last min(n, period) pairs. */
  lemma {:induction false} PairRunIsSound(period: nat, xs: seq<real>, ys: seq<real>)
    requires period > 0 && |xs| == |ys|
    ensures var s, lo := PairAfter(period, xs, ys), WindowStart(|xs|, period);
      && PairSound(s) && s.count == |xs| - lo
      && XWindow(s) == xs[lo..] && YWindow(s) == ys[lo..] && s.sums == SumsOf(xs[lo..], ys[lo..])
    decreases |xs|
  {
    hide PairPush, SumsOf, WindowOf;
    if xs == [] {
      PairPreparedSound(period);
    } else {
      var n := |xs| - 1;
      PairRunIsSound(period, xs[..n], ys[..n]);
      PairPushSound(PairAfter(period, xs[..n], ys[..n]), xs[n], ys[n]);
      HistoryMovesWindow(xs, period);
      HistoryMovesWindow(ys, period);
    }
  }

  lemma PairPreparedSound(period: nat)
    requires period > 0
    ensures PairSound(PairPrepared(period)) && XWindow(PairPrepared(period)) == [] &&
            YWindow(PairPrepared(period)) == []
  {
  }

  /** Readouts over `n` pairs. */
  function Cov(s: Sums, n: real): real
    requires n != 0.0
  {
    s.xy - Times(s.x, s.y) / n
  }

  function VarX(s: Sums, n: real): real
    requires n != 0.0
  {
    s.xx - Times(s.x, s.x) / n
  }

  function VarY(s: Sums, n: real): real
    requires n != 0.0
  {
    s.yy - Times(s.y, s.y) / n
  }

  /** Sum of squared residuals of `x` against `a + t * y`. */
  function Residuals(xs: seq<real>, ys: seq<real>, a: real, t: real): (r: real)
    requires |xs| == |ys|
    ensures r >= 0.0
  {
    if xs == [] then 0.0
    else Residuals(xs[..|xs| - 1], ys[..|ys| - 1], a, t) + Square(xs[|xs| - 1] - a - t * ys[|ys| - 1])
  }

  function Quadratic(s: Sums, n: real, a: real, t: real): real {
    s.xx + n * a * a + t * t * s.yy - 2.0 * a * s.x - 2.0 * t * s.xy + 2.0 * a * t * s.y
  }

  lemma PolynomialAdds(xx: real, yy: real, xy: real, sx: real, sy: real, n: real, a: real, t: real, x: real, y: real)
    ensures (xx + x * x) + (n + 1.0) * a * a + t * t * (yy + y * y) - 2.0 * a * (sx + x) - 2.0 * t * (xy + x * y) +
            2.0 * a * t * (sy + y)
         == xx + n * a * a + t * t * yy - 2.0 * a * sx - 2.0 * t * xy + 2.0 * a * t * sy +
             (x - a - t * y) * (x - a - t * y)
  {
  }

  lemma QuadraticAdds(s: Sums, n: real, a: real, t: real, x: real, y: real)
    ensures Quadratic(Add(s, x, y), n + 1.0, a, t) == Quadratic(s, n, a, t) + Square(x - a - t * y)
  {
    PolynomialAdds(s.xx, s.yy, s.xy, s.x, s.y, n, a, t, x, y);
  }

  lemma QuadraticOfNone(a: real, t: real)
    ensures Quadratic(Sums(0.0, 0.0, 0.0, 0.0, 0.0), 0.0, a, t) == 0.0
  {
  }

  lemma {:induction false} ResidualsExpand(xs: seq<real>, ys: seq<real>, a: real, t: real)
    requires |xs| == |ys|
    ensures Residuals(xs, ys, a, t) == Quadratic(SumsOf(xs, ys), |xs| as real, a, t)
    decreases |xs|
  {
    hide Quadratic, Square, Times, Add;
    if xs == [] {
      QuadraticOfNone(a, t);
    } else {
      var n := |xs| - 1;
      ResidualsExpand(xs[..n], ys[..n], a, t);
      SumsAdd(xs[..n], ys[..n], xs[n], ys[n]);
      assert xs[..n] + [xs[n]] == xs && ys[..n] + [ys[n]] == ys;
      assert |xs| as real == n as real + 1.0;
      QuadraticAdds(SumsOf(xs[..n], ys[..n]), n as real, a, t, xs[n], ys[n]);
    }
  }

  lemma PolynomialCentres(xx: real, yy: real, xy: real, mx: real, my: real, n: real, t: real)
    ensures var a := mx - t * my;
      xx + n * a * a + t * t * yy - 2.0 * a * (n * mx) - 2.0 * t * xy + 2.0 * a * t * (n * my)
        == (xx - n * mx * mx) - 2.0 * t * (xy - n * mx * my) + t * t * (yy - n * my * my)
  {
  }

  lemma MeanProduct(sx: real, sy: real, n: real, mx: real, my: real)
    requires n != 0.0 && sx == n * mx && sy == n * my
    ensures Times(sx, sy) / n == n * mx * my
  {
    assert sx * sy == n * (n * mx * my) by { ProductOfTotals(n, mx, my); }
    var p := n * mx * my;
    assert n * p / n == p;
  }

  lemma ProductOfTotals(n: real, mx: real, my: real)
    ensures (n * mx) * (n * my) == n * (n * mx * my)
  {
  }

  /** The quadratic form of the unnormalised covariance matrix. */
  function Form(s: Sums, n: real, t: real): real
    requires n != 0.0
  {
    VarX(s, n) - 2.0 * t * Cov(s, n) + t * t * VarY(s, n)
  }

  lemma FormIsQuadratic(s: Sums, n: real, t: real) returns (a: real)
    requires n != 0.0
    ensures Form(s, n, t) == Quadratic(s, n, a, t)
  {
    var mx, my := s.x / n, s.y / n;
    a := mx - t * my;
    DivideBack(s.x, n);
    DivideBack(s.y, n);
    CentredForm(s, n, mx, my, t);
  }

  lemma CentredForm(s: Sums, n: real, mx: real, my: real, t: real)
    requires n != 0.0 && mx * n == s.x && my * n == s.y
    ensures Form(s, n, t) == Quadratic(s, n, mx - t * my, t)
  {
    MeanProduct(s.x, s.x, n, mx, mx);
    MeanProduct(s.x, s.y, n, mx, my);
    MeanProduct(s.y, s.y, n, my, my);
    PolynomialCentres(s.xx, s.yy, s.xy, mx, my, n, t);
    hide Times;
    assert s.x == n * mx && s.y == n * my;
  }

  /** It is never negative. */
  lemma FormNonNegative(xs: seq<real>, ys: seq<real>, t: real)
    requires |xs| == |ys| > 0
    ensures Form(SumsOf(xs, ys), |xs| as real, t) >= 0.0
  {
    hide SumsOf, Residuals, Quadratic, Form;
    var a := FormIsQuadratic(SumsOf(xs, ys), |xs| as real, t);
    ResidualsExpand(xs, ys, a, t);
  }

  lemma VarianceNonNegative(xs: seq<real>)
    requires xs != []
    ensures Dot(xs, xs) - Times(SumOf(xs), SumOf(xs)) / (|xs| as real) >= 0.0
  {
    FormNonNegative(xs, xs, 0.0);
    hide Dot, SumOf, Times;
  }

  lemma VertexValue(a: real, b: real, c: real)
    requires c > 0.0
    ensures var t := b / c; (a - 2.0 * t * b + t * t * c) * c == a * c - b * b
  {
    var t := b / c;
    assert t * c == b;
    assert (a - 2.0 * t * b + t * t * c) * c == a * c - 2.0 * (t * c) * b + (t * c) * (t * c);
  }

  lemma LineValue(a: real, b: real)
    requires b != 0.0
    ensures var t := (a + 1.0) / (2.0 * b); a - 2.0 * t * b + t * t * 0.0 == -1.0
  {
    var t := (a + 1.0) / (2.0 * b);
    assert t * (2.0 * b) == a + 1.0;
  }

  lemma ProductNonNegative(a: real, b: real)
    requires a >= 0.0 && b >= 0.0
    ensures a * b >= 0.0
  {
  }

  /** A quadratic that is negative at neither of two points has no positive discriminant. */
  lemma NoDiscriminant(a: real, b: real, c: real)
    requires a >= 0.0 && c >= 0.0
    requires c > 0.0 ==> a - 2.0 * (b / c) * b + (b / c) * (b / c) * c >= 0.0
    requires b != 0.0 ==>
      a - 2.0 * ((a + 1.0) / (2.0 * b)) * b + ((a + 1.0) / (2.0 * b)) * ((a + 1.0) / (2.0 * b)) * c >= 0.0
    ensures Times(b, b) <= Times(a, c)
  {
    if c > 0.0 {
      VertexValue(a, b, c);
      var t := b / c;
      ProductNonNegative(a - 2.0 * t * b + t * t * c, c);
    } else if b != 0.0 {
      LineValue(a, b);
    }
  }

  /** Cauchy-Schwarz for the window: both unnormalised variances are non-negative, and the squared
      covariance is at most their product. */
  lemma CauchySchwarz(xs: seq<real>, ys: seq<real>)
    requires |xs| == |ys| > 0
    ensures var s, n := SumsOf(xs, ys), |xs| as real;
      VarX(s, n) >= 0.0 && VarY(s, n) >= 0.0 && Times(Cov(s, n), Cov(s, n)) <= Times(VarX(s, n), VarY(s, n))
  {
    var s, n := SumsOf(xs, ys), |xs| as real;
    VariancesNonNegative(xs, ys);
    hide SumsOf, VarX, VarY, Cov;
    var a, b, c := VarX(s, n), Cov(s, n), VarY(s, n);
    if c > 0.0 { FormNonNegative(xs, ys, b / c); }
    if b != 0.0 { FormNonNegative(xs, ys, (a + 1.0) / (2.0 * b)); }
    NoDiscriminant(a, b, c);
  }

  lemma VariancesNonNegative(xs: seq<real>, ys: seq<real>)
    requires |xs| == |ys| > 0
    ensures var s, n := SumsOf(xs, ys), |xs| as real;
      VarX(s, n) >= 0.0 && VarY(s, n) >= 0.0
  {
    VarianceNonNegative(xs);
    VarianceNonNegative(ys);
    hide Dot, SumOf, Times;
  }

  predicate PairFull(s: PairState) {
    s.count == s.capacity && s.capacity > 0
  }

  /** `RollingPairCorrelation`. */
  function Correlation(sqrt: real -> real, s: PairState): Option<real> {
    if !PairFull(s) then None
    else
      var n := s.count as real;
      var cov, vx, vy := Cov(s.sums, n), VarX(s.sums, n), VarY(s.sums, n);
      if vx <= 0.0 || vy <= 0.0 then None
      else
        var denom := sqrt(Times(vx, vy));
        if denom == 0.0 then None
        else
          var r := cov / denom;
          var r1 := if r > 1.0 then 1.0 else r;
          Some(if r1 < -1.0 then -1.0 else r1)
  }

  /** `RollingPairBeta`. */
  function Beta(s: PairState): Option<real> {
    if !PairFull(s) then None
    else
      var n := s.count as real;
      if VarX(s.sums, n) <= 0.0 then None else Some(Cov(s.sums, n) / VarX(s.sums, n))
  }

  lemma LargerSquare(c: real, d: real)
    requires c > d > 0.0
    ensures Times(c, c) > Times(d, d)
  {
    assert c * c > c * d && c * d > d * d;
  }

  lemma LargerProduct(q: real, d: real)
    requires q > 1.0 && d > 0.0
    ensures q * d > d
  {
  }

  lemma RatioBounded(c: real, d: real)
    requires d > 0.0 && Times(c, c) <= Times(d, d)
    ensures -1.0 <= c / d <= 1.0
  {
    var q := c / d;
    assert q * d == c && (-q) * d == -c;
    assert Times(-c, -c) == Times(c, c);
    if c > d { LargerSquare(c, d); }
    if -c > d { LargerSquare(-c, d); }
    if q > 1.0 { LargerProduct(q, d); }
    if -q > 1.0 { LargerProduct(-q, d); }
  }

  /** A readout of a full window whose sums obey Cauchy-Schwarz. */
  ghost predicate ReadsCorrelation(sqrt: real -> real, s: Sums, n: real, r: Option<real>)
    requires n != 0.0
  {
    && (r.None? <==> VarX(s, n) == 0.0 || VarY(s, n) == 0.0)
    && (r.Some? ==>
          var denom := sqrt(Times(VarX(s, n), VarY(s, n)));
          denom > 0.0 && r.value == Cov(s, n) / denom && -1.0 <= r.value <= 1.0)
  }

  lemma FullReadout(sqrt: real -> real, st: PairState)
    requires IsSqrt(sqrt) && PairFull(st)
    requires var s, n := st.sums, st.count as real;
      VarX(s, n) >= 0.0 && VarY(s, n) >= 0.0 && Times(Cov(s, n), Cov(s, n)) <= Times(VarX(s, n), VarY(s, n))
    ensures ReadsCorrelation(sqrt, st.sums, st.count as real, Correlation(sqrt, st))
  {
    hide VarX, VarY, Cov, Times;
    var s, n := st.sums, st.count as real;
    if VarX(s, n) > 0.0 && VarY(s, n) > 0.0 { DenominatorPositive(sqrt, Cov(s, n), VarX(s, n), VarY(s, n)); }
  }

  /** Every run with a fixed period: the correlation read is the window's covariance over the root of the
      product of its variances, never clamped, and not a number exactly while the window is not full or one
      of the two series does not vary in it. */
  lemma CorrelationOfRun(sqrt: real -> real, period: nat, xs: seq<real>, ys: seq<real>)
    requires period > 0 && |xs| == |ys| && IsSqrt(sqrt)
    ensures var lo, r := WindowStart(|xs|, period), Correlation(sqrt, PairAfter(period, xs, ys));
      if |xs| < period then r == None else ReadsCorrelation(sqrt, SumsOf(xs[lo..], ys[lo..]), period as real, r)
  {
    hide PairAfter, SumsOf, VarX, VarY, Cov, Times, ReadsCorrelation, IsSqrt, PairSound;
    PairRunIsSound(period, xs, ys);
    var lo := WindowStart(|xs|, period);
    if |xs| < period {
      NotFull(sqrt, PairAfter(period, xs, ys));
    } else {
      CauchySchwarz(xs[lo..], ys[lo..]);
      FullReadout(sqrt, PairAfter(period, xs, ys));
    }
  }

  lemma NotFull(sqrt: real -> real, st: PairState)
    requires !PairFull(st)
    ensures Correlation(sqrt, st) == None
  {
  }

  lemma DenominatorPositive(sqrt: real -> real, c: real, a: real, b: real)
    requires IsSqrt(sqrt) && a > 0.0 && b > 0.0 && Times(c, c) <= Times(a, b)
    ensures sqrt(Times(a, b)) > 0.0 && -1.0 <= c / sqrt(Times(a, b)) <= 1.0
  {
    var u := Times(a, b);
    assert u > 0.0;
    var d := sqrt(u);
    assert d != 0.0 by { assert Times(0.0, 0.0) == 0.0; }
    hide Times;
    RatioBounded(c, d);
  }

  /** The runtime's state in its own form. */
  class RollingPairState {
    var xBuf: array<real>
    var yBuf: array<real>
    var capacity: nat
    var head: nat
    var count: nat
    var sumX: real
    var sumY: real
    var sumXY: real
    var sumXX: real
    var sumYY: real

    ghost function State(): PairState
      reads this, xBuf, yBuf
    {
      PairState(xBuf[..], yBuf[..], capacity, head, count, Sums(sumX, sumY, sumXY, sumXX, sumYY))
    }

    ghost predicate Shaped()
      reads this, xBuf, yBuf
    {
      xBuf != yBuf && PairShaped(State())
    }

    constructor ()
      ensures fresh(xBuf) && fresh(yBuf) && xBuf != yBuf && capacity == 0
    {
      xBuf, yBuf := new real[0], new real[0];
      capacity, head, count := 0, 0, 0;
      sumX, sumY, sumXY, sumXX, sumYY := 0.0, 0.0, 0.0, 0.0, 0.0;
    }

    /** `RollingPairPush`: a new period starts afresh, a zero period is an error. */
    method Push(period: nat, x: real, y: real) returns (ok: bool)
      requires capacity > 0 ==> Shaped()
      modifies this, xBuf, yBuf
      ensures ok == (period > 0)
      ensures !ok ==> State() == old(State())
      ensures ok ==> Shaped() && State() == PairPush(if old(capacity) == period
        then old(State()) else PairPrepared(period), x, y)
    {
      if period == 0 { return false; }
      if capacity != period { Restart(period); }
      PushInto(x, y);
      ok := true;
    }

    method Restart(period: nat)
      requires period > 0
      modifies this
      ensures Shaped() && State() == PairPrepared(period) && fresh(xBuf) && fresh(yBuf)
    {
      xBuf, yBuf := new real[period](_ => 0.0), new real[period](_ => 0.0);
      capacity, head, count := period, 0, 0;
      sumX, sumY, sumXY, sumXX, sumYY := 0.0, 0.0, 0.0, 0.0, 0.0;
      hide RingShaped;
      assert State().xBuf == PairPrepared(period).xBuf && State().yBuf == PairPrepared(period).yBuf;
      PairPreparedSound(period);
    }

    method PushInto(x: real, y: real)
      requires Shaped()
      modifies this`head, this`count, this`sumX, this`sumY, this`sumXY, this`sumXX, this`sumYY, xBuf, yBuf
      ensures Shaped() && State() == PairPush(old(State()), x, y)
    {
      PairPushIs(State(), x, y);
      assert head < xBuf.Length == yBuf.Length == capacity;
      hide Drop, Add, PairPush, PairShaped, NextCount;
      if count == capacity {
        DropSums(xBuf[head], yBuf[head]);
      } else {
        count := count + 1;
      }
      AddSums(x, y);
      xBuf[head], yBuf[head] := x, y;
      head := (head + 1) % capacity;
    }

    method DropSums(x: real, y: real)
      modifies this`sumX, this`sumY, this`sumXY, this`sumXX, this`sumYY
      ensures State() == old(State()).(sums := Drop(old(State().sums), x, y))
    {
      hide Times;
      sumX, sumY := sumX - x, sumY - y;
      sumXY, sumXX, sumYY := sumXY - Times(x, y), sumXX - Times(x, x), sumYY - Times(y, y);
    }

    method AddSums(x: real, y: real)
      modifies this`sumX, this`sumY, this`sumXY, this`sumXX, this`sumYY
      ensures State() == old(State()).(sums := Add(old(State().sums), x, y))
    {
      hide Times;
      sumX, sumY := sumX + x, sumY + y;
      sumXY, sumXX, sumYY := sumXY + Times(x, y), sumXX + Times(x, x), sumYY + Times(y, y);
    }
  }
}

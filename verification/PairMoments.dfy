/** The paired readouts by definition: covariance and variances as sums of products of deviations from the means. */
module PairMoments {
  import opened Options
  import opened Reals
  import opened Windows
  import opened RingStats
  import opened PairStats

  /** The sum of products of deviations from `a` and `b`. */
  function CoDeviations(xs: seq<real>, ys: seq<real>, a: real, b: real): real
    requires |xs| == |ys|
  {
    if xs == [] then 0.0
    else CoDeviations(xs[..|xs| - 1], ys[..|ys| - 1], a, b) + Times(xs[|xs| - 1] - a, ys[|ys| - 1] - b)
  }

  function CoExpanded(dot: real, sx: real, sy: real, n: real, a: real, b: real): real {
    dot - a * sy - b * sx + n * a * b
  }

  lemma CoExpandOne(dot: real, sx: real, sy: real, n: real, a: real, b: real, x: real, y: real)
    ensures CoExpanded(dot, sx, sy, n, a, b) + Times(x - a, y - b) ==
            CoExpanded(dot + Times(x, y), sx + x, sy + y, n + 1.0, a, b)
  {
    assert (x - a) * (y - b) == x * y - a * y - b * x + a * b;
    assert a * (sy + y) == a * sy + a * y && b * (sx + x) == b * sx + b * x;
    assert (n + 1.0) * a * b == n * a * b + a * b;
  }

  lemma {:induction false} CoDeviationsExpand(xs: seq<real>, ys: seq<real>, a: real, b: real)
    requires |xs| == |ys|
    ensures CoDeviations(xs, ys, a, b) == CoExpanded(Dot(xs, ys), SumOf(xs), SumOf(ys), |xs| as real, a, b)
    decreases |xs|
  {
    hide CoExpanded, Times;
    if xs == [] {
      NothingExpands(a, b);
    } else {
      var n := |xs| - 1;
      CoDeviationsExpand(xs[..n], ys[..n], a, b);
      assert |xs| as real == n as real + 1.0;
      CoExpandOne(Dot(xs[..n], ys[..n]), SumOf(xs[..n]), SumOf(ys[..n]), n as real, a, b, xs[n], ys[n]);
    }
  }

  lemma NothingExpands(a: real, b: real)
    ensures CoExpanded(0.0, 0.0, 0.0, 0.0, a, b) == 0.0
  {
  }

  lemma AtMeans(dot: real, sx: real, sy: real, n: real)
    requires n != 0.0
    ensures CoExpanded(dot, sx, sy, n, sx / n, sy / n) == dot - Times(sx, sy) / n
  {
    var a, b := sx / n, sy / n;
    assert a * n == sx && b * n == sy;
    assert n * a * b == a * sy;
    assert b * sx == a * sy by { assert b * (a * n) == a * (b * n); }
    assert Times(sx, sy) / n == a * sy by { assert Times(sx, sy) == n * (a * sy); Quotient(n, a * sy); }
  }

  lemma Quotient(n: real, q: real)
    requires n != 0.0
    ensures n * q / n == q
  {
  }

  lemma {:induction false} OwnDeviations(xs: seq<real>, a: real)
    ensures CoDeviations(xs, xs, a, a) == DeviationsFrom(xs, a)
  {
    if xs != [] {
      OwnDeviations(xs[..|xs| - 1], a);
      SquareIsTimes(xs[|xs| - 1] - a);
      hide Square, Times;
    }
  }

  lemma SquareIsTimes(x: real)
    ensures Square(x) == Times(x, x)
  {
  }

  /** What the readouts compute from the five sums of a window is its covariance and its variances. */
  lemma SumsAreMoments(xs: seq<real>, ys: seq<real>)
    requires |xs| == |ys| > 0
    ensures var s, n, mx, my := SumsOf(xs, ys), |xs| as real, MeanOf(xs), MeanOf(ys);
      && Cov(s, n) == CoDeviations(xs, ys, mx, my)
      && VarX(s, n) == DeviationsFrom(xs, mx) && VarY(s, n) == DeviationsFrom(ys, my)
  {
    var n := |xs| as real;
    hide CoExpanded, Times, SumOf, Dot, DeviationsFrom, CoDeviations;
    CoDeviationsExpand(xs, ys, MeanOf(xs), MeanOf(ys));
    CoDeviationsExpand(xs, xs, MeanOf(xs), MeanOf(xs));
    CoDeviationsExpand(ys, ys, MeanOf(ys), MeanOf(ys));
    AtMeans(Dot(xs, ys), SumOf(xs), SumOf(ys), n);
    AtMeans(Dot(xs, xs), SumOf(xs), SumOf(xs), n);
    AtMeans(Dot(ys, ys), SumOf(ys), SumOf(ys), n);
    OwnDeviations(xs, MeanOf(xs));
    OwnDeviations(ys, MeanOf(ys));
  }

  /** Every run with a fixed period: nothing until the window is full; then the correlation of the last `period`
      pairs, which is not a number exactly when one series does not vary among them. */
  lemma CorrelationByDefinition(sqrt: real -> real, period: nat, xs: seq<real>, ys: seq<real>)
    requires period > 0 && |xs| == |ys| && IsSqrt(sqrt)
    ensures var r := Correlation(sqrt, PairAfter(period, xs, ys));
      if |xs| < period then r == None
      else
        var ws, vs := xs[|xs| - period..], ys[|ys| - period..];
        var dx, dy := DeviationsFrom(ws, MeanOf(ws)), DeviationsFrom(vs, MeanOf(vs));
        r == if dx == 0.0 || dy == 0.0 then None
             else Some(CoDeviations(ws, vs, MeanOf(ws), MeanOf(vs)) / sqrt(Times(dx, dy)))
  {
    hide PairAfter, SumsOf, VarX, VarY, Cov, Times, DeviationsFrom, CoDeviations, MeanOf, Correlation, IsSqrt;
    CorrelationOfRun(sqrt, period, xs, ys);
    if |xs| >= period { SumsAreMoments(xs[|xs| - period..], ys[|ys| - period..]); }
  }

  /** The slope over the same window: covariance over variance of `x`, not a number exactly when `x` does not vary. */
  lemma BetaByDefinition(period: nat, xs: seq<real>, ys: seq<real>)
    requires period > 0 && |xs| == |ys|
    ensures var r := Beta(PairAfter(period, xs, ys));
      if |xs| < period then r == None
      else
        var ws, vs := xs[|xs| - period..], ys[|ys| - period..];
        var dx := DeviationsFrom(ws, MeanOf(ws));
        r == if dx == 0.0 then None else Some(CoDeviations(ws, vs, MeanOf(ws), MeanOf(vs)) / dx)
  {
    hide PairAfter, SumsOf, VarX, Cov, DeviationsFrom, CoDeviations, MeanOf;
    PairRunIsSound(period, xs, ys);
    if |xs| >= period { SumsAreMoments(xs[|xs| - period..], ys[|ys| - period..]); }
  }
}

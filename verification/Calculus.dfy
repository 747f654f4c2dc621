/** Derivatives of partial real functions, in Caratheodory's form: `f` has derivative `d` at `p` when near `p`
    it is `f(p) + phi(x) * (x - p)` for a `phi` that is continuous at `p` and equals `d` there. */
module Calculus {
  import opened Options
  import opened Reals

  function Distance(a: real, b: real): (r: real)
    ensures r >= 0.0
  {
    if a >= b then a - b else b - a
  }

  ghost predicate Near(f: real -> real, p: real, eps: real, delta: real) {
    delta > 0.0 && forall x: real :: Distance(x, p) < delta ==> Distance(f(x), f(p)) < eps
  }

  ghost predicate Within(f: real -> real, p: real, eps: real) {
    exists delta: real :: Near(f, p, eps, delta)
  }

  ghost predicate Continuous(f: real -> real, p: real) {
    forall eps: real :: eps > 0.0 ==> Within(f, p, eps)
  }

  lemma Radius(f: real -> real, p: real, eps: real) returns (delta: real)
    requires Continuous(f, p) && eps > 0.0
    ensures Near(f, p, eps, delta)
  {
    assert Within(f, p, eps);
    delta :| Near(f, p, eps, delta);
  }

  function Least(a: real, b: real): real {
    if a <= b then a else b
  }

  lemma ContinuousConstant(f: real -> real, p: real)
    requires forall x: real :: f(x) == f(p)
    ensures Continuous(f, p)
  {
    forall eps: real | eps > 0.0 ensures Within(f, p, eps) {
      assert Near(f, p, eps, 1.0);
    }
  }

  lemma ContinuousSum(f: real -> real, g: real -> real, h: real -> real, p: real)
    requires Continuous(f, p) && Continuous(g, p)
    requires forall x: real :: h(x) == f(x) + g(x)
    ensures Continuous(h, p)
  {
    forall eps: real | eps > 0.0 ensures Within(h, p, eps) {
      var a := Radius(f, p, eps / 2.0);
      var b := Radius(g, p, eps / 2.0);
      assert Near(h, p, eps, Least(a, b));
    }
  }

  /** The part of `e` that, scaled by `bound`, stays below `e`. */
  function Share(e: real, bound: real): real
    requires bound >= 0.0
  {
    e / (bound + 1.0)
  }

  lemma ScaledSmaller(a: real, bound: real, e: real)
    requires 0.0 <= a && 0.0 <= bound && a < Share(e, bound) && e > 0.0
    ensures Times(bound, a) < e
  {
    var q := Share(e, bound);
    assert q * (bound + 1.0) == e;
    assert bound * a <= bound * q by { Monotone(bound, a, q); }
    assert bound * q == e - q;
  }

  lemma Monotone(k: real, a: real, b: real)
    requires k >= 0.0 && a <= b
    ensures k * a <= k * b
  {
  }

  lemma TimesMonotone(a: real, b: real, k: real)
    requires k >= 0.0 && a <= b
    ensures Times(a, k) <= Times(b, k)
  {
  }

  lemma DistanceScales(k: real, a: real, b: real)
    ensures Distance(Times(k, a), Times(k, b)) == Times(Distance(k, 0.0), Distance(a, b))
  {
    if a >= b { ScalesUp(k, a, b); } else { ScalesUp(k, b, a); }
  }

  lemma ScalesUp(k: real, a: real, b: real)
    requires a >= b
    ensures Distance(Times(k, a), Times(k, b)) == Times(Distance(k, 0.0), a - b)
    ensures Distance(Times(k, b), Times(k, a)) == Times(Distance(k, 0.0), a - b)
  {
    assert k * a - k * b == k * (a - b);
    if k >= 0.0 { Monotone(k, b, a); } else { Monotone(0.0 - k, b, a); }
  }

  lemma TriangleInequality(a: real, b: real, c: real)
    ensures Distance(a, c) <= Distance(a, b) + Distance(b, c)
  {
  }

  /** How far a product moves when both factors do. */
  lemma ProductMoves(f: real, g: real, f0: real, g0: real, eps: real)
    requires eps > 0.0
    requires Distance(f, f0) < 1.0 && Distance(f, f0) < Share(eps / 2.0, Distance(g0, 0.0))
    requires Distance(g, g0) < Share(eps / 2.0, Distance(f0, 0.0) + 1.0)
    ensures Distance(Times(f, g), Times(f0, g0)) < eps
  {
    hide Times, Share;
    var k := Distance(f0, 0.0) + 1.0;
    DistanceScales(f, g, g0);
    DistanceScales(g0, f, f0);
    Commutes(g0, f);
    Commutes(g0, f0);
    TriangleInequality(f, f0, 0.0);
    TimesMonotone(Distance(f, 0.0), k, Distance(g, g0));
    ScaledSmaller(Distance(g, g0), k, eps / 2.0);
    ScaledSmaller(Distance(f, f0), Distance(g0, 0.0), eps / 2.0);
    TriangleInequality(Times(f, g), Times(f, g0), Times(f0, g0));
    hide Distance;
  }

  lemma SharePositive(e: real, bound: real)
    requires e > 0.0 && bound >= 0.0
    ensures Share(e, bound) > 0.0
  {
  }

  lemma ContinuousProduct(f: real -> real, g: real -> real, h: real -> real, p: real)
    requires Continuous(f, p) && Continuous(g, p)
    requires forall x: real :: h(x) == Times(f(x), g(x))
    ensures Continuous(h, p)
  {
    hide Times, Share;
    forall eps: real | eps > 0.0 ensures Within(h, p, eps) {
      var f0, g0 := f(p), g(p);
      SharePositive(eps / 2.0, Distance(g0, 0.0));
      SharePositive(eps / 2.0, Distance(f0, 0.0) + 1.0);
      var a := Radius(f, p, 1.0);
      var b := Radius(f, p, Share(eps / 2.0, Distance(g0, 0.0)));
      var c := Radius(g, p, Share(eps / 2.0, Distance(f0, 0.0) + 1.0));
      var delta := Least(a, Least(b, c));
      forall x: real | Distance(x, p) < delta ensures Distance(h(x), h(p)) < eps {
        ProductMoves(f(x), g(x), f0, g0, eps);
      }
      assert Near(h, p, eps, delta);
    }
  }

  /** `f`, continuous at `p`, then `g`, continuous at `f(p)`. */
  lemma ContinuousComposition(f: real -> real, g: real -> real, h: real -> real, p: real)
    requires Continuous(f, p) && Continuous(g, f(p))
    requires forall x: real :: h(x) == g(f(x))
    ensures Continuous(h, p)
  {
    forall eps: real | eps > 0.0 ensures Within(h, p, eps) {
      var b := Radius(g, f(p), eps);
      var a := Radius(f, p, b);
      assert Near(h, p, eps, a);
    }
  }

  /** The reciprocal, made total. */
  function Inverse(x: real): real {
    if x == 0.0 then 0.0 else 1.0 / x
  }

  /** How far the inverses of two positive numbers are apart. */
  lemma InverseMoves(x: real, u: real, eps: real)
    requires u > 0.0 && eps > 0.0
    requires Distance(x, u) < u / 2.0 && Distance(x, u) < Times(eps, Times(u, u)) / 2.0
    ensures x > 0.0 && Distance(1.0 / x, 1.0 / u) < eps
  {
    assert x > u / 2.0;
    InverseOfPositive(x);
    InverseOfPositive(u);
    var a, b := 1.0 / x, 1.0 / u;
    InverseGap(a, b, x, u);
    InverseSmall(a, b, x, u);
    SmallProduct(a, b, u);
    DistanceScales(Times(a, b), u, x);
    Finish(Times(a, b), u, Distance(u, x), eps);
    hide Times;
  }

  lemma InverseOfPositive(x: real)
    requires x > 0.0
    ensures 1.0 / x > 0.0 && Times(1.0 / x, x) == 1.0
  {
  }

  lemma InverseSmall(a: real, b: real, x: real, u: real)
    requires a > 0.0 && b > 0.0 && Times(a, x) == 1.0 && Times(b, u) == 1.0 && x > u / 2.0 > 0.0
    ensures a < 2.0 * b
  {
    PositiveProduct(a, x - u / 2.0);
    HalfProduct(a, b, x, u);
    if a >= 2.0 * b { TimesMonotone(2.0 * b, a, u); }
    hide Times;
  }

  lemma HalfProduct(a: real, b: real, x: real, u: real)
    ensures Times(a, x - u / 2.0) == Times(a, x) - Times(a, u) / 2.0
    ensures Times(2.0 * b, u) == 2.0 * Times(b, u)
  {
  }

  lemma InverseGap(a: real, b: real, x: real, u: real)
    requires Times(a, x) == 1.0 && Times(b, u) == 1.0
    ensures a - b == Times(Times(a, b), u) - Times(Times(a, b), x)
  {
    assert a * b * u == a * (b * u);
    assert a * b * x == b * (a * x);
  }

  lemma SmallProduct(a: real, b: real, u: real)
    requires 0.0 < a < 2.0 * b && u > 0.0 && Times(b, u) == 1.0
    ensures Times(a, b) > 0.0 && Times(Times(a, b), Times(u, u)) < 2.0
  {
    PositiveProduct(a, b);
    PositiveProduct(2.0 * b - a, u);
    SquaresOut(a, b, u);
    hide Times;
  }

  lemma SquaresOut(a: real, b: real, u: real)
    requires Times(b, u) == 1.0
    ensures Times(Times(a, b), Times(u, u)) == Times(a, u)
    ensures Times(2.0 * b - a, u) == 2.0 - Times(a, u)
  {
    assert (a * b) * (u * u) == (a * u) * (b * u);
    assert (2.0 * b - a) * u == 2.0 * (b * u) - a * u;
  }

  lemma Finish(k: real, u: real, gap: real, eps: real)
    requires k > 0.0 && u > 0.0 && eps > 0.0 && gap >= 0.0
    requires Times(k, Times(u, u)) < 2.0 && gap < Times(eps, Times(u, u)) / 2.0
    ensures Times(k, gap) < eps
  {
    var w := Times(u, u);
    TimesMonotone(gap, Times(eps, w) / 2.0, k);
    PositiveProduct(eps, 2.0 - Times(k, w));
    Rearranges(k, w, gap, eps);
    hide Times;
  }

  lemma Rearranges(k: real, w: real, gap: real, eps: real)
    ensures Times(eps, 2.0 - Times(k, w)) == 2.0 * eps - 2.0 * Times(Times(eps, w) / 2.0, k)
    ensures Times(k, gap) == Times(gap, k)
  {
  }

  lemma InverseIsOdd(x: real)
    ensures Inverse(0.0 - x) == 0.0 - Inverse(x)
  {
    if x != 0.0 {
      var a, b := 1.0 / x, 1.0 / (0.0 - x);
      assert a * x == 1.0 && b * (0.0 - x) == 1.0;
      assert (a + b) * x == 0.0;
    }
  }

  lemma ContinuousInverse(p: real)
    requires p != 0.0
    ensures Continuous(Inverse, p)
  {
    forall eps: real | eps > 0.0 ensures Within(Inverse, p, eps) {
      var u := Distance(p, 0.0);
      PositiveProduct(u, u);
      PositiveProduct(eps, Times(u, u));
      var delta := Least(u / 2.0, Times(eps, Times(u, u)) / 2.0);
      hide Times;
      forall x: real | Distance(x, p) < delta ensures Distance(Inverse(x), Inverse(p)) < eps {
        if p > 0.0 {
          InverseMoves(x, p, eps);
        } else {
          InverseMoves(0.0 - x, 0.0 - p, eps);
          InverseIsOdd(x);
          InverseIsOdd(p);
        }
      }
      assert Near(Inverse, p, eps, delta);
    }
  }

  type Curve = real -> Option<real>

  predicate OnLine(f: Curve, p: real, phi: real -> real, x: real) {
    f(p).Some? && f(x) == Some(At(f(p).value, phi, p, x))
  }

  ghost predicate SlopeOf(f: Curve, p: real, d: real, phi: real -> real, radius: real) {
    && radius > 0.0 && f(p).Some? && phi(p) == d && Continuous(phi, p)
    && forall x: real :: Distance(x, p) < radius ==> OnLine(f, p, phi, x)
  }

  ghost predicate Differentiable(f: Curve, p: real, d: real) {
    exists phi: real -> real, radius: real :: SlopeOf(f, p, d, phi, radius)
  }

  /** The curve near `p`, given its value there and its slopes. */
  function At(c: real, phi: real -> real, p: real, x: real): real {
    c + Times(phi(x), x - p)
  }

  lemma AtStart(c: real, phi: real -> real, p: real)
    ensures At(c, phi, p, p) == c
  {
    assert Times(phi(p), 0.0) == 0.0;
  }

  lemma ContinuousShift(shift: real -> real, p: real)
    requires forall x: real :: shift(x) == x - p
    ensures Continuous(shift, p)
  {
    forall eps: real | eps > 0.0 ensures Within(shift, p, eps) {
      assert Near(shift, p, eps, eps);
    }
  }

  lemma ContinuousRise(phi: real -> real, p: real) returns (rise: real -> real)
    requires Continuous(phi, p)
    ensures Continuous(rise, p) && forall x: real :: rise(x) == Times(phi(x), x - p)
  {
    hide Continuous, Times;
    var shift: real -> real := x => x - p;
    ContinuousShift(shift, p);
    rise := x => Times(phi(x), shift(x));
    ContinuousProduct(phi, shift, rise, p);
  }

  lemma ContinuousLine(c: real, phi: real -> real, p: real) returns (line: real -> real)
    requires Continuous(phi, p)
    ensures Continuous(line, p) && line(p) == c && forall x: real :: line(x) == At(c, phi, p, x)
  {
    AtStart(c, phi, p);
    hide Continuous, Times;
    var rise := ContinuousRise(phi, p);
    var constant: real -> real := x => c;
    line := x => constant(x) + rise(x);
    ContinuousConstant(constant, p);
    ContinuousSum(constant, rise, line, p);
  }

  /** A differentiable curve is defined near the point and stays close to its value there. */
  lemma StaysClose(f: Curve, p: real, d: real, eps: real) returns (delta: real)
    requires Differentiable(f, p, d) && eps > 0.0
    ensures delta > 0.0 && f(p).Some?
    ensures forall x: real :: Distance(x, p) < delta ==> f(x).Some? && Distance(f(x).value, f(p).value) < eps
  {
    hide Continuous, Times, At;
    var phi, radius :| SlopeOf(f, p, d, phi, radius);
    var line := ContinuousLine(f(p).value, phi, p);
    var a := Radius(line, p, eps);
    delta := Least(a, radius);
    forall x: real | Distance(x, p) < delta ensures f(x).Some? && Distance(f(x).value, f(p).value) < eps {
      assert OnLine(f, p, phi, x);
    }
  }

  ghost predicate AgreeNear(f: Curve, g: Curve, p: real, radius: real) {
    radius > 0.0 && forall x: real :: Distance(x, p) < radius ==> f(x) == g(x)
  }

  lemma AgreeingCurves(f: Curve, g: Curve, p: real, d: real, radius: real)
    requires Differentiable(f, p, d) && AgreeNear(f, g, p, radius)
    ensures Differentiable(g, p, d)
  {
    var phi, r :| SlopeOf(f, p, d, phi, r);
    assert Distance(p, p) == 0.0;
    assert SlopeOf(g, p, d, phi, Least(r, radius));
  }

  lemma ConstantRule(f: Curve, p: real)
    requires f(p).Some? && forall x: real :: f(x) == f(p)
    ensures Differentiable(f, p, 0.0)
  {
    var phi: real -> real := x => 0.0;
    ContinuousConstant(phi, p);
    assert SlopeOf(f, p, 0.0, phi, 1.0);
  }

  lemma IdentityRule(f: Curve, p: real)
    requires forall x: real :: f(x) == Some(x)
    ensures Differentiable(f, p, 1.0)
  {
    var phi: real -> real := x => 1.0;
    ContinuousConstant(phi, p);
    assert SlopeOf(f, p, 1.0, phi, 1.0);
  }

  lemma SumOnLine(f: Curve, g: Curve, h: Curve, p: real, phi: real -> real, psi: real -> real, chi: real -> real,
                  x: real)
    requires OnLine(f, p, phi, x) && OnLine(g, p, psi, x)
    requires forall x: real :: f(x).Some? && g(x).Some? ==> h(x) == Some(f(x).value + g(x).value)
    requires chi(x) == phi(x) + psi(x)
    ensures OnLine(h, p, chi, x)
  {
    Distributes(phi(x), psi(x), x - p);
    hide Times;
  }

  lemma SumRule(f: Curve, g: Curve, h: Curve, p: real, a: real, b: real)
    requires Differentiable(f, p, a) && Differentiable(g, p, b)
    requires forall x: real :: f(x).Some? && g(x).Some? ==> h(x) == Some(f(x).value + g(x).value)
    ensures Differentiable(h, p, a + b)
  {
    hide Continuous, Times;
    var phi, r :| SlopeOf(f, p, a, phi, r);
    var psi, s :| SlopeOf(g, p, b, psi, s);
    var chi: real -> real := x => phi(x) + psi(x);
    ContinuousSum(phi, psi, chi, p);
    forall x: real | Distance(x, p) < Least(r, s) ensures OnLine(h, p, chi, x) {
      SumOnLine(f, g, h, p, phi, psi, chi, x);
    }
    assert SlopeOf(h, p, a + b, chi, Least(r, s));
  }

  lemma Distributes(a: real, b: real, k: real)
    ensures Times(a + b, k) == Times(a, k) + Times(b, k)
  {
  }

  lemma ProductOnLine(f: Curve, g: Curve, h: Curve, p: real, phi: real -> real, psi: real -> real, chi: real -> real,
                      x: real)
    requires OnLine(f, p, phi, x) && OnLine(g, p, psi, x)
    requires forall x: real :: f(x).Some? && g(x).Some? ==> h(x) == Some(Times(f(x).value, g(x).value))
    requires chi(x) == Times(f(x).value, psi(x)) + Times(g(p).value, phi(x))
    ensures OnLine(h, p, chi, x)
  {
    ProductExpands(f(p).value, g(p).value, phi(x), psi(x), x - p);
    hide Times;
  }

  lemma ContinuousProductSlope(f0: real, g0: real, p: real, phi: real -> real, psi: real -> real)
      returns (chi: real -> real)
    requires Continuous(phi, p) && Continuous(psi, p)
    ensures Continuous(chi, p) && chi(p) == Times(f0, psi(p)) + Times(g0, phi(p))
    ensures forall x: real :: chi(x) == Times(At(f0, phi, p, x), psi(x)) + Times(g0, phi(x))
  {
    hide Continuous, Times, At;
    var line := ContinuousLine(f0, phi, p);
    var constant: real -> real := x => g0;
    var left, right: real -> real := x => Times(line(x), psi(x)), x => Times(g0, phi(x));
    ContinuousProduct(line, psi, left, p);
    ContinuousConstant(constant, p);
    ContinuousProduct(constant, phi, right, p);
    chi := x => left(x) + right(x);
    ContinuousSum(left, right, chi, p);
  }

  lemma ProductRule(f: Curve, g: Curve, h: Curve, p: real, a: real, b: real)
    requires Differentiable(f, p, a) && Differentiable(g, p, b)
    requires forall x: real :: f(x).Some? && g(x).Some? ==> h(x) == Some(Times(f(x).value, g(x).value))
    ensures f(p).Some? && g(p).Some? && Differentiable(h, p, Times(a, g(p).value) + Times(f(p).value, b))
  {
    hide Continuous, Times, At;
    var phi, r :| SlopeOf(f, p, a, phi, r);
    var psi, s :| SlopeOf(g, p, b, psi, s);
    var f0, g0 := f(p).value, g(p).value;
    var chi := ContinuousProductSlope(f0, g0, p, phi, psi);
    forall x: real | Distance(x, p) < Least(r, s) ensures OnLine(h, p, chi, x) {
      ProductOnLine(f, g, h, p, phi, psi, chi, x);
    }
    Commutes(g0, a);
    assert SlopeOf(h, p, Times(a, g0) + Times(f0, b), chi, Least(r, s));
  }

  lemma ProductExpands(f0: real, g0: real, a: real, b: real, k: real)
    ensures Times(f0 + Times(a, k), g0 + Times(b, k))
         == Times(f0, g0) + Times(Times(f0 + Times(a, k), b) + Times(g0, a), k)
  {
  }

  lemma ChainOnLine(f: Curve, g: Curve, h: Curve, p: real, phi: real -> real, psi: real -> real, chi: real -> real,
                    x: real)
    requires OnLine(f, p, phi, x) && OnLine(g, f(p).value, psi, f(x).value)
    requires forall x: real :: f(x).Some? ==> h(x) == g(f(x).value)
    requires chi(x) == Times(psi(f(x).value), phi(x))
    ensures OnLine(h, p, chi, x)
  {
    Associates(psi(f(x).value), phi(x), x - p);
    hide Times;
  }

  lemma ContinuousChainSlope(f0: real, p: real, phi: real -> real, psi: real -> real) returns (chi: real -> real)
    requires Continuous(phi, p) && Continuous(psi, f0)
    ensures Continuous(chi, p) && chi(p) == Times(psi(f0), phi(p))
    ensures forall x: real :: chi(x) == Times(psi(At(f0, phi, p, x)), phi(x))
  {
    hide Continuous, Times, At;
    var line := ContinuousLine(f0, phi, p);
    var outer: real -> real := x => psi(line(x));
    ContinuousComposition(line, psi, outer, p);
    chi := x => Times(outer(x), phi(x));
    ContinuousProduct(outer, phi, chi, p);
  }

  lemma ChainRule(f: Curve, g: Curve, h: Curve, p: real, a: real, b: real)
    requires Differentiable(f, p, a) && f(p).Some? && Differentiable(g, f(p).value, b)
    requires forall x: real :: f(x).Some? ==> h(x) == g(f(x).value)
    ensures Differentiable(h, p, Times(b, a))
  {
    hide Continuous, Times, At;
    var phi, r :| SlopeOf(f, p, a, phi, r);
    var psi, s :| SlopeOf(g, f(p).value, b, psi, s);
    var t := StaysClose(f, p, a, s);
    var chi := ContinuousChainSlope(f(p).value, p, phi, psi);
    forall x: real | Distance(x, p) < Least(r, t) ensures OnLine(h, p, chi, x) {
      assert OnLine(f, p, phi, x);
      ChainOnLine(f, g, h, p, phi, psi, chi, x);
    }
    assert Distance(p, p) == 0.0;
    assert SlopeOf(h, p, Times(b, a), chi, Least(r, t));
  }

  lemma Associates(a: real, b: real, c: real)
    ensures Times(a, Times(b, c)) == Times(Times(a, b), c)
  {
  }

  function Reciprocal(x: real): Option<real> {
    if x == 0.0 then None else Some(1.0 / x)
  }

  lemma ReciprocalRule(u: real)
    requires u != 0.0
    ensures Differentiable(Reciprocal, u, 0.0 - Times(1.0 / u, 1.0 / u))
  {
    hide Times;
    var minus: real -> real := x => 0.0 - 1.0 / u;
    var phi: real -> real := x => Times(minus(x), Inverse(x));
    ContinuousConstant(minus, u);
    ContinuousInverse(u);
    ContinuousProduct(minus, Inverse, phi, u);
    forall x: real | Distance(x, u) < Distance(u, 0.0)
      ensures OnLine(Reciprocal, u, phi, x)
    {
      ReciprocalSlope(x, u);
    }
    NegatesProduct(1.0 / u, 1.0 / u);
    assert SlopeOf(Reciprocal, u, 0.0 - Times(1.0 / u, 1.0 / u), phi, Distance(u, 0.0));
  }

  lemma NegatesProduct(a: real, b: real)
    ensures Times(0.0 - a, b) == 0.0 - Times(a, b)
  {
  }

  lemma ReciprocalSlope(x: real, u: real)
    requires x != 0.0 && u != 0.0
    ensures 1.0 / x == 1.0 / u + Times(Times(0.0 - 1.0 / u, 1.0 / x), x - u)
  {
    var a, b := 1.0 / x, 1.0 / u;
    assert a * x == 1.0 && b * u == 1.0;
    SlopeAlgebra(a, b, x, u);
  }

  lemma SlopeAlgebra(a: real, b: real, x: real, u: real)
    requires a * x == 1.0 && b * u == 1.0
    ensures a == b + Times(Times(0.0 - b, a), x - u)
  {
    assert (0.0 - b) * a * (x - u) == (b * u) * a - (a * x) * b;
  }

  function Root(sqrt: real -> real): Curve {
    u => if u < 0.0 then None else Some(sqrt(u))
  }

  lemma RootGap(a: real, b: real)
    requires a >= 0.0 && b > 0.0
    ensures Distance(a, b) <= Times(1.0 / b, Distance(Times(a, a), Times(b, b)))
  {
    var c := 1.0 / b;
    assert c * b == 1.0 && c > 0.0;
    if a >= b { RootRatio(a, b, c); } else { RootRatioBelow(a, b, c); }
  }

  lemma RootRatio(a: real, b: real, c: real)
    requires a >= b > 0.0 && c > 0.0 && c * b == 1.0
    ensures Times(a, a) >= Times(b, b) && a - b <= Times(c, Times(a, a) - Times(b, b))
  {
    assert a * a - b * b == (a - b) * (a + b);
    assert c * ((a - b) * (a + b)) == (c * b) * (a - b) + (c * a) * (a - b);
    assert (c * a) * (a - b) >= 0.0 by { assert c * a > 0.0; Monotone(c * a, 0.0, a - b); }
    assert (a - b) * (a + b) >= 0.0 by { Monotone(a - b, 0.0, a + b); }
  }

  lemma RootRatioBelow(a: real, b: real, c: real)
    requires b > a >= 0.0 && c > 0.0 && c * b == 1.0
    ensures Times(b, b) >= Times(a, a) && b - a <= Times(c, Times(b, b) - Times(a, a))
  {
    assert b * b - a * a == (b - a) * (a + b);
    assert c * ((b - a) * (a + b)) == (c * b) * (b - a) + (c * a) * (b - a);
    assert (c * a) * (b - a) >= 0.0 by { Monotone(c, 0.0, a); Monotone(c * a, 0.0, b - a); }
    assert (b - a) * (a + b) >= 0.0 by { Monotone(b - a, 0.0, a + b); }
  }

  lemma ContinuousRoot(sqrt: real -> real, total: real -> real, p: real)
    requires IsSqrt(sqrt) && p > 0.0 && forall x: real :: total(x) == if x < 0.0 then 0.0 else sqrt(x)
    ensures Continuous(total, p) && total(p) > 0.0
  {
    assert total(p) > 0.0 by { assert Times(0.0, 0.0) == 0.0; }
    var b := sqrt(p);
    forall eps: real | eps > 0.0 ensures Within(total, p, eps) {
      PositiveProduct(eps, b);
      var delta := Least(p, Times(eps, b));
      forall x: real | Distance(x, p) < delta ensures Distance(total(x), total(p)) < eps {
        hide Times;
        RootGap(sqrt(x), b);
        ShrinksBy(b, Distance(x, p), eps);
      }
      assert Near(total, p, eps, delta);
    }
  }

  lemma ShrinksBy(b: real, gap: real, eps: real)
    requires b > 0.0 && 0.0 <= gap < Times(eps, b)
    ensures Times(1.0 / b, gap) < eps
  {
    var c := 1.0 / b;
    assert c * b == 1.0 && c > 0.0;
    PositiveProduct(c, eps * b - gap);
    assert c * (eps * b - gap) == eps * (c * b) - c * gap;
  }

  lemma ContinuousRootSlope(sqrt: real -> real, u: real) returns (phi: real -> real)
    requires IsSqrt(sqrt) && u > 0.0
    ensures sqrt(u) > 0.0 && Continuous(phi, u) && forall x: real :: x > 0.0 ==> phi(x) == Inverse(sqrt(x) + sqrt(u))
  {
    var total: real -> real := x => if x < 0.0 then 0.0 else sqrt(x);
    ContinuousRoot(sqrt, total, u);
    hide Continuous, IsSqrt;
    var constant: real -> real := x => sqrt(u);
    ContinuousConstant(constant, u);
    var both: real -> real := x => total(x) + constant(x);
    ContinuousSum(total, constant, both, u);
    ContinuousInverse(both(u));
    phi := x => Inverse(both(x));
    ContinuousComposition(both, Inverse, phi, u);
  }

  lemma RootRule(sqrt: real -> real, u: real)
    requires IsSqrt(sqrt) && u > 0.0
    ensures sqrt(u) > 0.0 && Differentiable(Root(sqrt), u, 1.0 / (2.0 * sqrt(u)))
  {
    var phi := ContinuousRootSlope(sqrt, u);
    forall x: real | Distance(x, u) < u ensures OnLine(Root(sqrt), u, phi, x) {
      RootSlope(sqrt(x), sqrt(u));
    }
    hide Continuous, IsSqrt;
    assert SlopeOf(Root(sqrt), u, 1.0 / (2.0 * sqrt(u)), phi, u);
  }

  lemma RootSlope(a: real, b: real)
    requires a >= 0.0 && b > 0.0
    ensures a == b + Times(1.0 / (a + b), Times(a, a) - Times(b, b))
  {
    var c := 1.0 / (a + b);
    assert c * (a + b) == 1.0;
    assert c * (a * a - b * b) == (c * (a + b)) * (a - b);
  }

  /** The textbook definition. */
  ghost predicate QuotientsWithin(f: Curve, p: real, d: real, eps: real, delta: real)
    requires f(p).Some?
  {
    delta > 0.0 && forall x: real :: 0.0 < Distance(x, p) < delta ==>
      f(x).Some? && Distance((f(x).value - f(p).value) / (x - p), d) < eps
  }

  ghost predicate QuotientsApproach(f: Curve, p: real, d: real, eps: real)
    requires f(p).Some?
  {
    exists delta: real :: QuotientsWithin(f, p, d, eps, delta)
  }

  ghost predicate HasDerivative(f: Curve, p: real, d: real) {
    f(p).Some? && forall eps: real :: eps > 0.0 ==> QuotientsApproach(f, p, d, eps)
  }

  lemma QuotientIs(a: real, k: real)
    requires k != 0.0
    ensures Times(a, k) / k == a
  {
  }

  lemma CaratheodoryIsTextbook(f: Curve, p: real, d: real)
    requires Differentiable(f, p, d)
    ensures HasDerivative(f, p, d)
  {
    hide Times;
    var phi, radius :| SlopeOf(f, p, d, phi, radius);
    forall eps: real | eps > 0.0 ensures QuotientsApproach(f, p, d, eps) {
      var a := Radius(phi, p, eps);
      var delta := Least(a, radius);
      forall x: real | 0.0 < Distance(x, p) < delta
        ensures f(x).Some? && Distance((f(x).value - f(p).value) / (x - p), d) < eps
      {
        QuotientIs(phi(x), x - p);
      }
      assert QuotientsWithin(f, p, d, eps, delta);
    }
  }
}

/** The gradient steps of rolling correlation and regression slope: the paired-window state run on dual
    numbers, and the quotient and root rules on what it holds. */
module PairGradient {
  import opened Options
  import opened Reals
  import opened Windows
  import opened RingStats
  import opened PairStats

  /** A value and its derivative in one parameter. */
  datatype Dual = Dual(v: real, d: real)

  function DAdd(a: Dual, b: Dual): Dual {
    Dual(a.v + b.v, a.d + b.d)
  }

  function DSub(a: Dual, b: Dual): Dual {
    Dual(a.v - b.v, a.d - b.d)
  }

  function DMul(a: Dual, b: Dual): Dual {
    Dual(Times(a.v, b.v), Times(a.d, b.v) + Times(a.v, b.d))
  }

  /** Division by a constant. */
  function DOver(a: Dual, n: real): Dual
    requires n != 0.0
  {
    Dual(a.v / n, a.d / n)
  }

  function DDiv(a: Dual, b: Dual): Dual
    requires b.v != 0.0
  {
    SquareNonZero(b.v);
    Dual(a.v / b.v, (Times(a.d, b.v) - Times(a.v, b.d)) / Times(b.v, b.v))
  }

  function DSqrt(sqrt: real -> real, a: Dual): Dual
    requires sqrt(a.v) != 0.0
  {
    Dual(sqrt(a.v), a.d / (2.0 * sqrt(a.v)))
  }

  datatype DualSums = DualSums(x: Dual, y: Dual, xy: Dual, xx: Dual, yy: Dual)

  const ZERO := Dual(0.0, 0.0)

  /** The five sums of a window of dual samples, by dual arithmetic. */
  function DualSumsOf(xs: seq<real>, gxs: seq<real>, ys: seq<real>, gys: seq<real>): DualSums
    requires |xs| == |gxs| == |ys| == |gys|
  {
    if xs == [] then DualSums(ZERO, ZERO, ZERO, ZERO, ZERO)
    else
      var n := |xs| - 1;
      DualInclude(DualSumsOf(xs[..n], gxs[..n], ys[..n], gys[..n]), Dual(xs[n], gxs[n]), Dual(ys[n], gys[n]))
  }

  function DualInclude(s: DualSums, x: Dual, y: Dual): DualSums {
    DualSums(DAdd(s.x, x), DAdd(s.y, y), DAdd(s.xy, DMul(x, y)), DAdd(s.xx, DMul(x, x)), DAdd(s.yy, DMul(y, y)))
  }

  function DualExclude(s: DualSums, x: Dual, y: Dual): DualSums {
    DualSums(DSub(s.x, x), DSub(s.y, y), DSub(s.xy, DMul(x, y)), DSub(s.xx, DMul(x, x)), DSub(s.yy, DMul(y, y)))
  }

  function Values(s: DualSums): Sums {
    Sums(s.x.v, s.y.v, s.xy.v, s.xx.v, s.yy.v)
  }

  function Derivatives(s: DualSums): Sums {
    Sums(s.x.d, s.y.d, s.xy.d, s.xx.d, s.yy.d)
  }

  /** The runtime's gradient updates, written out on derivatives. */
  function GradDrop(g: Sums, x: Dual, y: Dual): Sums {
    Sums(g.x - x.d, g.y - y.d, g.xy - (Times(x.d, y.v) + Times(x.v, y.d)), g.xx - 2.0 * Times(x.v, x.d),
         g.yy - 2.0 * Times(y.v, y.d))
  }

  function GradAdd(g: Sums, x: Dual, y: Dual): Sums {
    Sums(g.x + x.d, g.y + y.d, g.xy + (Times(x.d, y.v) + Times(x.v, y.d)), g.xx + 2.0 * Times(x.v, x.d),
         g.yy + 2.0 * Times(y.v, y.d))
  }

  /** They are the derivative parts of the dual updates, and the primal ones the value parts. */
  lemma IncludeLifts(s: DualSums, x: Dual, y: Dual)
    ensures Values(DualInclude(s, x, y)) == Add(Values(s), x.v, y.v)
    ensures Derivatives(DualInclude(s, x, y)) == GradAdd(Derivatives(s), x, y)
    ensures Values(DualExclude(s, x, y)) == Drop(Values(s), x.v, y.v)
    ensures Derivatives(DualExclude(s, x, y)) == GradDrop(Derivatives(s), x, y)
  {
    Commutes(x.d, x.v);
    Commutes(y.d, y.v);
    hide Times;
  }

  datatype GradPair = GradPair(primal: PairState, gx: seq<real>, gy: seq<real>, sums: Sums)

  predicate GradShaped(s: GradPair) {
    PairShaped(s.primal) && |s.gx| == |s.gy| == s.primal.capacity
  }

  function GradPrepared(period: nat): GradPair {
    GradPair(PairPrepared(period), seq(period, _ => 0.0), seq(period, _ => 0.0), Sums(0.0, 0.0, 0.0, 0.0, 0.0))
  }

  /** The state update both gradient steps share. */
  function GradPush(s: GradPair, x: Dual, y: Dual): (r: GradPair)
    requires GradShaped(s)
    ensures GradShaped(r) && r.primal.capacity == s.primal.capacity
  {
    var p, h := s.primal, s.primal.head;
    var kept := if p.count == p.capacity then GradDrop(s.sums, Dual(p.xBuf[h], s.gx[h]), Dual(p.yBuf[h], s.gy[h]))
      else s.sums;
    GradPair(PairPush(p, x.v, y.v), s.gx[h := x.d], s.gy[h := y.d], GradAdd(kept, x, y))
  }

  function GXWindow(s: GradPair): (ws: seq<real>)
    requires GradShaped(s)
    ensures |ws| == s.primal.count
  {
    WindowOf(s.gx, s.primal.head, s.primal.count)
  }

  function GYWindow(s: GradPair): (ws: seq<real>)
    requires GradShaped(s)
    ensures |ws| == s.primal.count
  {
    WindowOf(s.gy, s.primal.head, s.primal.count)
  }

  function WindowSums(s: GradPair): DualSums
    requires GradShaped(s)
  {
    DualSumsOf(XWindow(s.primal), GXWindow(s), YWindow(s.primal), GYWindow(s))
  }

  ghost predicate GradSound(s: GradPair) {
    GradShaped(s) && s.primal.sums == Values(WindowSums(s)) && s.sums == Derivatives(WindowSums(s))
  }

  lemma DualSnoc(xs: seq<real>, gxs: seq<real>, ys: seq<real>, gys: seq<real>, x: Dual, y: Dual)
    requires |xs| == |gxs| == |ys| == |gys|
    ensures DualSumsOf(xs + [x.v], gxs + [x.d], ys + [y.v], gys + [y.d]) ==
            DualInclude(DualSumsOf(xs, gxs, ys, gys), x, y)
  {
    var n := |xs|;
    assert (xs + [x.v])[..n] == xs && (gxs + [x.d])[..n] == gxs && (ys + [y.v])[..n] == ys && (gys + [y.d])[..n] == gys;
    hide DualInclude;
  }

  lemma ExcludeInclude(s: DualSums, x: Dual, y: Dual, u: Dual, w: Dual)
    ensures DualExclude(DualInclude(s, u, w), x, y) == DualInclude(DualExclude(s, x, y), u, w)
  {
    hide DMul;
  }

  lemma DualOne(x: Dual, y: Dual)
    ensures DualExclude(DualSumsOf([x.v], [x.d], [y.v], [y.d]), x, y) == DualSumsOf([], [], [], [])
  {
    DualSnoc([], [], [], [], x, y);
    assert [] + [x.v] == [x.v] && [] + [x.d] == [x.d] && [] + [y.v] == [y.v] && [] + [y.d] == [y.d];
    hide DMul;
  }

  lemma {:induction false} DualCons(xs: seq<real>, gxs: seq<real>, ys: seq<real>, gys: seq<real>, x: Dual, y: Dual)
    requires |xs| == |gxs| == |ys| == |gys|
    ensures DualExclude(DualSumsOf([x.v] + xs, [x.d] + gxs, [y.v] + ys, [y.d] + gys), x, y) ==
            DualSumsOf(xs, gxs, ys, gys)
    decreases |xs|
  {
    if xs == [] {
      hide *;
      assert gxs == [] && ys == [] && gys == [];
      assert [x.v] + xs == [x.v] && [x.d] + gxs == [x.d] && [y.v] + ys == [y.v] && [y.d] + gys == [y.d];
      DualOne(x, y);
    } else {
      hide DualInclude, DualExclude;
      var n := |xs| - 1;
      var a, b, c, d := xs[..n], gxs[..n], ys[..n], gys[..n];
      DualCons(a, b, c, d, x, y);
      var u, w := Dual(xs[n], gxs[n]), Dual(ys[n], gys[n]);
      assert [x.v] + xs == ([x.v] + a) + [u.v] && [x.d] + gxs == ([x.d] + b) + [u.d];
      assert [y.v] + ys == ([y.v] + c) + [w.v] && [y.d] + gys == ([y.d] + d) + [w.d];
      DualSnoc([x.v] + a, [x.d] + b, [y.v] + c, [y.d] + d, u, w);
      ExcludeInclude(DualSumsOf([x.v] + a, [x.d] + b, [y.v] + c, [y.d] + d), x, y, u, w);
    }
  }

  /** One gradient step is one step of the paired window on dual numbers. */
  lemma GradPushSound(s: GradPair, x: Dual, y: Dual)
    requires GradSound(s)
    ensures var r, c := GradPush(s, x, y), s.primal.capacity;
      && GradSound(r) && r.primal == PairPush(s.primal, x.v, y.v)
      && XWindow(r.primal) == Kept(XWindow(s.primal), c) + [x.v] &&
         YWindow(r.primal) == Kept(YWindow(s.primal), c) + [y.v]
      && GXWindow(r) == Kept(GXWindow(s), c) + [x.d] && GYWindow(r) == Kept(GYWindow(s), c) + [y.d]
  {
    var p, h, c, n := s.primal, s.primal.head, s.primal.capacity, s.primal.count;
    WriteMovesWindow(p.xBuf, h, n, x.v);
    WriteMovesWindow(p.yBuf, h, n, y.v);
    WriteMovesWindow(s.gx, h, n, x.d);
    WriteMovesWindow(s.gy, h, n, y.d);
    PairPushIs(p, x.v, y.v);
    hide WindowOf, PairPush;
    var xs, gxs, ys, gys := Kept(XWindow(p), c), Kept(GXWindow(s), c), Kept(YWindow(p), c), Kept(GYWindow(s), c);
    var before, kept := WindowSums(s), DualSumsOf(xs, gxs, ys, gys);
    if n == c {
      var ox, oy := Dual(p.xBuf[h], s.gx[h]), Dual(p.yBuf[h], s.gy[h]);
      DualCons(xs, gxs, ys, gys, ox, oy);
      IncludeLifts(before, ox, oy);
    }
    DualSnoc(xs, gxs, ys, gys, x, y);
    IncludeLifts(kept, x, y);
    hide DualSumsOf, DualInclude, DualExclude, Values, Derivatives, Add, Drop, GradAdd, GradDrop, Kept;
  }

  function GradPairAfter(period: nat, xs: seq<Dual>, ys: seq<Dual>): (s: GradPair)
    requires period > 0 && |xs| == |ys|
    ensures GradShaped(s) && s.primal.capacity == period
    decreases |xs|
  {
    if xs == [] then GradPrepared(period)
    else GradPush(GradPairAfter(period, xs[..|xs| - 1], ys[..|ys| - 1]), xs[|xs| - 1], ys[|ys| - 1])
  }

  function ValuesOf(ws: seq<Dual>): (r: seq<real>)
    ensures |r| == |ws| && forall i | 0 <= i < |ws| :: r[i] == ws[i].v
  {
    seq(|ws|, i requires 0 <= i < |ws| => ws[i].v)
  }

  function SlopesOf(ws: seq<Dual>): (r: seq<real>)
    ensures |r| == |ws| && forall i | 0 <= i < |ws| :: r[i] == ws[i].d
  {
    seq(|ws|, i requires 0 <= i < |ws| => ws[i].d)
  }

  /** The dual sums of the last `period` pairs of dual samples. */
  ghost function LastSums(period: nat, xs: seq<Dual>, ys: seq<Dual>): DualSums
    requires |xs| == |ys|
  {
    var lo := WindowStart(|xs|, period);
    DualSumsOf(ValuesOf(xs)[lo..], SlopesOf(xs)[lo..], ValuesOf(ys)[lo..], SlopesOf(ys)[lo..])
  }

  lemma GradPreparedSound(period: nat)
    requires period > 0
    ensures GradSound(GradPrepared(period))
    ensures var s := GradPrepared(period);
      XWindow(s.primal) == [] && YWindow(s.primal) == [] && GXWindow(s) == [] && GYWindow(s) == []
  {
  }

  lemma DualSplit(ws: seq<Dual>)
    requires ws != []
    ensures var n := |ws| - 1;
      && ValuesOf(ws)[..n] == ValuesOf(ws[..n]) && SlopesOf(ws)[..n] == SlopesOf(ws[..n])
      && ValuesOf(ws)[n] == ws[n].v && SlopesOf(ws)[n] == ws[n].d
  {
  }

  /** Every run with a fixed period: the primal sums are the value parts and the gradient sums the derivative
      parts of the window sums of dual numbers, and the primal state is the one without gradients. */
  lemma {:induction false} GradRunIsDual(period: nat, xs: seq<Dual>, ys: seq<Dual>)
    requires period > 0 && |xs| == |ys|
    ensures var s, lo := GradPairAfter(period, xs, ys), WindowStart(|xs|, period);
      && GradSound(s) && s.primal.count == |xs| - lo
      && XWindow(s.primal) == ValuesOf(xs)[lo..] && YWindow(s.primal) == ValuesOf(ys)[lo..]
      && GXWindow(s) == SlopesOf(xs)[lo..] && GYWindow(s) == SlopesOf(ys)[lo..]
      && s.primal == PairAfter(period, ValuesOf(xs), ValuesOf(ys))
    decreases |xs|
  {
    hide GradPush, PairPush, GradSound, WindowOf, DualSumsOf, ValuesOf, SlopesOf;
    if xs == [] {
      GradPreparedSound(period);
    } else {
      var n := |xs| - 1;
      GradRunIsDual(period, xs[..n], ys[..n]);
      GradPushSound(GradPairAfter(period, xs[..n], ys[..n]), xs[n], ys[n]);
      DualSplit(xs);
      DualSplit(ys);
      HistoryMovesWindow(ValuesOf(xs), period);
      HistoryMovesWindow(ValuesOf(ys), period);
      HistoryMovesWindow(SlopesOf(xs), period);
      HistoryMovesWindow(SlopesOf(ys), period);
    }
  }

  /** Covariance and variances of a window, on dual numbers. */
  function DCov(s: DualSums, n: real): Dual
    requires n != 0.0
  {
    DSub(s.xy, DOver(DMul(s.x, s.y), n))
  }

  function DVarX(s: DualSums, n: real): Dual
    requires n != 0.0
  {
    DSub(s.xx, DOver(DMul(s.x, s.x), n))
  }

  function DVarY(s: DualSums, n: real): Dual
    requires n != 0.0
  {
    DSub(s.yy, DOver(DMul(s.y, s.y), n))
  }

  /** The runtime's derivative readouts. */
  function CovPrime(s: Sums, g: Sums, n: real): real
    requires n != 0.0
  {
    g.xy - (Times(g.x, s.y) + Times(s.x, g.y)) / n
  }

  function VarXPrime(s: Sums, g: Sums, n: real): real
    requires n != 0.0
  {
    g.xx - 2.0 * Times(s.x, g.x) / n
  }

  function VarYPrime(s: Sums, g: Sums, n: real): real
    requires n != 0.0
  {
    g.yy - 2.0 * Times(s.y, g.y) / n
  }

  lemma ReadoutsLift(s: DualSums, n: real)
    requires n != 0.0
    ensures DCov(s, n) == Dual(Cov(Values(s), n), CovPrime(Values(s), Derivatives(s), n))
    ensures DVarX(s, n) == Dual(VarX(Values(s), n), VarXPrime(Values(s), Derivatives(s), n))
    ensures DVarY(s, n) == Dual(VarY(Values(s), n), VarYPrime(Values(s), Derivatives(s), n))
  {
    Commutes(s.x.d, s.x.v);
    Commutes(s.y.d, s.y.v);
    hide Times;
    assert Times(s.x.d, s.x.v) + Times(s.x.v, s.x.d) == 2.0 * Times(s.x.v, s.x.d);
    assert Times(s.y.d, s.y.v) + Times(s.y.v, s.y.d) == 2.0 * Times(s.y.v, s.y.d);
  }

  /** The gradient `jit_rt_rolling_beta_grad` reads off a full window; `None` for a division by zero. */
  function BetaGradOf(n: real, p: Sums, g: Sums): Option<real>
    requires n != 0.0
  {
    var vx := VarX(p, n);
    if vx == 0.0 then None
    else
      SquareNonZero(vx);
      Some((Times(CovPrime(p, g, n), vx) - Times(Cov(p, n), VarXPrime(p, g, n))) / Times(vx, vx))
  }

  function BetaGrad(s: GradPair): Option<real> {
    if PairFull(s.primal) then BetaGradOf(s.primal.count as real, s.primal.sums, s.sums) else None
  }

  /** The gradient `jit_rt_rolling_corr_grad` reads off a full window. */
  function CorrGradOf(sqrt: real -> real, n: real, p: Sums, g: Sums): Option<real>
    requires n != 0.0
  {
    var vx, vy := VarX(p, n), VarY(p, n);
    var denom := sqrt(Times(vx, vy));
    if denom == 0.0 then None
    else
      SquareNonZero(denom);
      var denomPrime := (Times(VarXPrime(p, g, n), vy) + Times(vx, VarYPrime(p, g, n))) / (2.0 * denom);
      Some(CovPrime(p, g, n) / denom - Times(Cov(p, n), denomPrime) / Times(denom, denom))
  }

  function CorrGrad(sqrt: real -> real, s: GradPair): Option<real> {
    if PairFull(s.primal) then CorrGradOf(sqrt, s.primal.count as real, s.primal.sums, s.sums) else None
  }

  lemma QuotientRuleForms(c: real, c': real, d: real, d': real)
    requires d != 0.0
    ensures Times(d, d) != 0.0 && c' / d - Times(c, d') / Times(d, d) == (Times(c', d) - Times(c, d')) / Times(d, d)
  {
    SquareNonZero(d);
    var q, w := c' / d, Times(d, d);
    assert q * d == c';
    assert q == Times(c', d) / w by {
      assert Times(c', d) == q * w by { assert q * d * d == q * (d * d); }
      Cancels(q, w);
    }
    SubtractOver(Times(c', d), Times(c, d'), w);
  }

  lemma Cancels(q: real, w: real)
    requires w != 0.0
    ensures q * w / w == q
  {
  }

  lemma SubtractOver(a: real, b: real, w: real)
    requires w != 0.0
    ensures a / w - b / w == (a - b) / w
  {
  }

  /** What is read off dual sums is the derivative part of the dual quotient of covariance and variance, and of
      covariance over the root of the variances. */
  ghost predicate ReadsGradients(sqrt: real -> real, last: DualSums, n: real, beta: Option<real>, corr: Option<real>)
    requires n != 0.0
  {
    var cov, vx, vy := DCov(last, n), DVarX(last, n), DVarY(last, n);
    && beta == (if vx.v == 0.0 then None else Some(DDiv(cov, vx).d))
    && corr == (if sqrt(DMul(vx, vy).v) == 0.0 then None else Some(DDiv(cov, DSqrt(sqrt, DMul(vx, vy))).d))
  }

  lemma GradientsRead(sqrt: real -> real, last: DualSums, n: real)
    requires n != 0.0
    ensures ReadsGradients(sqrt, last, n, BetaGradOf(n, Values(last), Derivatives(last)),
                           CorrGradOf(sqrt, n, Values(last), Derivatives(last)))
  {
    ReadoutsLift(last, n);
    var cov, vx, vy := DCov(last, n), DVarX(last, n), DVarY(last, n);
    var denom := sqrt(DMul(vx, vy).v);
    if denom != 0.0 {
      QuotientRuleForms(cov.v, cov.d, denom, DSqrt(sqrt, DMul(vx, vy)).d);
    }
    hide DCov, DVarX, DVarY, Cov, VarX, VarY, CovPrime, VarXPrime, VarYPrime, Times, Values, Derivatives;
  }

  /** After any run: no gradient before the window is full, then those of the dual sums of the window; and the
      slope returned beside its gradient is the value part of the same quotient. */
  lemma GradientsOfRun(sqrt: real -> real, period: nat, xs: seq<Dual>, ys: seq<Dual>)
    requires period > 0 && |xs| == |ys|
    ensures var s, n, last := GradPairAfter(period, xs, ys), period as real, LastSums(period, xs, ys);
      if |xs| < period then BetaGrad(s) == None == CorrGrad(sqrt, s) && Beta(s.primal) == None
      else
        && ReadsGradients(sqrt, last, n, BetaGrad(s), CorrGrad(sqrt, s))
        && Beta(s.primal) == (if DVarX(last, n).v > 0.0 then Some(DDiv(DCov(last, n), DVarX(last, n)).v) else None)
  {
    GradRunIsDual(period, xs, ys);
    var s, n, last := GradPairAfter(period, xs, ys), period as real, LastSums(period, xs, ys);
    hide ReadsGradients, BetaGradOf, CorrGradOf, GradPairAfter, DualSumsOf, ValuesOf, SlopesOf, Cov, VarX, VarXPrime,
         CovPrime,
      VarYPrime, VarY, Times, PairAfter, WindowOf, DMul, DOver, DSub, DCov, DVarX, Values, Derivatives;
    assert s.primal.sums == Values(last) && s.sums == Derivatives(last);
    GradientsRead(sqrt, last, n);
    ReadoutsLift(last, n);
  }

  /** Both gradient operators in their own form: the primal state and the sensitivities, updated in place. */
  class RollingPairGradient {
    const primal: RollingPairState
    var gx: array<real>
    var gy: array<real>
    var capacity: nat
    var sums: Sums

    ghost function State(): GradPair
      reads this, primal, primal.xBuf, primal.yBuf, gx, gy
    {
      GradPair(primal.State(), gx[..], gy[..], sums)
    }

    ghost predicate Valid()
      reads this, primal, primal.xBuf, primal.yBuf, gx, gy
    {
      && capacity == primal.capacity
      && (capacity > 0 ==> primal.Shaped() && gx.Length == gy.Length == capacity)
      && gx != gy && gx != primal.xBuf && gx != primal.yBuf && gy != primal.xBuf && gy != primal.yBuf
    }

    constructor ()
      ensures Valid() && capacity == 0 && fresh(primal) && fresh(gx) && fresh(gy) && fresh(primal.xBuf) &&
              fresh(primal.yBuf)
    {
      primal := new RollingPairState();
      gx, gy := new real[0], new real[0];
      capacity, sums := 0, Sums(0.0, 0.0, 0.0, 0.0, 0.0);
    }

    /** A new period starts both the window and its sensitivities afresh. */
    method Step(sqrt: real -> real, period: nat, x: Dual, y: Dual) returns (beta: Option<real>, corr: Option<real>)
      requires Valid() && period > 0
      modifies this, primal, primal.xBuf, primal.yBuf, gx, gy
      ensures Valid() && capacity == period
      ensures State() == GradPush(if old(capacity) == period then old(State()) else GradPrepared(period), x, y)
      ensures beta == BetaGrad(State()) && corr == CorrGrad(sqrt, State())
    {
      if primal.capacity != period { primal.Restart(period); }
      if capacity != period {
        gx, gy := new real[period](_ => 0.0), new real[period](_ => 0.0);
        capacity, sums := period, Sums(0.0, 0.0, 0.0, 0.0, 0.0);
        assert State() == GradPrepared(period);
      }
      PushBoth(x, y);
      if primal.count == primal.capacity && primal.capacity > 0 {
        var n, p := primal.count as real, Sums(primal.sumX, primal.sumY, primal.sumXY, primal.sumXX, primal.sumYY);
        beta, corr := BetaGradOf(n, p, sums), CorrGradOf(sqrt, n, p, sums);
      } else {
        beta, corr := None, None;
      }
      hide PairShaped, VarX, VarY, Cov, Times, GradPush;
    }

    method PushBoth(x: Dual, y: Dual)
      requires Valid() && capacity > 0
      modifies this`sums, primal`head, primal`count, primal`sumX, primal`sumY, primal`sumXY, primal`sumXX, primal`sumYY
      modifies primal.xBuf, primal.yBuf, gx, gy
      ensures Valid() && State() == GradPush(old(State()), x, y)
    {
      hide Times, PairPush, GradAdd, GradDrop;
      var h := primal.head;
      if primal.count == primal.capacity {
        sums := GradDrop(sums, Dual(primal.xBuf[h], gx[h]), Dual(primal.yBuf[h], gy[h]));
      }
      gx[h], gy[h] := x.d, y.d;
      sums := GradAdd(sums, x, y);
      primal.PushInto(x.v, y.v);
    }
  }
}

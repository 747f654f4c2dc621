/** Away from the points where a predicate flips, an `abs` turns or a domain ends, the gradient of a stateless
    expression is its derivative in the parameter, in the textbook sense. */
module TrueDerivative {
  import opened Options
  import opened Reals
  import opened Calculus
  import opened Ast
  import opened Autodiff

  function Set(params: int -> real, t: int, x: real): int -> real {
    (id: int) => if id == t then x else params(id)
  }

  /** The expression as a function of parameter `t`. */
  function CurveOf(m: Tick, params: int -> real, t: int, e: Expr): Curve
    requires Stateless(e)
  {
    x => Eval(m, Set(params, t, x), e)
  }

  ghost predicate LogSlope(m: Tick, u: real) {
    u > 0.0 ==> Differentiable(x => Logarithm(m, x), u, 1.0 / u)
  }

  /** What is asked of the two library functions. */
  ghost predicate Lawful(m: Tick) {
    IsSqrt(m.sqrt) && forall u: real :: LogSlope(m, u)
  }

  /** Values 0 and 1 from a predicate. */
  predicate IsDecision(e: Expr) {
    e.Binary? && !IsArithmetic(e.bop)
  }

  /** How far two operands are from where their comparison flips. */
  function Margin(op: BinaryOpKind, l: real, r: real): real {
    if op.Eq? || op.NotEq? then Magnitude(Magnitude(l - r) - TOLERANCE) else Magnitude(l - r)
  }

  /** No zero divisor, no comparison at its margin, and no number at 0 where a connective wants its truth. */
  predicate Apart(op: BinaryOpKind, l: real, r: real, decisionL: bool, decisionR: bool) {
    if op.Div? then r != 0.0
    else if IsArithmetic(op) then true
    else if op.And? || op.Or? then (decisionL || l != 0.0) && (decisionR || r != 0.0)
    else Margin(op, l, r) > 0.0
  }

  /** Away from the switching boundaries. */
  predicate Smooth(m: Tick, params: int -> real, e: Expr)
    requires Stateless(e)
  {
    match e
    case Num(_) => true
    case Param(_, _) => true
    case Unary(_, x) => Smooth(m, params, x)
    case Binary(op, l, r) =>
      && Smooth(m, params, l) && Smooth(m, params, r)
      && var a, b := Eval(m, params, l), Eval(m, params, r);
      a.Some? && b.Some? && Apart(op, a.value, b.value, IsDecision(l), IsDecision(r))
    case Cond(c, thn, els) =>
      && Smooth(m, params, c)
      && var v := Eval(m, params, c);
      && v.Some? && (IsDecision(c) || v.value != 0.0)
      && (if v.value != 0.0 then Smooth(m, params, thn) else Smooth(m, params, els))
    case Call(n, args, _) =>
      IsMathFn(n) ==>
        && Smooth(m, params, args[0])
        && var v := Eval(m, params, args[0]);
        && v.Some? && (if KindOf(n).Abs? then v.value != 0.0 else v.value > 0.0)
  }

  ghost predicate SteadyWithin(f: Curve, p: real, radius: real) {
    radius > 0.0 && f(p).Some? && forall x: real :: Distance(x, p) < radius ==> f(x) == f(p)
  }

  /** Constant near `p`. */
  ghost predicate Steady(f: Curve, p: real) {
    exists radius: real :: SteadyWithin(f, p, radius)
  }

  ghost predicate TruthWithin(f: Curve, p: real, radius: real) {
    radius > 0.0 && f(p).Some? && forall x: real ::
      Distance(x, p) < radius ==> f(x).Some? && (f(x).value != 0.0 <==> f(p).value != 0.0)
  }

  lemma SteadyHasNoSlope(f: Curve, p: real)
    requires Steady(f, p)
    ensures Differentiable(f, p, 0.0)
  {
    var radius :| SteadyWithin(f, p, radius);
    var same: Curve := x => f(p);
    ConstantRule(same, p);
    assert AgreeNear(same, f, p, radius);
    AgreeingCurves(same, f, p, 0.0, radius);
  }

  lemma TruthKept(f: Curve, p: real, d: real) returns (radius: real)
    requires Differentiable(f, p, d) && f(p).Some? && (Steady(f, p) || f(p).value != 0.0)
    ensures TruthWithin(f, p, radius)
  {
    if Steady(f, p) {
      radius :| SteadyWithin(f, p, radius);
    } else {
      radius := StaysClose(f, p, d, Distance(f(p).value, 0.0));
    }
    hide Differentiable;
  }

  lemma NegationRule(f: Curve, h: Curve, p: real, a: real)
    requires Differentiable(f, p, a)
    requires forall x: real :: f(x).Some? ==> h(x) == Some(0.0 - f(x).value)
    ensures Differentiable(h, p, 0.0 - a)
  {
    hide Differentiable;
    var minus: Curve := x => Some(-1.0);
    ConstantRule(minus, p);
    forall x: real | minus(x).Some? && f(x).Some? ensures h(x) == Some(Times(minus(x).value, f(x).value)) {
    }
    ProductRule(minus, f, h, p, 0.0, a);
  }

  lemma DifferenceRule(f: Curve, g: Curve, h: Curve, p: real, a: real, b: real)
    requires Differentiable(f, p, a) && Differentiable(g, p, b)
    requires forall x: real :: f(x).Some? && g(x).Some? ==> h(x) == Some(f(x).value - g(x).value)
    ensures Differentiable(h, p, a - b)
  {
    hide Differentiable;
    var minus: Curve := x => Negated(g(x));
    NegationRule(g, minus, p, b);
    SumRule(f, minus, h, p, a, 0.0 - b);
  }

  function Inverted(g: Curve): Curve {
    x => if g(x).None? then None else Reciprocal(g(x).value)
  }

  lemma InvertedRule(g: Curve, p: real, b: real)
    requires Differentiable(g, p, b) && g(p).Some? && g(p).value != 0.0
    ensures var c := 1.0 / g(p).value;
      Differentiable(Inverted(g), p, Times(0.0 - Times(c, c), b))
  {
    hide Differentiable, Times;
    var u := g(p).value;
    ReciprocalRule(u);
    ChainRule(g, Reciprocal, Inverted(g), p, b, 0.0 - Times(1.0 / u, 1.0 / u));
  }

  lemma QuotientRule(f: Curve, g: Curve, h: Curve, p: real, a: real, b: real)
    requires Differentiable(f, p, a) && Differentiable(g, p, b) && f(p).Some? && g(p).Some? && g(p).value != 0.0
    requires forall x: real :: f(x).Some? && g(x).Some? && g(x).value != 0.0 ==> h(x) == Some(f(x).value / g(x).value)
    ensures Times(g(p).value, g(p).value) != 0.0
    ensures Differentiable(h, p, (Times(a, g(p).value) - Times(f(p).value, b)) / Times(g(p).value, g(p).value))
  {
    hide Differentiable, Times;
    var u, inverse := g(p).value, Inverted(g);
    InvertedRule(g, p, b);
    forall x: real | f(x).Some? && inverse(x).Some? ensures h(x) == Some(Times(f(x).value, inverse(x).value)) {
      DivisionIsProduct(f(x).value, g(x).value);
    }
    ProductRule(f, inverse, h, p, a, Times(0.0 - Times(1.0 / u, 1.0 / u), b));
    QuotientForms(f(p).value, a, u, b);
  }

  lemma DivisionIsProduct(a: real, b: real)
    requires b != 0.0
    ensures a / b == Times(a, 1.0 / b)
  {
    var c := 1.0 / b;
    assert c * b == 1.0;
    assert (a * c) * b == a * (c * b);
    UniqueQuotient(Times(a, c), a, b);
  }

  lemma UniqueQuotient(q: real, a: real, b: real)
    requires b != 0.0 && q * b == a
    ensures q == a / b
  {
  }

  lemma QuotientForms(f: real, a: real, u: real, b: real)
    requires u != 0.0
    ensures Times(u, u) != 0.0
    ensures Times(a, 1.0 / u) + Times(f, Times(0.0 - Times(1.0 / u, 1.0 / u), b)) ==
            (Times(a, u) - Times(f, b)) / Times(u, u)
  {
    var c := 1.0 / u;
    assert c * u == 1.0;
    QuotientAlgebra(f, a, u, b, c);
    assert Times(u, u) != 0.0;
    UniqueQuotient(Times(a, c) + Times(f, Times(0.0 - Times(c, c), b)), Times(a, u) - Times(f, b), Times(u, u));
  }

  lemma QuotientAlgebra(f: real, a: real, u: real, b: real, c: real)
    requires c * u == 1.0
    ensures (Times(a, c) + Times(f, Times(0.0 - Times(c, c), b))) * Times(u, u) == Times(a, u) - Times(f, b)
  {
    assert (a * c) * (u * u) == (a * u) * (c * u);
    assert (f * ((0.0 - c * c) * b)) * (u * u) == 0.0 - (f * b) * ((c * u) * (c * u));
  }

  lemma MagnitudeRule(f: Curve, h: Curve, p: real, a: real)
    requires Differentiable(f, p, a) && f(p).Some? && f(p).value != 0.0
    requires forall x: real :: f(x).Some? ==> h(x) == Some(Magnitude(f(x).value))
    ensures Differentiable(h, p, Times(Sign(f(p).value), a))
  {
    hide Differentiable;
    var radius := StaysClose(f, p, a, Distance(f(p).value, 0.0));
    if f(p).value > 0.0 {
      assert AgreeNear(f, h, p, radius);
      AgreeingCurves(f, h, p, a, radius);
    } else {
      var minus: Curve := x => Negated(f(x));
      NegationRule(f, minus, p, a);
      assert AgreeNear(minus, h, p, radius);
      AgreeingCurves(minus, h, p, 0.0 - a, radius);
    }
  }

  lemma LogRule(m: Tick, f: Curve, h: Curve, p: real, a: real)
    requires Lawful(m) && Differentiable(f, p, a) && f(p).Some? && f(p).value > 0.0
    requires forall x: real :: f(x).Some? ==> h(x) == Logarithm(m, f(x).value)
    ensures Differentiable(h, p, a / f(p).value)
  {
    hide Differentiable, Times;
    var u := f(p).value;
    assert LogSlope(m, u);
    var log: Curve := x => Logarithm(m, x);
    ChainRule(f, log, h, p, a, 1.0 / u);
    DivisionIsProduct(a, u);
    Commutes(a, 1.0 / u);
  }

  lemma SquareRootRule(m: Tick, f: Curve, h: Curve, p: real, a: real)
    requires Lawful(m) && Differentiable(f, p, a) && f(p).Some? && f(p).value > 0.0
    requires forall x: real :: f(x).Some? ==> h(x) == SquareRoot(m, f(x).value)
    ensures m.sqrt(f(p).value) > 0.0 && Differentiable(h, p, a / (2.0 * m.sqrt(f(p).value)))
  {
    hide Differentiable, Times;
    var u := f(p).value;
    RootRule(m.sqrt, u);
    ChainRule(f, Root(m.sqrt), h, p, a, 1.0 / (2.0 * m.sqrt(u)));
    DivisionIsProduct(a, 2.0 * m.sqrt(u));
    Commutes(a, 1.0 / (2.0 * m.sqrt(u)));
  }

  /** Operands that move less than half the margin do not change the outcome. */
  lemma SameSide(op: BinaryOpKind, l: real, r: real, l': real, r': real)
    requires !IsArithmetic(op) && !op.And? && !op.Or?
    requires Distance(l', l) < Margin(op, l, r) / 2.0 && Distance(r', r) < Margin(op, l, r) / 2.0
    ensures Holds(op, l', r') == Holds(op, l, r)
  {
  }

  lemma ComparisonSteady(op: BinaryOpKind, f: Curve, g: Curve, h: Curve, p: real, a: real, b: real)
    requires !IsArithmetic(op) && !op.And? && !op.Or?
    requires Differentiable(f, p, a) && Differentiable(g, p, b) && f(p).Some? && g(p).Some?
    requires Margin(op, f(p).value, g(p).value) > 0.0
    requires forall x: real :: h(x) == Decided(op, f(x), g(x))
    ensures Steady(h, p)
  {
    hide Differentiable, Margin, Holds;
    var l, r := f(p).value, g(p).value;
    var s := StaysClose(f, p, a, Margin(op, l, r) / 2.0);
    var t := StaysClose(g, p, b, Margin(op, l, r) / 2.0);
    forall x: real | Distance(x, p) < Least(s, t) ensures h(x) == h(p) {
      SameSide(op, l, r, f(x).value, g(x).value);
    }
    assert SteadyWithin(h, p, Least(s, t));
  }

  lemma ConnectiveSteady(op: BinaryOpKind, f: Curve, g: Curve, h: Curve, p: real, a: real, b: real)
    requires op.And? || op.Or?
    requires Differentiable(f, p, a) && Differentiable(g, p, b) && f(p).Some? && g(p).Some?
    requires (Steady(f, p) || f(p).value != 0.0) && (Steady(g, p) || g(p).value != 0.0)
    requires forall x: real :: h(x) == Decided(op, f(x), g(x))
    ensures Steady(h, p)
  {
    hide Differentiable;
    var s := TruthKept(f, p, a);
    var t := TruthKept(g, p, b);
    assert SteadyWithin(h, p, Least(s, t));
  }

  /** What holds of each smooth subterm: the gradient is the slope of its curve, and a predicate is constant. */
  ghost predicate Follows(f: Curve, p: real, g: Option<real>, decision: bool) {
    f(p).Some? && g.Some? && Differentiable(f, p, g.value) && (decision ==> Steady(f, p))
  }

  lemma CombinedFollows(op: BinaryOpKind, f: Curve, g: Curve, h: Curve, p: real, a: ValueGradient, b: ValueGradient,
                        dl: bool, dr: bool)
    requires Follows(f, p, a.gradient, dl) && Follows(g, p, b.gradient, dr) && a.value == f(p) && b.value == g(p)
    requires Apart(op, a.value.value, b.value.value, dl, dr)
    requires forall x: real :: h(x) == Combined(op, f(x), g(x))
    ensures Follows(h, p, ForwardBinary(op, a, b).gradient, !IsArithmetic(op))
  {
    hide Differentiable, Steady, Times, Margin, Holds;
    var c, d := a.gradient.value, b.gradient.value;
    if op.Add? {
      SumRule(f, g, h, p, c, d);
    } else if op.Sub? {
      DifferenceRule(f, g, h, p, c, d);
    } else if op.Mul? {
      ProductRule(f, g, h, p, c, d);
    } else if op.Div? {
      QuotientRule(f, g, h, p, c, d);
    } else {
      if op.And? || op.Or? {
        ConnectiveSteady(op, f, g, h, p, c, d);
      } else {
        ComparisonSteady(op, f, g, h, p, c, d);
      }
      SteadyHasNoSlope(h, p);
    }
  }

  lemma MathFollows(m: Tick, n: string, f: Curve, h: Curve, p: real, a: ValueGradient, decision: bool)
    requires Lawful(m) && IsMathFn(n) && Follows(f, p, a.gradient, decision) && a.value == f(p)
    requires if KindOf(n).Abs? then a.value.value != 0.0 else a.value.value > 0.0
    requires forall x: real :: h(x) == MathFn(m, n, f(x))
    ensures Follows(h, p, ForwardMath(m, n, a).gradient, false)
  {
    hide Differentiable, Steady, Times, KindOf, Lawful;
    var c := a.gradient.value;
    if KindOf(n).Abs? {
      MagnitudeRule(f, h, p, c);
    } else if KindOf(n).Log? {
      LogRule(m, f, h, p, c);
    } else {
      SquareRootRule(m, f, h, p, c);
      TwiceIs(m.sqrt(f(p).value));
    }
  }

  lemma TwiceIs(x: real)
    ensures Times(2.0, x) == 2.0 * x
  {
  }

  lemma CondFollows(c: Curve, f: Curve, h: Curve, p: real, gc: Option<real>, g: Option<real>, decision: bool)
    requires Follows(c, p, gc, decision) && (decision || c(p).value != 0.0) && Follows(f, p, g, false)
    requires forall x: real :: c(x).Some? && (c(x).value != 0.0 <==> c(p).value != 0.0) ==> h(x) == f(x)
    ensures Follows(h, p, g, false)
  {
    hide Differentiable, Steady;
    var radius := TruthKept(c, p, gc.value);
    assert AgreeNear(f, h, p, radius);
    AgreeingCurves(f, h, p, g.value, radius);
  }

  /** Every smooth stateless expression: the forward gradient is the slope of the expression as a function of the
      parameter, and predicates are constant near the point. */
  lemma {:induction false} ForwardFollows(m: Tick, params: int -> real, t: int, p: real, e: Expr)
    requires Lawful(m) && Stateless(e) && Smooth(m, Set(params, t, p), e)
    ensures Follows(CurveOf(m, params, t, e), p, Forward(m, Set(params, t, p), t, e).gradient, IsDecision(e))
  {
    hide Differentiable, Steady, Lawful, KindOf, Combined, MathFn, ForwardMath, ForwardBinary, Apart, Follows;
    var at, h := Set(params, t, p), CurveOf(m, params, t, e);
    match e
    case Num(_) => ConstantFollows(h, p);
    case Param(_, id) => ParamFollows(h, params, t, id, p);
    case Unary(op, x) =>
      ForwardFollows(m, params, t, p, x);
      UnaryFollows(op, CurveOf(m, params, t, x), h, p, Forward(m, at, t, x).gradient, IsDecision(x));
    case Binary(op, l, r) =>
      ForwardFollows(m, params, t, p, l);
      ForwardFollows(m, params, t, p, r);
      ForwardValue(m, at, t, l);
      ForwardValue(m, at, t, r);
      CombinedFollows(op, CurveOf(m, params, t, l), CurveOf(m, params, t, r), h, p, Forward(m, at, t, l),
                      Forward(m, at, t, r),
                      IsDecision(l), IsDecision(r));
    case Cond(c, thn, els) =>
      ForwardFollows(m, params, t, p, c);
      ForwardValue(m, at, t, c);
      var taken := if Eval(m, at, c).value != 0.0 then thn else els;
      ForwardFollows(m, params, t, p, taken);
      Weaken(CurveOf(m, params, t, taken), p, Forward(m, at, t, taken).gradient, IsDecision(taken));
      CondFollows(CurveOf(m, params, t, c), CurveOf(m, params, t, taken), h, p, Forward(m, at, t, c).gradient,
                  Forward(m, at, t, taken).gradient, IsDecision(c));
    case Call(n, args, _) =>
      if IsMathFn(n) {
        ForwardFollows(m, params, t, p, args[0]);
        ForwardValue(m, at, t, args[0]);
        MathFollows(m, n, CurveOf(m, params, t, args[0]), h, p, Forward(m, at, t, args[0]), IsDecision(args[0]));
      } else {
        ConstantFollows(h, p);
      }
  }

  lemma Weaken(f: Curve, p: real, g: Option<real>, decision: bool)
    requires Follows(f, p, g, decision)
    ensures Follows(f, p, g, false)
  {
    hide Differentiable, Steady;
  }

  lemma ConstantFollows(h: Curve, p: real)
    requires h(p).Some? && forall x: real :: h(x) == h(p)
    ensures Follows(h, p, Some(0.0), false)
  {
    ConstantRule(h, p);
    hide Differentiable, Steady;
  }

  lemma ParamFollows(h: Curve, params: int -> real, t: int, id: int, p: real)
    requires forall x: real :: h(x) == Some(Set(params, t, x)(id))
    ensures Follows(h, p, Some(if id == t then 1.0 else 0.0), false)
  {
    if id == t { IdentityRule(h, p); } else { ConstantRule(h, p); }
    hide Differentiable, Steady;
  }

  lemma UnaryFollows(op: UnaryOpKind, f: Curve, h: Curve, p: real, g: Option<real>, decision: bool)
    requires Follows(f, p, g, decision)
    requires forall x: real :: h(x) == if op.Plus? then f(x) else Negated(f(x))
    ensures Follows(h, p, if op.Plus? then g else Negated(g), false)
  {
    hide Differentiable, Steady;
    if op.Plus? {
      assert AgreeNear(f, h, p, 1.0);
      AgreeingCurves(f, h, p, g.value, 1.0);
    } else {
      NegationRule(f, h, p, g.value);
    }
  }

  /** At every smooth point the derivative tree and the forward pass give one number, and it is the derivative of
      the expression in the parameter. */
  lemma GradientIsDerivative(m: Tick, params: int -> real, t: int, p: real, e: Expr)
    requires Lawful(m) && ReadsLiterals(m) && Stateless(e) && Smooth(m, Set(params, t, p), e)
    ensures var at := Set(params, t, p);
      var g := Forward(m, at, t, e).gradient;
      && g.Some? && Eval(m, at, Differentiate(e, t)) == g
      && HasDerivative(CurveOf(m, params, t, e), p, g.value)
  {
    hide Differentiable, Steady, Smooth, Lawful;
    ForwardFollows(m, params, t, p, e);
    SymbolicIsForward(m, Set(params, t, p), t, e);
    CaratheodoryIsTextbook(CurveOf(m, params, t, e), p, Forward(m, Set(params, t, p), t, e).gradient.value);
    hide Eval, Forward, HasDerivative, CurveOf;
  }
}

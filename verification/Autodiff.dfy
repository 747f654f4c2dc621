/** Derivatives of stateless expressions in one parameter: the derivative tree that is built once, and the
    forward evaluation that carries a value and a gradient.  Both over the reals; `None` is a result that is
    not a finite number: a division by zero, or a logarithm or root outside its domain. */
module Autodiff {
  import opened Options
  import opened Reals
  import opened Ast

  /** What a tick's evaluation reads: the value of a literal, the two quotes of a ticker, and the two
      transcendental functions. */
  datatype Tick = Tick(num: Bits64 -> real, bid: string -> real, ask: string -> real, log: real -> real,
                       sqrt: real -> real)

  const ZERO: Bits64 := 0
  const TWO: Bits64 := 0x4000_0000_0000_0000
  const TOLERANCE := 0.000000000001

  ghost predicate ReadsLiterals(m: Tick) {
    m.num(ZERO) == 0.0 && m.num(ONE) == 1.0 && m.num(TWO) == 2.0
  }

  /** The trees the first phase supports, with their arguments in place. */
  predicate Stateless(e: Expr) {
    match e
    case Num(_) => true
    case Param(_, _) => true
    case Ident(_) => false
    case Unary(_, x) => Stateless(x)
    case Binary(_, l, r) => Stateless(l) && Stateless(r)
    case Cond(c, t, f) => Stateless(c) && Stateless(t) && Stateless(f)
    case Call(n, args, _) =>
      |args| == 1 && ((IsMarketFn(n) && args[0].Ident?) || (IsMathFn(n) && Stateless(args[0])))
  }

  function Plus(a: Option<real>, b: Option<real>): Option<real> {
    if a.Some? && b.Some? then Some(a.value + b.value) else None
  }

  function Less(a: Option<real>, b: Option<real>): Option<real> {
    if a.Some? && b.Some? then Some(a.value - b.value) else None
  }

  function By(a: Option<real>, b: Option<real>): Option<real> {
    if a.Some? && b.Some? then Some(Times(a.value, b.value)) else None
  }

  function Over(a: Option<real>, b: Option<real>): Option<real> {
    if a.Some? && b.Some? && b.value != 0.0 then Some(a.value / b.value) else None
  }

  function Negated(a: Option<real>): Option<real> {
    if a.Some? then Some(0.0 - a.value) else None
  }

  function Magnitude(x: real): real {
    if x < 0.0 then 0.0 - x else x
  }

  predicate IsArithmetic(op: BinaryOpKind) {
    op.Add? || op.Sub? || op.Mul? || op.Div?
  }

  /** Comparisons and connectives; they read 0 as false and anything else as true. */
  predicate Holds(op: BinaryOpKind, l: real, r: real)
    requires !IsArithmetic(op)
  {
    match op
    case Gt => l > r
    case Lt => l < r
    case Gte => l >= r
    case Lte => l <= r
    case Eq => Magnitude(l - r) < TOLERANCE
    case NotEq => Magnitude(l - r) >= TOLERANCE
    case And => l != 0.0 && r != 0.0
    case Or => l != 0.0 || r != 0.0
  }

  function Decided(op: BinaryOpKind, l: Option<real>, r: Option<real>): Option<real>
    requires !IsArithmetic(op)
  {
    if l.Some? && r.Some? then Some(if Holds(op, l.value, r.value) then 1.0 else 0.0) else None
  }

  function Combined(op: BinaryOpKind, l: Option<real>, r: Option<real>): Option<real> {
    match op
    case Add => Plus(l, r)
    case Sub => Less(l, r)
    case Mul => By(l, r)
    case Div => Over(l, r)
    case _ => Decided(op, l, r)
  }

  function MarketRead(m: Tick, name: string, ticker: string): real
    requires IsMarketFn(name)
  {
    match KindOf(name)
    case Mid => (m.bid(ticker) + m.ask(ticker)) * 0.5
    case Bid => m.bid(ticker)
    case Ask => m.ask(ticker)
    case _ => m.ask(ticker) - m.bid(ticker)
  }

  function Logarithm(m: Tick, x: real): Option<real> {
    if x <= 0.0 then None else Some(m.log(x))
  }

  function SquareRoot(m: Tick, x: real): Option<real> {
    if x < 0.0 then None else Some(m.sqrt(x))
  }

  function MathFn(m: Tick, name: string, x: Option<real>): Option<real>
    requires IsMathFn(name)
  {
    if x.None? then None
    else match KindOf(name)
      case Abs => Some(Magnitude(x.value))
      case Log => Logarithm(m, x.value)
      case _ => SquareRoot(m, x.value)
  }

  /** What the plain interpreter computes. */
  function Eval(m: Tick, params: int -> real, e: Expr): Option<real>
    requires Stateless(e)
  {
    match e
    case Num(b) => Some(m.num(b))
    case Param(_, id) => Some(params(id))
    case Unary(op, x) => if op.Plus? then Eval(m, params, x) else Negated(Eval(m, params, x))
    case Binary(op, l, r) => Combined(op, Eval(m, params, l), Eval(m, params, r))
    case Cond(c, t, f) =>
      var v := Eval(m, params, c);
      if v.None? then None else if v.value != 0.0 then Eval(m, params, t) else Eval(m, params, f)
    case Call(n, args, _) =>
      if IsMarketFn(n) then Some(MarketRead(m, n, args[0].name)) else MathFn(m, n, Eval(m, params, args[0]))
  }

  datatype ValueGradient = ValueGradient(value: Option<real>, gradient: Option<real>)

  function Sign(x: real): real {
    if x > 0.0 then 1.0 else if x < 0.0 then -1.0 else 0.0
  }

  function ForwardBinary(op: BinaryOpKind, l: ValueGradient, r: ValueGradient): ValueGradient {
    ValueGradient(Combined(op, l.value, r.value),
      match op
      case Add => Plus(l.gradient, r.gradient)
      case Sub => Less(l.gradient, r.gradient)
      case Mul => Plus(By(l.gradient, r.value), By(l.value, r.gradient))
      case Div => Over(Less(By(l.gradient, r.value), By(l.value, r.gradient)), By(r.value, r.value))
      case _ => Some(0.0))
  }

  function ForwardMath(m: Tick, name: string, x: ValueGradient): ValueGradient
    requires IsMathFn(name)
  {
    var out := MathFn(m, name, x.value);
    ValueGradient(out,
      match KindOf(name)
      case Abs => if x.value.Some? then By(Some(Sign(x.value.value)), x.gradient) else None
      case Log => Over(x.gradient, x.value)
      case _ => Over(x.gradient, By(Some(2.0), out)))
  }

  /** Value and gradient in parameter `t`, in one pass. */
  function Forward(m: Tick, params: int -> real, t: int, e: Expr): ValueGradient
    requires Stateless(e)
  {
    match e
    case Num(b) => ValueGradient(Some(m.num(b)), Some(0.0))
    case Param(_, id) => ValueGradient(Some(params(id)), Some(if id == t then 1.0 else 0.0))
    case Unary(op, x) =>
      var inner := Forward(m, params, t, x);
      if op.Plus? then inner else ValueGradient(Negated(inner.value), Negated(inner.gradient))
    case Binary(op, l, r) => ForwardBinary(op, Forward(m, params, t, l), Forward(m, params, t, r))
    case Cond(c, thn, els) =>
      var v := Forward(m, params, t, c).value;
      if v.None? then ValueGradient(None, None)
      else if v.value != 0.0 then Forward(m, params, t, thn) else Forward(m, params, t, els)
    case Call(n, args, _) =>
      if IsMarketFn(n) then ValueGradient(Some(MarketRead(m, n, args[0].name)), Some(0.0))
      else ForwardMath(m, n, Forward(m, params, t, args[0]))
  }

  /** The derivative tree. */
  function Differentiate(e: Expr, t: int): (d: Expr)
    requires Stateless(e)
    ensures Stateless(d)
  {
    match e
    case Num(_) => Num(ZERO)
    case Param(_, id) => Num(if id == t then ONE else ZERO)
    case Unary(op, x) => if op.Plus? then Differentiate(x, t) else Unary(Minus, Differentiate(x, t))
    case Binary(op, l, r) =>
      CloneStateless(l);
      CloneStateless(r);
      var dl, dr := Differentiate(l, t), Differentiate(r, t);
      (match op
       case Add => Binary(Add, dl, dr)
       case Sub => Binary(Sub, dl, dr)
       case Mul => Binary(Add, Binary(Mul, dl, CloneExpr(r)), Binary(Mul, CloneExpr(l), dr))
       case Div =>
         Binary(Div, Binary(Sub, Binary(Mul, dl, CloneExpr(r)), Binary(Mul, CloneExpr(l), dr)),
                Binary(Mul, CloneExpr(r), CloneExpr(r)))
       case _ => Num(ZERO))
    case Cond(c, thn, els) =>
      CloneStateless(c);
      Cond(CloneExpr(c), Differentiate(thn, t), Differentiate(els, t))
    case Call(n, args, _) =>
      if IsMarketFn(n) then Num(ZERO)
      else
        CloneStateless(args[0]);
        DifferentiateMath(n, args[0], Differentiate(args[0], t))
  }

  /** The derivative of a math function of `x`, whose own derivative is `dx`. */
  function DifferentiateMath(n: string, x: Expr, dx: Expr): (d: Expr)
    requires IsMathFn(n) && Stateless(x) && Stateless(dx)
    ensures Stateless(d)
  {
    CloneStateless(x);
    CloneStateless(dx);
    match KindOf(n)
    case Abs =>
      Cond(Binary(Gt, CloneExpr(x), Num(ZERO)), CloneExpr(dx),
           Cond(Binary(Lt, CloneExpr(x), Num(ZERO)), Unary(Minus, dx), Num(ZERO)))
    case Log => Binary(Div, dx, CloneExpr(x))
    case _ => Binary(Div, dx, Binary(Mul, Num(TWO), Call("sqrt", [CloneExpr(x)], NO_NODE)))
  }

  lemma {:induction false} CloneStateless(e: Expr)
    requires Stateless(e)
    ensures Stateless(CloneExpr(e))
  {
    hide KindOf;
    match e
    case Unary(_, x) => CloneStateless(x);
    case Binary(_, l, r) => CloneStateless(l); CloneStateless(r);
    case Cond(c, t, f) => CloneStateless(c); CloneStateless(t); CloneStateless(f);
    case Call(n, args, _) => if !args[0].Ident? { CloneStateless(args[0]); }
    case _ => {}
  }

  lemma {:induction false} CloneEvaluates(m: Tick, params: int -> real, e: Expr)
    requires Stateless(e)
    ensures Stateless(CloneExpr(e)) && Eval(m, params, CloneExpr(e)) == Eval(m, params, e)
  {
    CloneStateless(e);
    hide KindOf, Combined, MathFn, MarketRead;
    match e
    case Unary(_, x) => CloneEvaluates(m, params, x);
    case Binary(_, l, r) => CloneEvaluates(m, params, l); CloneEvaluates(m, params, r);
    case Cond(c, t, f) => CloneEvaluates(m, params, c); CloneEvaluates(m, params, t); CloneEvaluates(m, params, f);
    case Call(n, args, _) => if IsMathFn(n) { CloneEvaluates(m, params, args[0]); }
    case _ => {}
  }

  /** The forward pass computes the plain value beside the gradient. */
  lemma {:induction false} ForwardValue(m: Tick, params: int -> real, t: int, e: Expr)
    requires Stateless(e)
    ensures Forward(m, params, t, e).value == Eval(m, params, e)
  {
    hide KindOf, Combined, MathFn, MarketRead;
    match e
    case Unary(_, x) => ForwardValue(m, params, t, x);
    case Binary(_, l, r) => ForwardValue(m, params, t, l); ForwardValue(m, params, t, r);
    case Cond(c, thn, els) =>
      ForwardValue(m, params, t, c);
      ForwardValue(m, params, t, thn);
      ForwardValue(m, params, t, els);
    case Call(n, args, _) => if IsMathFn(n) { ForwardValue(m, params, t, args[0]); }
    case _ => {}
  }

  /** The tree has a value where the forward pass has none.  It starts at an `abs` whose argument is 0 and has no
      gradient: the tree takes its constant branch there, and the forward pass multiplies nothing by 0.  It
      survives as long as everything around it is defined. */
  predicate Rescued(m: Tick, params: int -> real, t: int, e: Expr)
    requires Stateless(e)
  {
    match e
    case Num(_) => false
    case Param(_, _) => false
    case Unary(_, x) => Rescued(m, params, t, x)
    case Binary(op, l, r) =>
      RescuedBinary(op, Forward(m, params, t, l), Forward(m, params, t, r), Rescued(m, params, t, l),
                    Rescued(m, params, t, r))
    case Cond(c, thn, els) =>
      var v := Eval(m, params, c);
      v.Some? && (if v.value != 0.0 then Rescued(m, params, t, thn) else Rescued(m, params, t, els))
    case Call(n, args, _) =>
      IsMathFn(n) && RescuedMath(m, n, Forward(m, params, t, args[0]), Rescued(m, params, t, args[0]))
  }

  predicate RescuedBinary(op: BinaryOpKind, l: ValueGradient, r: ValueGradient, rl: bool, rr: bool) {
    && IsArithmetic(op) && (rl || rr) && (l.gradient.Some? || rl) && (r.gradient.Some? || rr)
    && (op.Mul? || op.Div? ==> l.value.Some? && r.value.Some?)
    && (op.Div? ==> r.value.value != 0.0)
  }

  predicate RescuedMath(m: Tick, n: string, x: ValueGradient, rx: bool)
    requires IsMathFn(n)
  {
    && x.value.Some?
    && match KindOf(n)
       case Abs => if x.value.value == 0.0 then x.gradient.None? else rx
       case Log => rx && x.value.value != 0.0
       case _ => var root := MathFn(m, n, x.value); rx && root.Some? && root.value != 0.0
  }

  /** How the value of a derivative tree relates to a forward gradient. */
  predicate Matches(tree: Option<real>, gradient: Option<real>, rescued: bool) {
    if gradient.Some? then tree == gradient && !rescued else tree.Some? <==> rescued
  }

  lemma SymbolicMath(m: Tick, params: int -> real, n: string, x: Expr, dx: Expr, g: Option<real>, rescued: bool)
    requires ReadsLiterals(m) && IsMathFn(n) && Stateless(x) && Stateless(dx)
    requires Matches(Eval(m, params, dx), g, rescued)
    ensures var v := ValueGradient(Eval(m, params, x), g);
      Matches(Eval(m, params, DifferentiateMath(n, x, dx)), ForwardMath(m, n, v).gradient,
              RescuedMath(m, n, v, rescued))
  {
    hide Eval, Times, DifferentiateMath, Stateless, KindOf;
    var v, d := Eval(m, params, x), Eval(m, params, dx);
    if KindOf(n).Abs? {
      if v.Some? && d.Some? { SignTimes(v.value, d.value); }
      if v.Some? && g.Some? { SignTimes(v.value, g.value); }
      SymbolicAbs(m, params, n, x, dx);
    } else if KindOf(n).Log? {
      SymbolicLog(m, params, n, x, dx);
    } else {
      SymbolicSqrt(m, params, n, x, dx);
      var root := MathFn(m, n, v);
      if root.Some? { TwiceNonZero(root.value); }
    }
  }

  lemma TwiceNonZero(x: real)
    ensures Times(2.0, x) != 0.0 <==> x != 0.0
  {
  }

  lemma SignTimes(x: real, g: real)
    ensures Times(Sign(x), g) == if x > 0.0 then g else if x < 0.0 then 0.0 - g else 0.0
  {
  }

  /** One level of evaluation at a time. */
  lemma EvalBinary(m: Tick, params: int -> real, op: BinaryOpKind, l: Expr, r: Expr)
    requires Stateless(l) && Stateless(r)
    ensures Stateless(Binary(op, l, r))
    ensures Eval(m, params, Binary(op, l, r)) == Combined(op, Eval(m, params, l), Eval(m, params, r))
  {
    hide Combined;
  }

  lemma EvalCond(m: Tick, params: int -> real, c: Expr, thn: Expr, els: Expr)
    requires Stateless(c) && Stateless(thn) && Stateless(els)
    ensures Stateless(Cond(c, thn, els))
    ensures var v := Eval(m, params, c);
      Eval(m, params, Cond(c, thn, els)) ==
        if v.None? then None else if v.value != 0.0 then Eval(m, params, thn) else Eval(m, params, els)
  {
  }

  lemma AbsTree(n: string, x: Expr, dx: Expr)
    requires IsMathFn(n) && KindOf(n).Abs? && Stateless(x) && Stateless(dx)
    ensures DifferentiateMath(n, x, dx) ==
      Cond(Binary(Gt, CloneExpr(x), Num(ZERO)), CloneExpr(dx),
           Cond(Binary(Lt, CloneExpr(x), Num(ZERO)), Unary(Minus, dx), Num(ZERO)))
  {
    hide KindOf, Stateless, CloneExpr;
  }

  lemma EvalLiteral(m: Tick, params: int -> real, b: Bits64)
    ensures Stateless(Num(b)) && Eval(m, params, Num(b)) == Some(m.num(b))
  {
  }

  lemma EvalMinus(m: Tick, params: int -> real, x: Expr)
    requires Stateless(x)
    ensures Stateless(Unary(Minus, x)) && Eval(m, params, Unary(Minus, x)) == Negated(Eval(m, params, x))
  {
  }

  lemma SymbolicAbs(m: Tick, params: int -> real, n: string, x: Expr, dx: Expr)
    requires ReadsLiterals(m) && IsMathFn(n) && KindOf(n).Abs? && Stateless(x) && Stateless(dx)
    ensures var v, d := Eval(m, params, x), Eval(m, params, dx);
      Eval(m, params, DifferentiateMath(n, x, dx)) ==
        if v.None? then None else if v.value > 0.0 then d else if v.value < 0.0 then Negated(d) else Some(0.0)
  {
    hide KindOf, Eval, Stateless, CloneExpr;
    CloneEvaluates(m, params, x);
    CloneEvaluates(m, params, dx);
    var zero, cx, cdx, minus := Num(ZERO), CloneExpr(x), CloneExpr(dx), Unary(Minus, dx);
    EvalLiteral(m, params, ZERO);
    EvalMinus(m, params, dx);
    EvalBinary(m, params, Gt, cx, zero);
    EvalBinary(m, params, Lt, cx, zero);
    EvalCond(m, params, Binary(Lt, cx, zero), minus, zero);
    EvalCond(m, params, Binary(Gt, cx, zero), cdx, Cond(Binary(Lt, cx, zero), minus, zero));
    AbsTree(n, x, dx);
    hide DifferentiateMath;
  }

  lemma SymbolicLog(m: Tick, params: int -> real, n: string, x: Expr, dx: Expr)
    requires IsMathFn(n) && KindOf(n).Log? && Stateless(x) && Stateless(dx)
    ensures Eval(m, params, DifferentiateMath(n, x, dx)) == Over(Eval(m, params, dx), Eval(m, params, x))
  {
    CloneEvaluates(m, params, x);
    EvalBinary(m, params, Div, dx, CloneExpr(x));
    hide KindOf, Eval, Stateless, CloneExpr;
  }

  lemma SymbolicSqrt(m: Tick, params: int -> real, n: string, x: Expr, dx: Expr)
    requires ReadsLiterals(m) && IsMathFn(n) && KindOf(n).Sqrt? && Stateless(x) && Stateless(dx)
    ensures Eval(m, params, DifferentiateMath(n, x, dx)) ==
      Over(Eval(m, params, dx), By(Some(2.0), MathFn(m, n, Eval(m, params, x))))
  {
    hide *;
    CloneEvaluates(m, params, x);
    SqrtTree(m, n, x, dx, Eval(m, params, x));
    var cx := CloneExpr(x);
    EvalSqrt(m, params, cx);
    EvalOverTwice(m, params, dx, Call("sqrt", [cx], NO_NODE));
  }

  lemma EvalOverTwice(m: Tick, params: int -> real, dx: Expr, root: Expr)
    requires ReadsLiterals(m) && Stateless(dx) && Stateless(root)
    ensures var tree := Binary(Div, dx, Binary(Mul, Num(TWO), root));
      Stateless(tree) && Eval(m, params, tree) == Over(Eval(m, params, dx), By(Some(2.0), Eval(m, params, root)))
  {
    EvalLiteral(m, params, TWO);
    EvalBinary(m, params, Mul, Num(TWO), root);
    EvalBinary(m, params, Div, dx, Binary(Mul, Num(TWO), root));
    hide Eval, Stateless, By, Over, Decided;
  }

  lemma SqrtTree(m: Tick, n: string, x: Expr, dx: Expr, v: Option<real>)
    requires IsMathFn(n) && KindOf(n).Sqrt? && Stateless(x) && Stateless(dx)
    ensures DifferentiateMath(n, x, dx) == Binary(Div, dx, Binary(Mul, Num(TWO), Call("sqrt", [CloneExpr(x)], NO_NODE)))
    ensures IsMathFn("sqrt") && MathFn(m, "sqrt", v) == MathFn(m, n, v)
  {
    assert KindOf("sqrt").Sqrt?;
    hide KindOf, Stateless, CloneExpr;
  }

  lemma EvalSqrt(m: Tick, params: int -> real, x: Expr)
    requires Stateless(x)
    ensures var root := Call("sqrt", [x], NO_NODE);
      IsMathFn("sqrt") && Stateless(root) && Eval(m, params, root) == MathFn(m, "sqrt", Eval(m, params, x))
  {
    assert KindOf("sqrt").Sqrt?;
    hide KindOf, MathFn;
  }

  /** What the derivative tree of a binary node evaluates to, given its parts. */
  function TreeBinary(op: BinaryOpKind, vl: Option<real>, vr: Option<real>, dl: Option<real>, dr: Option<real>)
      : Option<real>
  {
    match op
    case Add => Plus(dl, dr)
    case Sub => Less(dl, dr)
    case Mul => Plus(By(dl, vr), By(vl, dr))
    case Div => Over(Less(By(dl, vr), By(vl, dr)), By(vr, vr))
    case _ => Some(0.0)
  }

  lemma TreeEvaluates(m: Tick, params: int -> real, t: int, e: Expr, op: BinaryOpKind, l: Expr, r: Expr)
    requires e == Binary(op, l, r) && Stateless(e) && ReadsLiterals(m) && Stateless(l) && Stateless(r)
    ensures Eval(m, params, Differentiate(e, t))
         == TreeBinary(op, Eval(m, params, l), Eval(m, params, r),
                       Eval(m, params, Differentiate(l, t)), Eval(m, params, Differentiate(r, t)))
  {
    hide Times, KindOf, Decided, Eval, Differentiate, Stateless, CloneExpr;
    CloneEvaluates(m, params, l);
    CloneEvaluates(m, params, r);
    var dl, dr, cl, cr := Differentiate(l, t), Differentiate(r, t), CloneExpr(l), CloneExpr(r);
    if op.Add? || op.Sub? {
      EvalBinary(m, params, op, dl, dr);
      DifferentiateSum(op, l, r, t);
    } else if op.Mul? || op.Div? {
      EvalBinary(m, params, Mul, dl, cr);
      EvalBinary(m, params, Mul, cl, dr);
      EvalBinary(m, params, Add, Binary(Mul, dl, cr), Binary(Mul, cl, dr));
      EvalBinary(m, params, Sub, Binary(Mul, dl, cr), Binary(Mul, cl, dr));
      EvalBinary(m, params, Mul, cr, cr);
      EvalBinary(m, params, Div, Binary(Sub, Binary(Mul, dl, cr), Binary(Mul, cl, dr)), Binary(Mul, cr, cr));
      DifferentiateProduct(op, l, r, t);
    } else {
      EvalLiteral(m, params, ZERO);
      DifferentiateDecision(op, l, r, t);
    }
  }

  lemma BinaryMatches(op: BinaryOpKind, vl: Option<real>, vr: Option<real>, dl: Option<real>, dr: Option<real>,
                      gl: Option<real>, gr: Option<real>, rl: bool, rr: bool)
    requires Matches(dl, gl, rl) && Matches(dr, gr, rr)
    ensures var l, r := ValueGradient(vl, gl), ValueGradient(vr, gr);
      Matches(TreeBinary(op, vl, vr, dl, dr), ForwardBinary(op, l, r).gradient, RescuedBinary(op, l, r, rl, rr))
  {
    if vr.Some? { SquareNonZero(vr.value); }
    hide Times, Decided, Combined;
  }

  lemma SymbolicBinary(m: Tick, params: int -> real, t: int, e: Expr, op: BinaryOpKind, l: Expr, r: Expr,
                       gl: Option<real>, gr: Option<real>, rl: bool, rr: bool)
    requires e == Binary(op, l, r) && Stateless(e) && ReadsLiterals(m) && Stateless(l) && Stateless(r)
    requires Matches(Eval(m, params, Differentiate(l, t)), gl, rl) &&
             Matches(Eval(m, params, Differentiate(r, t)), gr, rr)
    ensures var vl, vr := ValueGradient(Eval(m, params, l), gl), ValueGradient(Eval(m, params, r), gr);
      Matches(Eval(m, params, Differentiate(e, t)), ForwardBinary(op, vl, vr).gradient,
              RescuedBinary(op, vl, vr, rl, rr))
  {
    hide Matches, Eval, Differentiate, Stateless, TreeBinary, RescuedBinary, ForwardBinary;
    TreeEvaluates(m, params, t, e, op, l, r);
    BinaryMatches(op, Eval(m, params, l), Eval(m, params, r), Eval(m, params, Differentiate(l, t)),
                  Eval(m, params, Differentiate(r, t)), gl, gr, rl, rr);
  }

  lemma DifferentiateSum(op: BinaryOpKind, l: Expr, r: Expr, t: int)
    requires Stateless(l) && Stateless(r) && (op.Add? || op.Sub?)
    ensures Differentiate(Binary(op, l, r), t) == Binary(op, Differentiate(l, t), Differentiate(r, t))
  {
  }

  lemma DifferentiateProduct(op: BinaryOpKind, l: Expr, r: Expr, t: int)
    requires Stateless(l) && Stateless(r) && (op.Mul? || op.Div?)
    ensures var left, right := Binary(Mul, Differentiate(l, t), CloneExpr(r)),
            Binary(Mul, CloneExpr(l), Differentiate(r, t));
      Differentiate(Binary(op, l, r), t) ==
        if op.Mul? then Binary(Add, left, right)
          else Binary(Div, Binary(Sub, left, right), Binary(Mul, CloneExpr(r), CloneExpr(r)))
  {
  }

  lemma DifferentiateDecision(op: BinaryOpKind, l: Expr, r: Expr, t: int)
    requires Stateless(l) && Stateless(r) && !IsArithmetic(op)
    ensures Differentiate(Binary(op, l, r), t) == Num(ZERO)
  {
  }

  /** The derivative tree evaluates to the forward gradient wherever that is defined, and the two differ exactly
      where the tree is rescued. */
  lemma {:induction false} SymbolicIsForward(m: Tick, params: int -> real, t: int, e: Expr)
    requires ReadsLiterals(m) && Stateless(e)
    ensures var tree, gradient := Eval(m, params, Differentiate(e, t)), Forward(m, params, t, e).gradient;
      && (gradient.Some? ==> tree == gradient)
      && (tree != gradient <==> Rescued(m, params, t, e))
  {
    SymbolicMatches(m, params, t, e);
    hide Eval, Differentiate, Forward, Rescued;
  }

  lemma {:induction false} SymbolicMatches(m: Tick, params: int -> real, t: int, e: Expr)
    requires ReadsLiterals(m) && Stateless(e)
    ensures Matches(Eval(m, params, Differentiate(e, t)), Forward(m, params, t, e).gradient, Rescued(m, params, t, e))
  {
    hide ForwardMath, ForwardBinary, DifferentiateMath, KindOf, Combined, RescuedBinary, RescuedMath;
    match e
    case Num(_) => {}
    case Param(_, _) => {}
    case Unary(_, x) => SymbolicMatches(m, params, t, x);
    case Binary(op, l, r) =>
      SymbolicMatches(m, params, t, l);
      SymbolicMatches(m, params, t, r);
      ForwardValue(m, params, t, l);
      ForwardValue(m, params, t, r);
      SymbolicBinary(m, params, t, e, op, l, r, Forward(m, params, t, l).gradient, Forward(m, params, t, r).gradient,
                     Rescued(m, params, t, l), Rescued(m, params, t, r));
      hide Differentiate;
    case Cond(c, thn, els) =>
      SymbolicMatches(m, params, t, thn);
      SymbolicMatches(m, params, t, els);
      ForwardValue(m, params, t, c);
      CloneEvaluates(m, params, c);
    case Call(n, args, _) =>
      if IsMathFn(n) {
        SymbolicMatches(m, params, t, args[0]);
        ForwardValue(m, params, t, args[0]);
        CloneStateless(args[0]);
        SymbolicMath(m, params, n, args[0], Differentiate(args[0], t), Forward(m, params, t, args[0]).gradient,
                     Rescued(m, params, t, args[0]));
      }
  }

  /** They do differ at `abs(sqrt(p))`, `p = 0`; and no longer at `abs(sqrt(p)) / 0`. */
  lemma KinkDiffers(m: Tick, params: int -> real)
    requires ReadsLiterals(m) && params(0) == 0.0 && m.sqrt(0.0) == 0.0
    ensures var e := Call("abs", [Call("sqrt", [Param("p", 0)], NO_NODE)], NO_NODE);
      && Stateless(e) && Rescued(m, params, 0, e)
      && Eval(m, params, Differentiate(e, 0)) == Some(0.0) && Forward(m, params, 0, e).gradient == None
      && !Rescued(m, params, 0, Binary(Div, e, Num(ZERO)))
  {
    var root := Call("sqrt", [Param("p", 0)], NO_NODE);
    assert KindOf("sqrt").Sqrt? && KindOf("abs").Abs?;
    assert Times(2.0, 0.0) == 0.0;
    assert Eval(m, params, root) == Some(0.0);
    assert Forward(m, params, 0, root) == ValueGradient(Some(0.0), None);
    SymbolicAbs(m, params, "abs", root, Differentiate(root, 0));
    assert Forward(m, params, 0, Num(ZERO)) == ValueGradient(Some(0.0), Some(0.0));
  }
}

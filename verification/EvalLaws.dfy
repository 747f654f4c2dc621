/** What plain evaluation means, operator by operator: laws that tie the operators to the order of the reals, to
    one another and to the quotes. */
module EvalLaws {
  import opened Options
  import opened Reals
  import opened Ast
  import opened Autodiff

  /** The value of a predicate. */
  function Truth(b: bool): Option<real> {
    Some(if b then 1.0 else 0.0)
  }

  /** Comparisons of two defined operands: strict ones by the order, the others as complements, equality up to
      1e-12. */
  lemma ComparisonsMean(m: Tick, params: int -> real, l: Expr, r: Expr)
    requires Stateless(l) && Stateless(r) && Eval(m, params, l).Some? && Eval(m, params, r).Some?
    ensures var a, b := Eval(m, params, l).value, Eval(m, params, r).value;
      && Eval(m, params, Binary(Gt, l, r)) == Truth(a > b) && Eval(m, params, Binary(Lt, l, r)) == Truth(a < b)
      && Eval(m, params, Binary(Gte, l, r)) == Truth(!(a < b)) && Eval(m, params, Binary(Lte, l, r)) == Truth(!(a > b))
      && Eval(m, params, Binary(Eq, l, r)) == Truth(a - b < 0.000000000001 && b - a < 0.000000000001)
      && Eval(m, params, Binary(NotEq, l, r)) == Truth(!(a - b < 0.000000000001 && b - a < 0.000000000001))
  {
    hide Eval;
    EvalBinary(m, params, Gt, l, r);
    EvalBinary(m, params, Lt, l, r);
    EvalBinary(m, params, Gte, l, r);
    EvalBinary(m, params, Lte, l, r);
    EvalBinary(m, params, Eq, l, r);
    EvalBinary(m, params, NotEq, l, r);
  }

  /** Each comparison against the others, undefined operands included. */
  lemma ComparisonsRelate(m: Tick, params: int -> real, l: Expr, r: Expr)
    requires Stateless(l) && Stateless(r)
    ensures Eval(m, params, Binary(Gt, l, r)) == Eval(m, params, Binary(Lt, r, l))
    ensures Eval(m, params, Binary(Gte, l, r)) == Eval(m, params, Binary(Lte, r, l))
    ensures Eval(m, params, Binary(Eq, l, r)) == Eval(m, params, Binary(Eq, r, l))
    ensures Eval(m, params, Binary(Gte, l, r)) == Truth(true) <==> Eval(m, params, Binary(Lt, l, r)) == Truth(false)
    ensures Eval(m, params, Binary(Lte, l, r)) == Truth(true) <==> Eval(m, params, Binary(Gt, l, r)) == Truth(false)
    ensures Eval(m, params, Binary(NotEq, l, r)) == Truth(true) <==> Eval(m, params, Binary(Eq, l, r)) == Truth(false)
  {
    if Eval(m, params, l).Some? && Eval(m, params, r).Some? {
      ComparisonsMean(m, params, l, r);
      ComparisonsMean(m, params, r, l);
      hide Eval;
    } else {
      Undefined(m, params, l, r);
      Undefined(m, params, r, l);
      hide Eval;
    }
  }

  /** An operator of an undefined operand is undefined. */
  lemma Undefined(m: Tick, params: int -> real, l: Expr, r: Expr)
    requires Stateless(l) && Stateless(r) && (Eval(m, params, l).None? || Eval(m, params, r).None?)
    ensures forall op :: Eval(m, params, Binary(op, l, r)) == None
  {
    hide Eval, Holds;
    forall op ensures Eval(m, params, Binary(op, l, r)) == None {
      EvalBinary(m, params, op, l, r);
    }
  }

  /** On defined operands the connectives are conditionals; any number but 0 is true. */
  lemma ConnectivesAreConditionals(m: Tick, params: int -> real, l: Expr, r: Expr)
    requires ReadsLiterals(m) && Stateless(l) && Stateless(r)
    requires Eval(m, params, l).Some? && Eval(m, params, r).Some?
    ensures var zero, one := Num(ZERO), Num(ONE);
      && Stateless(zero) && Stateless(one) && Stateless(Cond(r, one, zero))
      && Stateless(Cond(l, Cond(r, one, zero), zero)) && Stateless(Cond(l, one, Cond(r, one, zero)))
      && Eval(m, params, Binary(And, l, r)) == Eval(m, params, Cond(l, Cond(r, one, zero), zero))
      && Eval(m, params, Binary(Or, l, r)) == Eval(m, params, Cond(l, one, Cond(r, one, zero)))
  {
    var zero, one := Num(ZERO), Num(ONE);
    EvalLiteral(m, params, ZERO);
    EvalLiteral(m, params, ONE);
    EvalBinary(m, params, And, l, r);
    EvalBinary(m, params, Or, l, r);
    EvalCond(m, params, r, one, zero);
    EvalCond(m, params, l, Cond(r, one, zero), zero);
    EvalCond(m, params, l, one, Cond(r, one, zero));
    hide Eval;
  }

  /** Arithmetic on defined operands; a quotient is undefined at a zero divisor only. */
  lemma ArithmeticMeans(m: Tick, params: int -> real, l: Expr, r: Expr)
    requires Stateless(l) && Stateless(r) && Eval(m, params, l).Some? && Eval(m, params, r).Some?
    ensures var a, b := Eval(m, params, l).value, Eval(m, params, r).value;
      && Eval(m, params, Binary(Add, l, r)) == Some(a + b) && Eval(m, params, Binary(Sub, l, r)) == Some(a - b)
      && Eval(m, params, Binary(Mul, l, r)) == Some(Times(a, b))
      && Eval(m, params, Binary(Div, l, r)) == (if b == 0.0 then None else Some(a / b))
      && Eval(m, params, Unary(Minus, l)) == Some(0.0 - a) && Eval(m, params, Unary(Plus, l)) == Some(a)
  {
    hide Eval, Combined, Times;
    EvalBinary(m, params, Add, l, r);
    EvalBinary(m, params, Sub, l, r);
    EvalBinary(m, params, Mul, l, r);
    EvalBinary(m, params, Div, l, r);
    EvalSigns(m, params, l);
    CombinedMeans(Eval(m, params, l).value, Eval(m, params, r).value);
  }

  lemma CombinedMeans(a: real, b: real)
    ensures Combined(Add, Some(a), Some(b)) == Some(a + b) && Combined(Sub, Some(a), Some(b)) == Some(a - b)
    ensures Combined(Mul, Some(a), Some(b)) == Some(Times(a, b))
    ensures Combined(Div, Some(a), Some(b)) == if b == 0.0 then None else Some(a / b)
  {
  }

  lemma EvalSigns(m: Tick, params: int -> real, x: Expr)
    requires Stateless(x) && Eval(m, params, x).Some?
    ensures Eval(m, params, Unary(Minus, x)) == Some(0.0 - Eval(m, params, x).value)
    ensures Eval(m, params, Unary(Plus, x)) == Eval(m, params, x)
  {
  }

  function Quote(fn: string, ticker: string): Expr {
    Call(fn, [Ident(ticker)], NO_NODE)
  }

  /** The quotes: bid and ask are read, mid lies halfway between them, spread is their distance. */
  lemma QuotesMean(m: Tick, params: int -> real, ticker: string)
    ensures forall fn | fn in {"mid", "bid", "ask", "spread"} :: Stateless(Quote(fn, ticker))
    ensures Eval(m, params, Quote("bid", ticker)) == Some(m.bid(ticker))
    ensures Eval(m, params, Quote("ask", ticker)) == Some(m.ask(ticker))
    ensures Eval(m, params, Quote("mid", ticker)) == Some((m.bid(ticker) + m.ask(ticker)) / 2.0)
    ensures Eval(m, params, Quote("spread", ticker)) == Some(m.ask(ticker) - m.bid(ticker))
  {
    assert KindOf("mid").Mid? && KindOf("bid").Bid? && KindOf("ask").Ask? && KindOf("spread").Spread?;
    hide KindOf;
  }

  lemma EvalCall(m: Tick, params: int -> real, fn: string, x: Expr)
    requires Stateless(x) && IsMathFn(fn)
    ensures Stateless(Call(fn, [x], NO_NODE)) &&
            Eval(m, params, Call(fn, [x], NO_NODE)) == MathFn(m, fn, Eval(m, params, x))
  {
    hide KindOf, MathFn;
  }

  /** abs is the distance from 0. */
  lemma AbsMeans(m: Tick, params: int -> real, x: Expr)
    requires Stateless(x) && Eval(m, params, x).Some?
    ensures Stateless(Call("abs", [x], NO_NODE))
    ensures var v := Eval(m, params, x).value;
      Eval(m, params, Call("abs", [x], NO_NODE)) == Some(if v < 0.0 then 0.0 - v else v)
  {
    assert KindOf("abs").Abs?;
    hide KindOf;
    EvalCall(m, params, "abs", x);
  }

  /** log is undefined exactly at 0 and below it. */
  lemma LogMeans(m: Tick, params: int -> real, x: Expr)
    requires Stateless(x) && Eval(m, params, x).Some?
    ensures Stateless(Call("log", [x], NO_NODE))
    ensures var v, r := Eval(m, params, x).value, Eval(m, params, Call("log", [x], NO_NODE));
      (r.None? <==> v <= 0.0) && (v > 0.0 ==> r == Some(m.log(v)))
  {
    assert KindOf("log").Log?;
    hide KindOf;
    EvalCall(m, params, "log", x);
  }

  /** sqrt is undefined exactly below 0. */
  lemma SqrtMeans(m: Tick, params: int -> real, x: Expr)
    requires Stateless(x) && Eval(m, params, x).Some?
    ensures Stateless(Call("sqrt", [x], NO_NODE))
    ensures var v, r := Eval(m, params, x).value, Eval(m, params, Call("sqrt", [x], NO_NODE));
      (r.None? <==> v < 0.0) && (v >= 0.0 ==> r == Some(m.sqrt(v)))
  {
    assert KindOf("sqrt").Sqrt?;
    hide KindOf;
    EvalCall(m, params, "sqrt", x);
  }

  /** No function has a value where its argument has none. */
  lemma UndefinedArgument(m: Tick, params: int -> real, fn: string, x: Expr)
    requires Stateless(x) && IsMathFn(fn) && Eval(m, params, x).None?
    ensures Stateless(Call(fn, [x], NO_NODE)) && Eval(m, params, Call(fn, [x], NO_NODE)).None?
  {
    hide KindOf;
    EvalCall(m, params, fn, x);
  }
}

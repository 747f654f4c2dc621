/** The interpreter takes kalman1d's noise before its sample, compiled code goes from left to right. */
module NoiseOrder {
  import opened Ast
  import opened Evaluation
  import opened CodegenCorrect
  import opened Program
  import opened NoiseExchange

  /** Where the noise shares nothing but whole trees with the sample, the interpreter's order gives what
      left-to-right order gives: the same value, state and steps. */
  lemma {:induction false} OrdersAgree<M, V, S>(env: Env<M, V, S>, e: Expr, st: EvalState<V, S>)
    requires Runnable(e) && LeftToRight(env) && NoiseShared(e)
    ensures Eval(NoiseFirst(env), e, st) == Eval(env, e, st)
    decreases Size(e), 2
  {
    hide KindOf, NoiseShared, StepAt;
    match e
    case Num(_) => {}
    case Param(_, _) => {}
    case Unary(_, x) => SharedParts(e); OrdersAgree(env, x, st);
    case Binary(_, l, r) => SharedParts(e); OrdersAgree(env, l, st); OrdersAgree(env, r, Eval(env, l, st).1);
    case Cond(c, t, f) =>
      SharedParts(e);
      OrdersAgree(env, c, st);
      var (v, st1) := Eval(env, c, st);
      if env.ops.isTrue(v) { OrdersAgree(env, t, st1); } else { OrdersAgree(env, f, st1); }
    case Call(n, args, _) =>
      if IsStatefulOp(n) {
        OrdersAgreeStateful(env, e, st);
      } else if IsMathFn(n) {
        SharedCall(e);
        SingleArg(args);
        OrdersAgree(env, args[0], st);
      }
  }

  lemma SharedParts(e: Expr)
    requires NoiseShared(e)
    ensures e.Unary? ==> NoiseShared(e.operand)
    ensures e.Binary? ==> NoiseShared(e.left) && NoiseShared(e.right)
    ensures e.Cond? ==> NoiseShared(e.cond) && NoiseShared(e.thn) && NoiseShared(e.els)
  {
  }

  lemma SharedCall(e: Expr)
    requires NoiseShared(e) && e.Call? && |e.args| > 0
    ensures NoiseShared(e.args[0]) && NoiseSharedArgs(e.args[1..]) && NoiseSharedArgs(SourceArgs(e.name, e.args))
  {
    hide KindOf;
  }

  lemma SharedKalman(e: Expr)
    requires NoiseShared(e) && e.Call? && KindOf(e.name).Kalman1d? && |e.args| == 3
    ensures NoiseShared(e.args[0]) && NoiseShared(e.args[1]) && NoiseShared(e.args[2])
    ensures StatefulInArgs(e.args[1..]) == StatefulIn(e.args[1]) + StatefulIn(e.args[2])
    ensures OneTree(StatefulIn(e.args[0]) + StatefulInArgs(e.args[1..]), StatefulInArgs(e.args[1..]))
  {
    hide KindOf, StatefulIn;
    var rest := e.args[1..];
    assert rest[0] == e.args[1] && rest[1..][0] == e.args[2] && rest[1..][1..] == [];
    assert NoiseSharedArgs(rest) && NoiseSharedArgs(rest[1..]);
    assert StatefulInArgs(rest[1..]) == StatefulIn(e.args[2]);
  }

  lemma {:induction false} OrdersAgreeStateful<M, V, S>(env: Env<M, V, S>, e: Expr, st: EvalState<V, S>)
    requires e.Call? && IsStatefulOp(e.name) && Runnable(e) && LeftToRight(env) && NoiseShared(e)
    ensures Eval(NoiseFirst(env), e, st) == Eval(env, e, st)
    decreases Size(e), 1
  {
    assert !IsMarketFn(e.name) && !IsMathFn(e.name) && |e.args| > 0;
    hide NoiseShared, StepAt, KindOf;
    if e.nodeId !in st.cache {
      OrderRunnable(false, e);
      OrderRunnable(true, e);
      InputsInOrder(env, e);
      if KindOf(e.name).Kalman1d? {
        assert forall i | 0 <= i < 3 :: Size(e.args[i]) < Size(e) by { KalmanSizes(e); }
        KalmanAgrees(env, e, st);
      } else {
        SharedCall(e);
        OrdersAgreeArgs(env, SourceArgs(e.name, e.args), st);
      }
    }
  }

  lemma KalmanSizes(e: Expr)
    requires e.Call? && |e.args| == 3
    ensures forall i | 0 <= i < 3 :: Size(e.args[i]) < Size(e)
  {
    assert e.args == [e.args[0], e.args[1], e.args[2]];
    ThreeArgs(e.args[0], e.args[1], e.args[2]);
  }

  lemma {:induction false} OrdersAgreeArgs<M, V, S>(env: Env<M, V, S>, args: seq<Expr>, st: EvalState<V, S>)
    requires RunnableArgs(args) && LeftToRight(env) && NoiseSharedArgs(args)
    ensures EvalArgs(NoiseFirst(env), args, st) == EvalArgs(env, args, st)
    decreases SizeArgs(args), 3, |args|
  {
    if args != [] {
      OrdersAgree(env, args[0], st);
      OrdersAgreeArgs(env, args[1..], Eval(env, args[0], st).1);
    }
  }

  lemma {:induction false} KalmanAgrees<M, V, S>(env: Env<M, V, S>, e: Expr, st: EvalState<V, S>)
    requires e.Call? && IsStatefulOp(e.name) && Runnable(e) && LeftToRight(env) && NoiseShared(e)
    requires KindOf(e.name).Kalman1d?
    requires forall i | 0 <= i < 3 :: Size(e.args[i]) < Size(e)
    ensures var order, args := [e.args[1], e.args[2], e.args[0]], e.args;
      && RunnableArgs(order) && RunnableArgs(args)
      && var (ns, st1) := EvalArgs(NoiseFirst(env), order, st);
         EvalArgs(env, args, st) == ([ns[2], ns[0], ns[1]], st1)
    decreases Size(e), 0
  {
    var x, q, r := e.args[0], e.args[1], e.args[2];
    assert e.args == [x, q, r];
    SharedKalman(e);
    ThreeArgs(x, q, r);
    ThreeArgs(q, r, x);
    assert e.args[1..] == [q, r];
    hide NoiseShared, KindOf, StatefulIn, StatefulInArgs, OneTree, Runnable, RunnableArgs, Eval, EvalArgs;
    OrdersAgree(env, q, st);
    var st1 := Eval(env, q, st).1;
    OrdersAgree(env, r, st1);
    var st2 := Eval(env, r, st1).1;
    OrdersAgree(env, x, st2);
    EvalThree(NoiseFirst(env), q, r, x, st);
    EvalThree(env, x, q, r, st);
    EvalTwo(env, q, r, st);
    EvalTwo(env, q, r, Eval(env, x, st).1);
    NoiseEitherWay(env, x, [q, r], st);
  }

  lemma EvalTwo<M, V, S>(env: Env<M, V, S>, a: Expr, b: Expr, st: EvalState<V, S>)
    requires Runnable(a) && Runnable(b)
    ensures RunnableArgs([a, b])
    ensures var (av, st1) := Eval(env, a, st);
      var (bv, st2) := Eval(env, b, st1);
      EvalArgs(env, [a, b], st) == ([av, bv], st2)
  {
    hide Eval, Runnable, EvalArgs;
    var (av, st1) := Eval(env, a, st);
    var (bv, st2) := Eval(env, b, st1);
    EvalNone(env, st2);
    EvalCons(env, b, [], st1);
    EvalCons(env, a, [b], st);
    assert [b] + [] == [b] && [a] + [b] == [a, b] && [bv] + [] == [bv] && [av] + [bv] == [av, bv];
  }
}

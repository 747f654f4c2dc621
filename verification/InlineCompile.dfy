/** From named signals to running code: which programs inlining makes ready to compile, and that they run. */
module InlineCompile {
  import opened Ast
  import opened Evaluation
  import opened Ir
  import opened Codegen
  import opened NodeIds
  import opened Program
  import opened Inline
  import opened InlineProgram
  import opened NoiseOrder
  import opened Symbolic
  import opened InterpreterOrder

  /** A period that is a literal, or a reference to a signal that is one. */
  predicate LiteralIn(e: Expr, defs: Bodies) {
    e.Num? || (e.Ident? && e.name in defs && defs[e.name].Num?)
  }

  /** What a body has to be for its inlined form to compile: every reference defined, no ticker defined, known
      functions with the right arguments, literal periods. */
  predicate Inlinable(e: Expr, defs: Bodies)
    decreases e, 1
  {
    match e
    case Num(_) => true
    case Ident(n) => n in defs
    case Param(_, _) => true
    case Unary(_, x) => Inlinable(x, defs)
    case Binary(_, l, r) => Inlinable(l, defs) && Inlinable(r, defs)
    case Cond(c, t, f) => Inlinable(c, defs) && Inlinable(t, defs) && Inlinable(f, defs)
    case Call(n, args, _) =>
      && !KindOf(n).Unknown?
      && |args| == Arity(n)
      && (IsTickerFn(n) ==> args[0].Ident? && args[0].name !in defs)
      && (HasPeriod(n) ==> LiteralIn(args[PeriodIndex(n)], defs))
      && InlinableArgs(SourceArgs(n, args), defs)
  }

  predicate InlinableArgs(args: seq<Expr>, defs: Bodies)
    decreases args, 0
  {
    args == [] || (Inlinable(args[0], defs) && InlinableArgs(args[1..], defs))
  }

  ghost predicate AllWellFormed(defs: Bodies) {
    forall n <- defs :: WellFormed(defs[n])
  }

  lemma {:induction false} CloneKeepsForm(e: Expr)
    ensures WellFormed(e) ==> CloneExpr(e) == e
    decreases e, 1
  {
    hide KindOf;
    match e
    case Unary(_, x) => CloneKeepsForm(x);
    case Binary(_, l, r) => CloneKeepsForm(l); CloneKeepsForm(r);
    case Cond(c, t, f) => CloneKeepsForm(c); CloneKeepsForm(t); CloneKeepsForm(f);
    case Call(n, args, _) =>
      var rest := SourceArgs(n, args);
      ClonesKeepForm(rest);
      if WellFormed(e) {
        forall i | 0 <= i < |args| ensures CloneArgs(args)[i] == args[i] {
          if IsTickerFn(n) && i > 0 { assert rest[i - 1] == args[i] && CloneArgs(rest)[i - 1] == CloneExpr(args[i]); }
        }
        assert CloneArgs(args) == args;
      }
    case _ => {}
  }

  lemma {:induction false} ClonesKeepForm(args: seq<Expr>)
    ensures WellFormedArgs(args) ==> CloneArgs(args) == args
    decreases args, 0
  {
    if args != [] {
      CloneKeepsForm(args[0]);
      ClonesKeepForm(args[1..]);
    }
  }

  lemma InlinedAt(args: seq<Expr>, defs: Bodies, i: nat)
    requires i < |args|
    ensures InlineArgs(args, defs)[i] == InlineExpr(args[i], defs)
    decreases args
  {
    if i > 0 { InlinedAt(args[1..], defs, i - 1); }
  }

  /** One argument, inlined: a ticker stays one only if it is not defined, a period becomes a literal or not. */
  lemma InlinedForm(e: Expr, defs: Bodies)
    requires AllWellFormed(defs)
    ensures InlineExpr(e, defs).Ident? <==> e.Ident? && e.name !in defs
    ensures InlineExpr(e, defs).Num? <==> LiteralIn(e, defs)
  {
    if e.Ident? && e.name in defs { CloneKeepsForm(defs[e.name]); }
  }

  lemma {:induction false} InlinesWellFormed(e: Expr, defs: Bodies)
    requires AllWellFormed(defs)
    ensures WellFormed(InlineExpr(e, defs)) <==> Inlinable(e, defs)
    decreases e, 1
  {
    hide KindOf, AllWellFormed;
    match e
    case Ident(n) => if n in defs { DefinedForm(defs, n); }
    case Unary(_, x) => InlinesWellFormed(x, defs);
    case Binary(_, l, r) => InlinesWellFormed(l, defs); InlinesWellFormed(r, defs);
    case Cond(c, t, f) => InlinesWellFormed(c, defs); InlinesWellFormed(t, defs); InlinesWellFormed(f, defs);
    case Call(n, args, _) =>
      InlinedSources(n, args, defs);
      InlineArgsWellFormed(SourceArgs(n, args), defs);
      if |args| == Arity(n) {
        InlinedAt(args, defs, 0);
        InlinedForm(args[0], defs);
        if HasPeriod(n) {
          InlinedAt(args, defs, PeriodIndex(n));
          InlinedForm(args[PeriodIndex(n)], defs);
        }
      }
    case _ => {}
  }

  lemma DefinedForm(defs: Bodies, n: string)
    requires AllWellFormed(defs) && n in defs
    ensures WellFormed(CloneExpr(defs[n]))
  {
    CloneKeepsForm(defs[n]);
  }

  lemma InlinedSources(n: string, args: seq<Expr>, defs: Bodies)
    ensures SourceArgs(n, InlineArgs(args, defs)) == InlineArgs(SourceArgs(n, args), defs)
  {
    hide KindOf;
  }

  lemma {:induction false} InlineArgsWellFormed(args: seq<Expr>, defs: Bodies)
    requires AllWellFormed(defs)
    ensures WellFormedArgs(InlineArgs(args, defs)) <==> InlinableArgs(args, defs)
    decreases args, 0
  {
    if args != [] {
      InlinesWellFormed(args[0], defs);
      InlineArgsWellFormed(args[1..], defs);
      assert InlineArgs(args, defs)[1..] == InlineArgs(args[1..], defs);
    }
  }

  // ---- Whole programs ----

  ghost predicate InlinableAt(signals: seq<Signal>, resolved: seq<Expr>, i: nat)
    requires UniqueNames(signals) && i < |signals| == |resolved|
  {
    Inlinable(signals[i].body, DefsOf(signals, resolved, i))
  }

  lemma {:induction false} ResolvedWellFormed(signals: seq<Signal>, order: seq<nat>, resolved: seq<Expr>, k: nat)
    requires UniqueNames(signals) && Sorted(signals, order) && Resolves(signals, resolved) && k < |order|
    requires forall i: nat | i < |signals| :: InlinableAt(signals, resolved, i)
    ensures WellFormed(resolved[order[k]])
    decreases k
  {
    var i := order[k];
    var defs := DefsOf(signals, resolved, i);
    forall n | n in defs ensures WellFormed(defs[n]) {
      var j := Index(signals)[n];
      assert DependsOn(signals, i, j);
      var f := InOrder(order, k, j);
      ResolvedWellFormed(signals, order, resolved, f);
    }
    assert ResolvedAt(signals, resolved, i) && InlinableAt(signals, resolved, i);
    InlinesWellFormed(signals[i].body, defs);
  }

  lemma {:induction false} WellFormedEach(bodies: seq<Expr>)
    ensures WellFormedArgs(bodies) <==> forall b <- bodies :: WellFormed(b)
  {
    hide WellFormed;
    if bodies != [] {
      WellFormedEach(bodies[1..]);
      if WellFormedArgs(bodies) {
        forall b | b in bodies ensures WellFormed(b) {
          assert b == bodies[0] || b in bodies[1..];
        }
      }
      if forall b <- bodies :: WellFormed(b) {
        assert bodies[0] in bodies && forall b <- bodies[1..] :: b in bodies;
      }
    }
  }

  /** The resolution of an acyclic program compiles exactly when every body of its source can be inlined. */
  lemma ReadyIffInlinable(signals: seq<Signal>, order: seq<nat>, resolved: seq<Expr>)
    requires UniqueNames(signals) && Sorted(signals, order) && Complete(signals, order) && Resolves(signals, resolved)
    ensures WellFormedArgs(resolved) <==> forall i: nat | i < |signals| :: InlinableAt(signals, resolved, i)
  {
    hide Chain, Sorted;
    WellFormedEach(resolved);
    if WellFormedArgs(resolved) {
      forall i: nat | i < |signals| ensures InlinableAt(signals, resolved, i) {
        var defs := DefsOf(signals, resolved, i);
        forall n | n in defs ensures WellFormed(defs[n]) {
          assert resolved[Index(signals)[n]] in resolved;
        }
        assert ResolvedAt(signals, resolved, i) && WellFormed(resolved[i]);
        InlinesWellFormed(signals[i].body, defs);
      }
    }
    if forall i: nat | i < |signals| :: InlinableAt(signals, resolved, i) {
      forall b | b in resolved ensures WellFormed(b) {
        var i: nat :| i < |resolved| && resolved[i] == b;
        var k := First(order, i);
        ResolvedWellFormed(signals, order, resolved, k);
      }
    }
  }

  /** From the source to running code: a program whose bodies can be inlined compiles to code that runs to the
      end, and leaves the outputs and the context of evaluating the resolved signals from left to right; those of
      the interpreter too, unless the order of kalman1d's arguments matters. */
  lemma SourceRuns<M, V(!new), S>(env: Env<M, V, S>, signals: seq<Signal>, order: seq<nat>, resolved: seq<Expr>,
                                  slots: map<int, S>)
      returns (n: nat)
    requires UniqueNames(signals) && Sorted(signals, order) && Complete(signals, order) && Resolves(signals, resolved)
    requires LeftToRight(env) && forall i: nat | i < |signals| :: InlinableAt(signals, resolved, i)
    ensures var withIds := AllocateProgram(resolved, 1).0;
      && RunnableArgs(withIds) && CloneArgs(withIds) == resolved
      && var (vs, slots', _) := EvalProgram(env, withIds, slots, multiset{});
      && Finishes(Run(env, CompileProgram(withIds), n, Entry(slots)), vs, slots')
      && (OrderIrrelevant(withIds) ==> CompiledIsInterpreted(env, withIds, slots))
  {
    hide Run, AllocateProgram, EvalProgram, CompileProgram, LeavesBehind, CompiledIsInterpreted, AlikeFrom, Sorted,
         Index, Resolves;
    ReadyIffInlinable(signals, order, resolved);
    var c;
    n, c := CompiledRuns(env, resolved, slots);
    InterpreterAgrees(env, resolved, slots);
    AllocateProgramSound(resolved, 1, {});
    ClonesKeepForm(resolved);
  }
}

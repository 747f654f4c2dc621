/** Folding constants keeps what a program means on every run, under any operators that agree with the table on
    literals. */
module FoldMeaning {
  import opened Ast
  import opened Tokens
  import opened Evaluation
  import opened Program
  import opened Streams
  import opened InlineCompile
  import opened ProgramText
  import Autodiff
  import EvalLaws

  /** On literals the operators do what the table says; a literal is true unless it is a zero. */
  ghost predicate FollowTable<M, V, S(!new)>(ops: Ops<M, V, S>, fold: Table) {
    && (forall op, a, b :: ops.bin(op, ops.num(a), ops.num(b)) == ops.num(fold(op, a, b)))
    && (forall a :: ops.neg(ops.num(a)) == ops.num(Flipped(a)))
    && (forall a :: ops.isTrue(ops.num(a)) <==> a != 0 && a != SIGN_BIT)
  }

  /** A stateful operator is chosen by name, period and ticker, so the same for a folded call. */
  ghost predicate FoldingIsUnseen<M, V(!new), S(!new)>(ops: Ops<M, V, S>, fold: Table) {
    forall k: Expr :: FoldingUnseenAt(ops, fold, k)
  }

  ghost predicate FoldingUnseenAt<M, V(!new), S(!new)>(ops: Ops<M, V, S>, fold: Table, k: Expr) {
    && ops.init(FoldConstants(fold, k)) == ops.init(k)
    && forall vs: seq<V>, s: S :: ops.step(FoldConstants(fold, k), vs, s) == ops.step(k, vs, s)
  }

  lemma {:induction false} FoldWellFormed(fold: Table, e: Expr)
    requires WellFormed(e)
    ensures WellFormed(FoldConstants(fold, e))
    decreases e, 1
  {
    hide KindOf;
    match e
    case Unary(_, x) => FoldWellFormed(fold, x);
    case Binary(_, l, r) => FoldWellFormed(fold, l); FoldWellFormed(fold, r);
    case Cond(c, t, f) => FoldWellFormed(fold, c); FoldWellFormed(fold, t); FoldWellFormed(fold, f);
    case Call(n, args, _) =>
      FoldArgsWellFormed(fold, SourceArgs(n, args));
      FoldSources(fold, n, args);
      FoldArgsAt(fold, args);
    case _ => {}
  }

  lemma {:induction false} FoldArgsWellFormed(fold: Table, args: seq<Expr>)
    requires WellFormedArgs(args)
    ensures WellFormedArgs(FoldArgs(fold, args))
    decreases args, 0
  {
    if args != [] {
      FoldWellFormed(fold, args[0]);
      FoldArgsWellFormed(fold, args[1..]);
      assert FoldArgs(fold, args)[1..] == FoldArgs(fold, args[1..]);
    }
  }

  lemma FoldArgsAt(fold: Table, args: seq<Expr>)
    ensures forall i :: 0 <= i < |args| ==> FoldArgs(fold, args)[i] == FoldConstants(fold, args[i])
  {
    if args != [] { FoldArgsAt(fold, args[1..]); }
  }

  lemma FoldSources(fold: Table, n: string, args: seq<Expr>)
    ensures SourceArgs(n, FoldArgs(fold, args)) == FoldArgs(fold, SourceArgs(n, args))
  {
    hide KindOf;
  }

  lemma ZeroOrNot(b: Bits64)
    ensures Magnitude(b) != 0 <==> b != 0 && b != SIGN_BIT
  {
  }

  /** The value at the last of the ticks `ms` is that of the folded tree. */
  lemma {:induction false} FoldKeepsMeaning<M, V(!new), S(!new)>(ops: Ops<M, V, S>, fold: Table, params: int -> V,
                                                                 e: Expr, ms: seq<M>)
    requires WellFormed(e) && FollowTable(ops, fold) && FoldingIsUnseen(ops, fold) && ms != []
    ensures WellFormed(FoldConstants(fold, e))
    ensures Val(ops, params, FoldConstants(fold, e), ms) == Val(ops, params, e, ms)
    decreases |ms|, Size(e), 4
  {
    FoldWellFormed(fold, e);
    hide KindOf, FollowTable, FoldingIsUnseen, WellFormed, StateOf, Inputs;
    match e
    case Num(_) => {}
    case Param(_, _) => {}
    case Unary(op, x) =>
      UnaryParts(e);
      FoldKeepsMeaning(ops, fold, params, x, ms);
      FoldedUnary(ops, fold, params, op, FoldConstants(fold, x), ms);
    case Binary(op, l, r) =>
      UnaryParts(e);
      FoldKeepsMeaning(ops, fold, params, l, ms);
      FoldKeepsMeaning(ops, fold, params, r, ms);
      FoldedBinary(ops, fold, params, op, FoldConstants(fold, l), FoldConstants(fold, r), ms);
    case Cond(c, t, f) =>
      UnaryParts(e);
      FoldKeepsMeaning(ops, fold, params, c, ms);
      FoldKeepsMeaning(ops, fold, params, t, ms);
      FoldKeepsMeaning(ops, fold, params, f, ms);
      FoldedCond(ops, fold, params, FoldConstants(fold, c), FoldConstants(fold, t), FoldConstants(fold, f), ms);
    case Call(_, _, _) => FoldKeepsCall(ops, fold, params, e, ms);
    case Ident(_) => {}
  }

  lemma UnaryParts(e: Expr)
    requires WellFormed(e)
    ensures e.Unary? ==> WellFormed(e.operand)
    ensures e.Binary? ==> WellFormed(e.left) && WellFormed(e.right)
    ensures e.Cond? ==> WellFormed(e.cond) && WellFormed(e.thn) && WellFormed(e.els)
  {
  }

  lemma FoldedUnary<M, V, S(!new)>(ops: Ops<M, V, S>, fold: Table, params: int -> V, op: UnaryOpKind, x: Expr,
                                   ms: seq<M>)
    requires WellFormed(x) && FollowTable(ops, fold) && ms != []
    ensures WellFormed(FoldUnary(op, x)) && WellFormed(Unary(op, x))
    ensures Val(ops, params, FoldUnary(op, x), ms) == Val(ops, params, Unary(op, x), ms)
  {
    if x.Num? { assert Val(ops, params, x, ms) == ops.num(x.bits); }
  }

  lemma FoldedBinary<M, V, S(!new)>(ops: Ops<M, V, S>, fold: Table, params: int -> V, op: BinaryOpKind, l: Expr,
                                    r: Expr, ms: seq<M>)
    requires WellFormed(l) && WellFormed(r) && FollowTable(ops, fold) && ms != []
    ensures WellFormed(FoldBinary(fold, op, l, r)) && WellFormed(Binary(op, l, r))
    ensures Val(ops, params, FoldBinary(fold, op, l, r), ms) == Val(ops, params, Binary(op, l, r), ms)
  {
    if l.Num? && r.Num? {
      assert Val(ops, params, l, ms) == ops.num(l.bits) && Val(ops, params, r, ms) == ops.num(r.bits);
    }
  }

  lemma FoldedCond<M, V, S(!new)>(ops: Ops<M, V, S>, fold: Table, params: int -> V, c: Expr, t: Expr, f: Expr,
                                  ms: seq<M>)
    requires WellFormed(c) && WellFormed(t) && WellFormed(f) && FollowTable(ops, fold) && ms != []
    ensures WellFormed(FoldCond(c, t, f)) && WellFormed(Cond(c, t, f))
    ensures Val(ops, params, FoldCond(c, t, f), ms) == Val(ops, params, Cond(c, t, f), ms)
  {
    if c.Num? {
      ZeroOrNot(c.bits);
      assert Val(ops, params, c, ms) == ops.num(c.bits);
    }
  }

  lemma {:induction false} FoldKeepsCall<M, V(!new), S(!new)>(ops: Ops<M, V, S>, fold: Table, params: int -> V, e: Expr,
                                                              ms: seq<M>)
    requires e.Call? && WellFormed(e) && FollowTable(ops, fold) && FoldingIsUnseen(ops, fold) && ms != []
    ensures WellFormed(FoldConstants(fold, e))
    ensures Val(ops, params, FoldConstants(fold, e), ms) == Val(ops, params, e, ms)
    decreases |ms|, Size(e), 3
  {
    FoldWellFormed(fold, e);
    FoldArgsAt(fold, e.args);
    var n, args := e.name, e.args;
    hide KindOf, FollowTable, FoldingIsUnseen, StateOf, Inputs, FoldArgs;
    if IsMarketFn(n) {
    } else if IsMathFn(n) {
      SingleArgWellFormed(args);
      SingleArgWellFormed(FoldArgs(fold, args));
      FoldKeepsMeaning(ops, fold, params, args[0], ms);
    } else {
      FoldKeepsInputs(ops, fold, params, e, ms);
      FoldKeepsState(ops, fold, params, e, ms[..|ms| - 1]);
      UnseenClone(ops, fold, e);
    }
  }

  /** The machine of a folded call. */
  lemma UnseenClone<M, V(!new), S(!new)>(ops: Ops<M, V, S>, fold: Table, e: Expr)
    requires WellFormed(e) && FoldingIsUnseen(ops, fold)
    ensures ops.init(CloneExpr(FoldConstants(fold, e))) == ops.init(CloneExpr(e))
    ensures forall vs: seq<V>, s: S ::
      ops.step(CloneExpr(FoldConstants(fold, e)), vs, s) == ops.step(CloneExpr(e), vs, s)
  {
    FoldWellFormed(fold, e);
    CloneKeepsForm(e);
    CloneKeepsForm(FoldConstants(fold, e));
    assert FoldingUnseenAt(ops, fold, e);
  }

  lemma {:induction false} FoldKeepsState<M, V(!new), S(!new)>(
        ops: Ops<M, V, S>, fold: Table, params: int -> V, e: Expr, ms: seq<M>)
    requires e.Call? && IsStatefulOp(e.name) && WellFormed(e) && FollowTable(ops, fold) && FoldingIsUnseen(ops, fold)
    ensures WellFormed(FoldConstants(fold, e))
    ensures StateOf(ops, params, FoldConstants(fold, e), ms) == StateOf(ops, params, e, ms)
    decreases |ms|, Size(e), 2
  {
    FoldWellFormed(fold, e);
    UnseenClone(ops, fold, e);
    hide KindOf, FollowTable, FoldingIsUnseen, Inputs, IsStatefulOp, CloneExpr, WellFormed;
    if ms != [] {
      FoldKeepsState(ops, fold, params, e, ms[..|ms| - 1]);
      FoldKeepsInputs(ops, fold, params, e, ms);
    }
  }

  lemma {:induction false} FoldKeepsInputs<M, V(!new), S(!new)>(
        ops: Ops<M, V, S>, fold: Table, params: int -> V, e: Expr, ms: seq<M>)
    requires e.Call? && IsStatefulOp(e.name) && WellFormed(e) && FollowTable(ops, fold) && FoldingIsUnseen(ops, fold)
    requires ms != []
    ensures WellFormed(FoldConstants(fold, e))
    ensures Inputs(ops, params, FoldConstants(fold, e), ms) == Inputs(ops, params, e, ms)
    decreases |ms|, Size(e), 1
  {
    FoldWellFormed(fold, e);
    FoldSources(fold, e.name, e.args);
    FoldArgsAt(fold, e.args);
    SourceArgsSmaller(e);
    hide KindOf, FollowTable, FoldingIsUnseen, IsStatefulOp;
    FoldKeepsValues(ops, fold, params, SourceArgs(e.name, e.args), ms);
  }

  lemma {:induction false} FoldKeepsValues<M, V(!new), S(!new)>(ops: Ops<M, V, S>, fold: Table, params: int -> V,
                                                                args: seq<Expr>, ms: seq<M>)
    requires WellFormedArgs(args) && FollowTable(ops, fold) && FoldingIsUnseen(ops, fold) && ms != []
    ensures WellFormedArgs(FoldArgs(fold, args))
    ensures ValArgs(ops, params, FoldArgs(fold, args), ms) == ValArgs(ops, params, args, ms)
    decreases |ms|, SizeArgs(args), 5, |args|
  {
    hide KindOf, FollowTable, FoldingIsUnseen, Val;
    FoldArgsWellFormed(fold, args);
    if args != [] {
      FoldKeepsMeaning(ops, fold, params, args[0], ms);
      FoldKeepsValues(ops, fold, params, args[1..], ms);
      assert FoldArgs(fold, args)[1..] == FoldArgs(fold, args[1..]);
    }
  }

  /** Nothing is left that could be folded: no operator stands on literals only, no condition is one. */
  predicate NothingToFold(e: Expr)
    decreases e, 1
  {
    match e
    case Unary(_, x) => !x.Num? && NothingToFold(x)
    case Binary(_, l, r) => !(l.Num? && r.Num?) && NothingToFold(l) && NothingToFold(r)
    case Cond(c, t, f) => !c.Num? && NothingToFold(c) && NothingToFold(t) && NothingToFold(f)
    case Call(_, args, _) => NothingToFoldIn(args)
    case _ => true
  }

  predicate NothingToFoldIn(args: seq<Expr>)
    decreases args, 0
  {
    args == [] || (NothingToFold(args[0]) && NothingToFoldIn(args[1..]))
  }

  /** Folding folds everything it can, and a second time changes nothing. */
  lemma {:induction false} FoldsAll(fold: Table, e: Expr)
    ensures NothingToFold(FoldConstants(fold, e))
    ensures NothingToFold(e) ==> FoldConstants(fold, e) == e
    decreases e, 1
  {
    match e
    case Unary(_, x) => FoldsAll(fold, x);
    case Binary(_, l, r) => FoldsAll(fold, l); FoldsAll(fold, r);
    case Cond(c, t, f) => FoldsAll(fold, c); FoldsAll(fold, t); FoldsAll(fold, f);
    case Call(_, args, _) => FoldsAllIn(fold, args);
    case _ => {}
  }

  lemma {:induction false} FoldsAllIn(fold: Table, args: seq<Expr>)
    ensures NothingToFoldIn(FoldArgs(fold, args))
    ensures NothingToFoldIn(args) ==> FoldArgs(fold, args) == args
    decreases args, 0
  {
    if args != [] {
      FoldsAll(fold, args[0]);
      FoldsAllIn(fold, args[1..]);
      assert FoldArgs(fold, args)[1..] == FoldArgs(fold, args[1..]);
    }
  }

  /** Equality does not follow the table: folding compares exactly, evaluation up to 1e-12.  So a folded equality of
      literals keeps its value exactly when the two are the same number or at least that far apart. */
  lemma FoldedEqualityIff(m: Autodiff.Tick, params: int -> real, fold: Table, a: Bits64, b: Bits64)
    requires Autodiff.ReadsLiterals(m) && fold(Eq, a, b) == if m.num(a) == m.num(b) then ONE else 0
    ensures var e := Binary(Eq, Num(a), Num(b));
      && Autodiff.Stateless(e) && Autodiff.Stateless(FoldConstants(fold, e))
      && (Autodiff.Eval(m, params, FoldConstants(fold, e)) == Autodiff.Eval(m, params, e) <==>
            var d := m.num(a) - m.num(b);
            d == 0.0 || d >= 0.000000000001 || d <= -0.000000000001)
  {
    var folded := Num(fold(Eq, a, b));
    assert FoldConstants(fold, Binary(Eq, Num(a), Num(b))) == folded;
    Autodiff.EvalLiteral(m, params, a);
    Autodiff.EvalLiteral(m, params, b);
    Autodiff.EvalLiteral(m, params, fold(Eq, a, b));
    EvalLaws.ComparisonsMean(m, params, Num(a), Num(b));
    hide Autodiff.Eval, FoldConstants;
  }
}

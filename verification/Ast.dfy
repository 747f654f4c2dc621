/** The expression tree of the signal language, and its structural identity.

    A tree is a value here; the only thing the C++ passes write into a tree is `node_id`, so the pass
    that allocates ids returns an annotated tree.  Source locations and symbol ids are not modelled. */
module Ast {

  /** The 64 bits of an IEEE double literal: `AstEquals` compares literals bit by bit. */
  type Bits64 = n: int | 0 <= n < 0x1_0000_0000_0000_0000

  /** The literal 1. */
  const ONE: Bits64 := 0x3FF0_0000_0000_0000

  datatype UnaryOpKind = Plus | Minus

  datatype BinaryOpKind = Add | Sub | Mul | Div | Gt | Lt | Gte | Lte | Eq | NotEq | And | Or

  datatype Expr =
    | Num(bits: Bits64)
    | Ident(name: string)
    | Param(name: string, id: int)
    | Unary(uop: UnaryOpKind, operand: Expr)
    | Binary(bop: BinaryOpKind, left: Expr, right: Expr)
    | Call(name: string, args: seq<Expr>, nodeId: int)
    | Cond(cond: Expr, thn: Expr, els: Expr)

  const NO_NODE := -1

  /** The built-in functions, as the passes tell them apart by name. */
  datatype FnKind =
    | Mid | Bid | Ask | Spread | Abs | Log | Sqrt
    | Ema | EmaAlpha | Sma | RollingStd | Zscore | RollingMin | RollingMax | Vwap | Lag
    | CrossAbove | CrossBelow | RollingCorr | RollingBeta | Kalman1d
    | Unknown

  function KindOf(name: string): FnKind {
    if name == "mid" then Mid else if name == "bid" then Bid else if name == "ask" then Ask
    else if name == "spread" then Spread else if name == "abs" then Abs else if name == "log" then Log
    else if name == "sqrt" then Sqrt else if name == "ema" then Ema else if name == "ema_alpha" then EmaAlpha
    else if name == "sma" then Sma else if name == "rolling_std" then RollingStd else if name == "zscore" then Zscore
    else if name == "rolling_min" then RollingMin else if name == "rolling_max" then RollingMax
    else if name == "vwap" then Vwap else if name == "lag" then Lag
    else if name == "cross_above" then CrossAbove else if name == "cross_below" then CrossBelow
    else if name == "rolling_corr" then RollingCorr else if name == "rolling_beta" then RollingBeta
    else if name == "kalman1d" then Kalman1d else Unknown
  }

  predicate IsMarketFn(name: string) {
    var k := KindOf(name); k.Mid? || k.Bid? || k.Ask? || k.Spread?
  }

  /** Functions whose first argument is a ticker. */
  predicate IsTickerFn(name: string) {
    IsMarketFn(name) || KindOf(name).Vwap?
  }

  predicate IsMathFn(name: string) {
    var k := KindOf(name); k.Abs? || k.Log? || k.Sqrt?
  }

  predicate IsStatefulOp(name: string) {
    !IsMarketFn(name) && !IsMathFn(name) && !KindOf(name).Unknown?
  }

  function Size(e: Expr): (n: nat)
    ensures n >= 1
    decreases e, 1
  {
    match e
    case Unary(_, x) => 1 + Size(x)
    case Binary(_, l, r) => 1 + Size(l) + Size(r)
    case Cond(c, t, f) => 1 + Size(c) + Size(t) + Size(f)
    case Call(_, args, _) => 1 + SizeArgs(args)
    case _ => 1
  }

  function SizeArgs(args: seq<Expr>): nat
    decreases args, 0
  {
    if args == [] then 0 else Size(args[0]) + SizeArgs(args[1..])
  }

  /** A clone has the same shape and carries no node id. */
  function CloneExpr(e: Expr): (r: Expr)
    ensures Size(r) == Size(e)
    decreases e, 1
  {
    match e
    case Num(_) => e
    case Ident(_) => e
    case Param(_, _) => e
    case Unary(op, x) => Unary(op, CloneExpr(x))
    case Binary(op, l, r) => Binary(op, CloneExpr(l), CloneExpr(r))
    case Cond(c, t, f) => Cond(CloneExpr(c), CloneExpr(t), CloneExpr(f))
    case Call(n, args, _) => Call(n, CloneArgs(args), NO_NODE)
  }

  function CloneArgs(args: seq<Expr>): (r: seq<Expr>)
    ensures |r| == |args| && SizeArgs(r) == SizeArgs(args)
    ensures forall i :: 0 <= i < |args| ==> r[i] == CloneExpr(args[i])
    decreases args, 0
  {
    if args == [] then [] else [CloneExpr(args[0])] + CloneArgs(args[1..])
  }

  predicate AstEquals(a: Expr, b: Expr)
    decreases a, 1
  {
    match a
    case Num(v) => b.Num? && v == b.bits
    case Ident(n) => b.Ident? && n == b.name
    case Param(n, i) => b.Param? && n == b.name && i == b.id
    case Unary(op, x) => b.Unary? && op == b.uop && AstEquals(x, b.operand)
    case Binary(op, l, r) => b.Binary? && op == b.bop && AstEquals(l, b.left) && AstEquals(r, b.right)
    case Cond(c, t, f) => b.Cond? && AstEquals(c, b.cond) && AstEquals(t, b.thn) && AstEquals(f, b.els)
    case Call(n, args, _) => b.Call? && n == b.name && |args| == |b.args| && ArgsEqual(args, b.args)
  }

  predicate ArgsEqual(a: seq<Expr>, b: seq<Expr>)
    requires |a| == |b|
    decreases a, 0
  {
    a == [] || (AstEquals(a[0], b[0]) && ArgsEqual(a[1..], b[1..]))
  }

  /** Structural equality is equality of clones: node ids are ignored and nothing else is. */
  lemma {:induction false} AstEqualsIsEqualClones(a: Expr, b: Expr)
    ensures AstEquals(a, b) <==> CloneExpr(a) == CloneExpr(b)
    decreases a, 1
  {
    match a
    case Num(_) => {}
    case Ident(_) => {}
    case Param(_, _) => {}
    case Unary(_, x) =>
      if b.Unary? { AstEqualsIsEqualClones(x, b.operand); }
    case Binary(_, l, r) =>
      if b.Binary? { AstEqualsIsEqualClones(l, b.left); AstEqualsIsEqualClones(r, b.right); }
    case Cond(c, t, f) =>
      if b.Cond? {
        AstEqualsIsEqualClones(c, b.cond);
        AstEqualsIsEqualClones(t, b.thn);
        AstEqualsIsEqualClones(f, b.els);
      }
    case Call(_, args, _) =>
      if b.Call? && |args| == |b.args| { ArgsEqualIsEqualClones(args, b.args); }
  }

  lemma {:induction false} ArgsEqualIsEqualClones(a: seq<Expr>, b: seq<Expr>)
    requires |a| == |b|
    ensures ArgsEqual(a, b) <==> CloneArgs(a) == CloneArgs(b)
    decreases a, 0
  {
    if a != [] {
      AstEqualsIsEqualClones(a[0], b[0]);
      ArgsEqualIsEqualClones(a[1..], b[1..]);
      var ca, cb := CloneArgs(a), CloneArgs(b);
      assert ca[1..] == CloneArgs(a[1..]) && cb[1..] == CloneArgs(b[1..]);
      assert ca == [ca[0]] + ca[1..] && cb == [cb[0]] + cb[1..];
    }
  }

  /** Cloning twice changes nothing more. */
  lemma {:induction false} CloneIdempotent(e: Expr)
    ensures CloneExpr(CloneExpr(e)) == CloneExpr(e)
    decreases e, 1
  {
    match e
    case Num(_) => {}
    case Ident(_) => {}
    case Param(_, _) => {}
    case Unary(_, x) => CloneIdempotent(x);
    case Binary(_, l, r) => CloneIdempotent(l); CloneIdempotent(r);
    case Cond(c, t, f) => CloneIdempotent(c); CloneIdempotent(t); CloneIdempotent(f);
    case Call(_, args, _) =>
      forall i | 0 <= i < |args| ensures CloneExpr(CloneArgs(args)[i]) == CloneArgs(args)[i] {
        CloneIdempotent(args[i]);
      }
      assert CloneArgs(CloneArgs(args)) == CloneArgs(args);
  }
}

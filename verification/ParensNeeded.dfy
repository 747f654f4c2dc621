/** Which of the printed parentheses are needed: without any one of them the text would be read as another tree, or
    not at all, except around a left operand at the level of its operator. */
module ParensNeeded {
  import opened Ast
  import opened Tokens
  import opened Formatter
  import opened Parser
  import opened RoundTrip
  import opened Stability
  import opened Grammar

  // ---- Tokens of a parse, without parentheses ----

  function Raw(e: Expr): seq<Token>
    decreases e, 1
  {
    match e
    case Num(b) => [TNumber(b)]
    case Ident(n) => [TIdent(n)]
    case Param(n, _) => [TIdent(n)]
    case Unary(op, x) => [UnaryToken(op)] + Raw(x)
    case Binary(op, l, r) => Raw(l) + [TOp(op)] + Raw(r)
    case Cond(c, t, f) => [TIf] + Raw(c) + [TThen] + Raw(t) + [TElse] + Raw(f)
    case Call(n, args, _) => [TIdent(n)] + RawArgs(args)
  }

  function RawArgs(args: seq<Expr>): seq<Token>
    decreases args, 0
  {
    if args == [] then [] else if |args| == 1 then Raw(args[0]) else Raw(args[0]) + [TComma] + RawArgs(args[1..])
  }

  /** Balanced, at least `d` deep everywhere, and these tokens but for parentheses. */
  ghost predicate Deep(ts: seq<Token>, bare: seq<Token>, d: int) {
    Net(ts) == 0 && Bare(ts) == bare && forall i :: 0 <= i < |bare| ==> Depths(ts, d)[i] >= d
  }

  lemma DeepAround(a: seq<Token>, x: seq<Token>, t: Token, b: seq<Token>, y: seq<Token>, d: int)
    requires Deep(a, x, d) && Deep(b, y, d) && !IsParen(t)
    ensures Deep(a + [t] + b, x + [t] + y, d)
  {
    Around(a, t, b, d);
    var whole := Depths(a + [t] + b, d);
    forall i | 0 <= i < |x + [t] + y| ensures whole[i] >= d {
      Pick(Depths(a, d), d, Depths(b, d), i);
    }
    hide Bare, Net, Depths;
  }

  lemma DeepNone(d: int)
    ensures Deep([], [], d)
  {
  }

  lemma DeepAfter(t: Token, b: seq<Token>, y: seq<Token>, d: int)
    requires Deep(b, y, d) && !IsParen(t)
    ensures Deep([t] + b, [t] + y, d)
  {
    DeepNone(d);
    DeepAround([], [], t, b, y, d);
    assert [] + [t] + b == [t] + b && [] + [t] + y == [t] + y;
  }

  lemma DeepOne(t: Token, d: int)
    requires !IsParen(t)
    ensures Deep([t], [t], d)
  {
    DeepNone(d);
    DeepAfter(t, [], [], d);
    assert [t] + [] == [t];
  }

  /** In parentheses everything is one deeper. */
  lemma DeepInside(body: seq<Token>, bare: seq<Token>, d: int)
    requires Deep(body, bare, d + 1)
    ensures Deep([TLParen] + body + [TRParen], bare, d)
    ensures forall i :: 0 <= i < |bare| ==> Depths([TLParen] + body + [TRParen], d)[i] > d
  {
    Inside(true, body, d);
    assert Parens(true, body) == [TLParen] + body + [TRParen];
    hide Bare, Net, Depths;
  }

  lemma DeepTwo(a: seq<Token>, x: seq<Token>, b: seq<Token>, y: seq<Token>, d: int)
    requires Deep(a, x, d) && Deep(b, y, d)
    ensures Deep(a + b, x + y, d)
  {
    Appends(a, b, d);
    hide Bare, Net, Depths;
  }

  lemma {:induction false} YieldDeep(c: Cst, d: int)
    ensures Deep(Yield(c), Raw(Tree(c)), d)
    decreases c, 1
  {
    hide Deep;
    match c
    case Literal(b) => DeepOne(TNumber(b), d);
    case Name(n) => DeepOne(TIdent(n), d);
    case Apply(fn, args) => YieldDeepCall(fn, args, d);
    case Grouped(inner) =>
      YieldDeep(inner, d + 1);
      DeepInside(Yield(inner), Raw(Tree(inner)), d);
    case Signed(s, x) =>
      YieldDeep(x, d);
      DeepAfter(UnaryToken(s), Yield(x), Raw(Tree(x)), d);
    case Infix(op, l, r) =>
      YieldDeep(l, d);
      YieldDeep(r, d);
      DeepAround(Yield(l), Raw(Tree(l)), TOp(op), Yield(r), Raw(Tree(r)), d);
    case Choice(p, t, f) => YieldDeepChoice(p, t, f, d);
  }

  lemma {:induction false} YieldDeepCall(fn: string, args: seq<Cst>, d: int)
    ensures Deep(Yield(Apply(fn, args)), Raw(Tree(Apply(fn, args))), d)
    decreases args, 2
  {
    var inner := [TLParen] + YieldArgs(args) + [TRParen];
    YieldDeepArgs(args, d + 1);
    DeepInside(YieldArgs(args), RawArgs(Trees(args)), d);
    DeepAfter(TIdent(fn), inner, RawArgs(Trees(args)), d);
    assert [TIdent(fn)] + inner == Yield(Apply(fn, args));
    hide Deep, YieldArgs;
  }

  lemma {:induction false} YieldDeepArgs(args: seq<Cst>, d: int)
    ensures Deep(YieldArgs(args), RawArgs(Trees(args)), d)
    decreases args, 0
  {
    hide Deep, Yield, Raw, Tree;
    if args == [] {
      DeepNone(d);
    } else {
      YieldDeep(args[0], d);
      YieldDeepArgs(args[1..], d);
      TreesOf(args);
      if |args| > 1 {
        DeepAround(Yield(args[0]), Raw(Tree(args[0])), TComma, YieldArgs(args[1..]), RawArgs(Trees(args[1..])), d);
      }
    }
  }

  lemma TreesOf(args: seq<Cst>)
    requires args != []
    ensures |Trees(args)| == |args| && Trees(args)[0] == Tree(args[0]) && Trees(args)[1..] == Trees(args[1..])
    decreases args
  {
    hide Tree;
    if |args| > 1 { TreesOf(args[1..]); }
  }

  lemma {:induction false} YieldDeepChoice(p: Cst, t: Cst, f: Cst, d: int)
    ensures Deep(Yield(Choice(p, t, f)), Raw(Tree(Choice(p, t, f))), d)
    decreases Choice(p, t, f), 0
  {
    YieldChoice(p, t, f);
    var a, b, e := Yield(p), Yield(t), Yield(f);
    var x, y, z := Raw(Tree(p)), Raw(Tree(t)), Raw(Tree(f));
    YieldDeep(p, d);
    YieldDeep(t, d);
    YieldDeep(f, d);
    hide Deep, Yield;
    DeepAfter(TIf, a, x, d);
    DeepAround([TIf] + a, [TIf] + x, TThen, b, y, d);
    DeepAround([TIf] + a + [TThen] + b, [TIf] + x + [TThen] + y, TElse, e, z, d);
  }

  // ---- Reading off the operands ----

  /** An operand whose top operator is looser than its place stands in parentheses. */
  lemma LooserIsGrouped(c: Cst, k: nat)
    requires k <= 4 && IsOperand(c, k) && Tree(c).Binary? && LevelOf(Tree(c).bop) < k
    ensures c.Grouped?
    decreases 4 - k
  {
    if k < 4 {
      if c.Infix? && c.op in Operators(k) { LevelsAre(c.op, k); } else { LooserIsGrouped(c, k + 1); }
    }
  }

  /** An infix parse is at the level of its operator. */
  lemma InfixLevel(c: Cst, k: nat)
    requires k <= 4 && c.Infix? && IsOperand(c, k)
    ensures var j := LevelOf(c.op); k <= j < 4 && IsOperand(c.left, j) && IsOperand(c.right, j + 1)
    decreases 4 - k
  {
    LevelsAre(c.op, k);
    if k < 4 && !(c.op in Operators(k) && IsOperand(c.left, k) && IsOperand(c.right, k + 1)) { InfixLevel(c, k + 1); }
  }

  /** The operator between `a` and `b` is outside all parentheses. */
  lemma DepthZero(a: seq<Token>, t: Token, b: seq<Token>)
    requires Net(a) == 0 && !IsParen(t)
    ensures |Bare(a)| < |Depths(a + [t] + b, 0)| && Depths(a + [t] + b, 0)[|Bare(a)|] == 0
    ensures Bare(a + [t] + b) == Bare(a) + [t] + Bare(b)
  {
    Around(a, t, b, 0);
    hide Bare, Net, Depths;
    Pick(Depths(a, 0), 0, Depths(b, 0), |Bare(a)|);
  }

  lemma NotGrouped(c: Cst, a: seq<Token>, t: Token, b: seq<Token>)
    requires Yield(c) == a + [t] + b && Net(a) == 0 && !IsParen(t)
    ensures !c.Grouped?
  {
    if c.Grouped? {
      DepthZero(a, t, b);
      YieldDeep(c.inner, 1);
      DeepInside(Yield(c.inner), Raw(Tree(c.inner)), 0);
      YieldDeep(c, 0);
    }
    hide Bare, Net, Depths;
  }

  lemma {:induction false} BareShorter(a: seq<Token>, b: seq<Token>)
    requires a <= b
    ensures Bare(a) <= Bare(b)
  {
    assert b == a + b[|a|..];
    BareAppends(a, b[|a|..]);
  }

  /** Where a parse has an operator, by the number of tokens before it. */
  lemma SameSplit(a: seq<Token>, t: Token, b: seq<Token>, x: seq<Token>, y: seq<Token>)
    requires a + [t] + b == x + [t] + y && !IsParen(t) && |Bare(a)| == |Bare(x)|
    ensures a == x && b == y
  {
    var whole := a + [t] + b;
    assert a <= whole && x <= whole;
    BareShorter(a, whole);
    BareShorter(x, whole);
    assert Bare(a) == Bare(whole)[..|Bare(a)|] == Bare(x);
    SplitsAlike(a, t, b, x, y);
  }

  /** The leftmost operand of what the parser would have folded. */
  lemma {:induction false} LeftOperand(c: Cst, acc: Expr, op: BinaryOpKind, r: Expr, a: seq<Token>, b: seq<Token>)
      returns (x: Cst)
    requires IsOperand(c, 0) && Tree(c) == Attach(acc, op, r)
    requires Yield(c) == a + [TOp(op)] + b && Net(a) == 0 && |Bare(a)| == |Raw(acc)|
    ensures IsOperand(x, LevelOf(op)) && Tree(x) == acc && Yield(x) == a
    ensures !Regroups(op, r) ==> c.Infix? && c.op == op && x == c.left && Yield(c.right) == b
    decreases r
  {
    NotGrouped(c, a, TOp(op), b);
    assert c.Infix?;
    InfixLevel(c, 0);
    YieldInfix(c.op, c.left, c.right);
    YieldDeep(c.left, 0);
    hide Yield, Bare, Net, Depths;
    if Regroups(op, r) {
      x := RegroupedOperand(c, acc, op, r, a, b);
    } else {
      x := c.left;
      SameSplit(Yield(c.left), TOp(op), Yield(c.right), a, b);
    }
  }

  lemma {:induction false} RegroupedOperand(c: Cst, acc: Expr, op: BinaryOpKind, r: Expr, a: seq<Token>, b: seq<Token>)
      returns (x: Cst)
    requires Regroups(op, r) && c.Infix? && c.op == r.bop && Tree(c.left) == Attach(acc, op, r.left)
    requires IsOperand(c.left, LevelOf(op)) && LevelOf(op) < 4
    requires Yield(c) == a + [TOp(op)] + b && Net(a) == 0 && |Bare(a)| == |Raw(acc)|
    ensures IsOperand(x, LevelOf(op)) && Tree(x) == acc && Yield(x) == a
    decreases r, 0
  {
    var whole, left := Yield(c), Yield(c.left);
    YieldInfix(c.op, c.left, c.right);
    YieldDeep(c.left, 0);
    AttachRaw(acc, op, r.left);
    assert left <= whole && a <= whole;
    if |left| <= |a| {
      assert left <= a;
      BareShorter(left, a);
      assert false;
    }
    var b' := left[|a| + 1..];
    assert left == a + [TOp(op)] + b' by {
      assert left[..|a|] == whole[..|a|] == a && left[|a|] == whole[|a|] == TOp(op);
    }
    LooserOperand(c.left, LevelOf(op));
    x := LeftOperand(c.left, acc, op, r.left, a, b');
  }

  lemma LooserOperand(c: Cst, k: nat)
    requires k <= 4 && IsOperand(c, k)
    ensures IsOperand(c, 0)
    decreases k
  {
    if k > 0 { LooserOperand(c, k - 1); }
  }

  lemma {:induction false} AttachRaw(acc: Expr, op: BinaryOpKind, r: Expr)
    ensures |Raw(Attach(acc, op, r))| > |Raw(acc)|
    decreases r
  {
    if Regroups(op, r) { AttachRaw(acc, op, r.left); }
  }

  // ---- The parentheses of one operand ----

  /** Whether the printer puts `e` in parentheses there. */
  predicate InParens(e: Expr, outer: nat) {
    (e.Cond? && outer > PREC_COND) || (e.Binary? && BinaryPrec(e.bop) < outer)
  }

  /** The printer adds this one pair, and none otherwise. */
  lemma PrintsParensIff(e: Expr, outer: nat)
    requires outer <= PREC_UNARY
    ensures Print(e, outer) == Parens(InParens(e, outer), Print(e, 0))
  {
    hide BinaryPrec;
  }

  /** A parse of the text of `e` on its own. */
  lemma PrintedParse(e: Expr, outer: nat) returns (c: Cst)
    requires outer <= PREC_UNARY
    ensures IsExpression(c) && Tree(c) == Reparsed(e) && Yield(c) == Print(e, outer)
  {
    var ts := Print(e, outer) + [TEof];
    StopsAt(LOGICAL, TEof, []);
    assert [TEof] + [] == [TEof];
    if outer == 0 {
      ParsesWhole(e, [TEof]);
    } else {
      PrintHead(e, outer);
      StopsAt(LevelFor(outer), TEof, []);
      ParsesPrinted(e, outer, [TEof]);
      Descend(LOGICAL, LevelFor(outer), ts, Reparsed(e), [TEof]);
    }
    assert ParseExpr(ts) == Ok(Reparsed(e), [TEof]);
    c := ExprSound(ts);
    assert ts == Yield(c) + [TEof];
    assert Print(e, outer) == ts[..|ts| - 1] == Yield(c);
  }

  lemma PrintedDeep(e: Expr, outer: nat)
    requires outer <= PREC_UNARY
    ensures Net(Print(e, outer)) == 0 && Bare(Print(e, outer)) == Raw(Reparsed(e))
  {
    var c := PrintedParse(e, outer);
    YieldDeep(c, 0);
    hide Print, Yield;
  }

  lemma {:induction false} TopOperator(acc: Expr, op: BinaryOpKind, r: Expr)
    ensures Attach(acc, op, r).Binary? && LevelOf(Attach(acc, op, r).bop) == LevelOf(op)
  {
  }

  /** No operand at a level tighter than its own reads as `e` without parentheses around it. */
  lemma BareOperandFails(c: Cst, e: Expr, k: nat)
    requires 1 <= k <= 4 && IsOperand(c, k) && Yield(c) == Print(e, 0)
    requires e.Cond? || (e.Binary? && LevelOf(e.bop) < k)
    ensures Tree(c) != Reparsed(e)
  {
    OperandHead(c, k);
    if e.Binary? && Tree(c) == Reparsed(e) {
      TopOperator(Reparsed(e.left), e.bop, e.right);
      LooserIsGrouped(c, k);
      var p := BinaryPrec(e.bop);
      PrintedDeep(e.left, p);
      assert Print(e, 0) == Print(e.left, p) + [TOp(e.bop)] + Print(e.right, p + 1);
      NotGrouped(c, Print(e.left, p), TOp(e.bop), Print(e.right, p + 1));
    }
  }

  /** The text of a binary node with one operand written as given. */
  function Around2(left: seq<Token>, op: BinaryOpKind, right: seq<Token>): seq<Token> {
    left + [TOp(op)] + right
  }

  lemma ReadsAs(ts: seq<Token>, e: Expr) returns (c: Cst)
    requires ParseExpr(ts + [TEof]) == Ok(e, [TEof])
    ensures IsExpression(c) && Tree(c) == e && Yield(c) == ts
  {
    c := ExprSound(ts + [TEof]);
    assert ts == (ts + [TEof])[..|ts|] == (Yield(c) + [TEof])[..|Yield(c)|];
  }

  lemma TopIsOperand(c: Cst)
    requires IsExpression(c) && !Tree(c).Cond?
    ensures IsOperand(c, 0)
  {
  }

  /** The parentheses of a left operand: the text without them is read as the same tree exactly when the operand's
      operator is at the level of the node's own. */
  lemma LeftParensNeededIff(op: BinaryOpKind, l: Expr, r: Expr)
    requires InParens(l, BinaryPrec(op))
    ensures var e := Binary(op, l, r);
      ParseExpr(Around2(Print(l, 0), op, Print(r, BinaryPrec(op) + 1)) + [TEof]) == Ok(Reparsed(e), [TEof]) <==>
      l.Binary? && LevelOf(l.bop) == LevelOf(op)
  {
    var e, p := Binary(op, l, r), BinaryPrec(op);
    var ts := Around2(Print(l, 0), op, Print(r, p + 1));
    PrecsAndLevels(op);
    TopOperator(Reparsed(l), op, r);
    if l.Binary? && LevelOf(l.bop) == LevelOf(op) { LeftRedundant(op, l, r); }
    if ParseExpr(ts + [TEof]) == Ok(Reparsed(e), [TEof]) {
      var c := ReadsAs(ts, Reparsed(e));
      TopIsOperand(c);
      PrintedDeep(l, 0);
      var x := LeftOperand(c, Reparsed(l), op, r, Print(l, 0), Print(r, p + 1));
      if !(l.Binary? && LevelOf(l.bop) == LevelOf(op)) {
        LowerLevels(op, l);
        BareOperandFails(x, l, LevelOf(op));
      }
    }
  }

  lemma LowerLevels(op: BinaryOpKind, l: Expr)
    requires InParens(l, BinaryPrec(op)) && !(l.Binary? && LevelOf(l.bop) == LevelOf(op))
    ensures l.Cond? || (l.Binary? && LevelOf(l.bop) < LevelOf(op))
  {
  }

  lemma LeftRedundant(op: BinaryOpKind, l: Expr, r: Expr)
    requires l.Binary? && LevelOf(l.bop) == LevelOf(op)
    ensures ParseExpr(Around2(Print(l, 0), op, Print(r, BinaryPrec(op) + 1)) + [TEof])
         == Ok(Reparsed(Binary(op, l, r)), [TEof])
  {
    var p, q, k := BinaryPrec(op), BinaryPrec(l.bop), LevelOf(op);
    PrecsAndLevels(op);
    PrecsAndLevels(l.bop);
    var tail := Print(r, p + 1) + [TEof];
    var ts := Print(l, q) + ([TOp(op)] + tail);
    assert Print(l, 0) == Print(l, q);
    assert Around2(Print(l, 0), op, Print(r, p + 1)) + [TEof] == ts;
    PrintHead(l, q);
    StopsAtOp(op, tail);
    StopsAt(k, TEof, []);
    StopsAt(LOGICAL, TEof, []);
    assert [TEof] + [] == [TEof];
    hide Print, Reparsed, Loop, ParseLevel, LevelFor, BinaryPrec, LevelOf;
    ParsesPrinted(l, q, [TOp(op)] + tail);
    LoopRight(Reparsed(l), op, r, [TEof]);
    var e := Attach(Reparsed(l), op, r);
    Descend(LOGICAL, k, ts, e, [TEof]);
    ReparsedBinary(op, l, r);
    WholeExpression(ts, e);
  }

  lemma ReparsedBinary(op: BinaryOpKind, l: Expr, r: Expr)
    ensures Reparsed(Binary(op, l, r)) == Attach(Reparsed(l), op, r)
  {
  }

  lemma WholeExpression(ts: seq<Token>, e: Expr)
    requires !Peek(ts).TIf? && ParseLevel(LOGICAL, ts) == Loop(LOGICAL, e, [TEof])
    ensures ParseExpr(ts) == Ok(e, [TEof])
  {
  }

  /** Those of a right operand are always needed. */
  lemma RightParensNeeded(op: BinaryOpKind, l: Expr, r: Expr)
    requires InParens(r, BinaryPrec(op) + 1)
    ensures var e := Binary(op, l, r);
      ParseExpr(Around2(Print(l, BinaryPrec(op)), op, Print(r, 0)) + [TEof]) != Ok(Reparsed(e), [TEof])
  {
    var e, p := Binary(op, l, r), BinaryPrec(op);
    var ts := Around2(Print(l, p), op, Print(r, 0));
    PrecsAndLevels(op);
    if ParseExpr(ts + [TEof]) == Ok(Reparsed(e), [TEof]) {
      var c := ReadsAs(ts, Reparsed(e));
      TopOperator(Reparsed(l), op, r);
      TopIsOperand(c);
      PrintedDeep(l, p);
      var x := LeftOperand(c, Reparsed(l), op, r, Print(l, p), Print(r, 0));
      InfixLevel(c, 0);
      RightTree(c, op, l, r);
      BareOperandFails(c.right, r, LevelOf(op) + 1);
    }
  }

  lemma RightTree(c: Cst, op: BinaryOpKind, l: Expr, r: Expr)
    requires c.Infix? && Tree(c) == Reparsed(Binary(op, l, r)) && InParens(r, BinaryPrec(op) + 1)
    ensures !Regroups(op, r) && Tree(c.right) == Reparsed(r) &&
            (r.Cond? || (r.Binary? && LevelOf(r.bop) <= LevelOf(op)))
  {
  }

  /** And so are those of the operand of a sign. */
  lemma SignParensNeeded(sign: UnaryOpKind, x: Expr)
    requires InParens(x, PREC_UNARY)
    ensures ParseExpr([UnaryToken(sign)] + Print(x, 0) + [TEof]) != Ok(Reparsed(Unary(sign, x)), [TEof])
  {
    var ts := [UnaryToken(sign)] + Print(x, 0);
    if ParseExpr(ts + [TEof]) == Ok(Reparsed(Unary(sign, x)), [TEof]) {
      var c := ReadsAs(ts, Reparsed(Unary(sign, x)));
      GroupedHead(c);
      TopIsOperand(c);
      SignedOperand(c, 0);
      assert Yield(c)[1..] == Print(x, 0) == Yield(c.operand);
      if x.Binary? { PrecsAndLevels(x.bop); }
      BareOperandFails(c.operand, x, 4);
    }
  }

  lemma GroupedHead(c: Cst)
    ensures c.Grouped? ==> Peek(Yield(c)).TLParen?
  {
  }

  lemma SignedOperand(c: Cst, k: nat)
    requires k <= 4 && c.Signed? && IsOperand(c, k)
    ensures IsOperand(c.operand, 4)
    decreases 4 - k
  {
    if k < 4 { SignedOperand(c, k + 1); }
  }

  lemma ComesBack(op: BinaryOpKind, l: Expr, r: Expr)
    requires Reparsed(l) == l && Reparsed(r) == r && !Regroups(op, r)
    ensures Reparsed(Binary(op, l, r)) == Binary(op, l, r)
  {
  }

  /** The shortest redundant pair: `(a || b) && c`. */
  lemma RedundantPair(a: string, b: string, c: string)
    ensures var l := Binary(Or, Ident(a), Ident(b));
      var e := Binary(And, l, Ident(c));
      && Print(e, 0) == [TLParen, TIdent(a), TOp(Or), TIdent(b), TRParen, TOp(And), TIdent(c)]
      && ParseExpr([TIdent(a), TOp(Or), TIdent(b), TOp(And), TIdent(c)] + [TEof]) == Ok(e, [TEof])
  {
    var l := Binary(Or, Ident(a), Ident(b));
    LeftParensNeededIff(And, l, Ident(c));
    ComesBack(Or, Ident(a), Ident(b));
    ComesBack(And, l, Ident(c));
    assert Print(l, 0) == [TIdent(a)] + [TOp(Or)] + [TIdent(b)];
    assert Print(l, 2) == [TLParen] + ([TIdent(a)] + [TOp(Or)] + [TIdent(b)]) + [TRParen];
    assert Around2(Print(l, 0), And, Print(Ident(c), 3)) == [TIdent(a), TOp(Or), TIdent(b), TOp(And), TIdent(c)];
    hide ParseExpr;
  }
}

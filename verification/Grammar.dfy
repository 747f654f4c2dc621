/** The grammar of the signal language, stated apart from the parser, and the parser against it: a line is accepted,
    and with which tree, exactly as the grammar says. */
module Grammar {
  import opened Ast
  import opened Tokens
  import opened Parser
  import opened RoundTrip

  /** A parse with its parentheses. */
  datatype Cst =
    | Literal(bits: Bits64)
    | Name(name: string)
    | Apply(fn: string, args: seq<Cst>)
    | Grouped(inner: Cst)
    | Signed(sign: UnaryOpKind, operand: Cst)
    | Infix(op: BinaryOpKind, left: Cst, right: Cst)
    | Choice(cond: Cst, thn: Cst, els: Cst)

  /** The operators of each level, loosest first. */
  function Operators(level: nat): set<BinaryOpKind> {
    if level == 0 then {And, Or}
    else if level == 1 then {Gt, Lt, Gte, Lte, Eq, NotEq}
    else if level == 2 then {Add, Sub}
    else if level == 3 then {Mul, Div}
    else {}
  }

  /** expression ::= `if` expression `then` expression `else` expression | operand of level 0 */
  predicate IsExpression(c: Cst)
    decreases c, 7
  {
    if c.Choice? then IsExpression(c.cond) && IsExpression(c.thn) && IsExpression(c.els) else IsOperand(c, 0)
  }

  /** operand of level k ::= operand of level k, operator of level k, operand of level k + 1 | operand of level k + 1;
      the tightest operands are signed operands, literals, names, calls and expressions in parentheses. */
  predicate IsOperand(c: Cst, level: nat)
    requires level <= 4
    decreases c, 5 - level
  {
    if level < 4 then
      (c.Infix? && c.op in Operators(level) && IsOperand(c.left, level) && IsOperand(c.right, level + 1)) ||
      IsOperand(c, level + 1)
    else
      match c
      case Literal(_) => true
      case Name(_) => true
      case Apply(_, args) => AreExpressions(args)
      case Grouped(inner) => IsExpression(inner)
      case Signed(_, x) => IsOperand(x, 4)
      case _ => false
  }

  predicate AreExpressions(args: seq<Cst>)
    decreases args, 0
  {
    args == [] || (IsExpression(args[0]) && AreExpressions(args[1..]))
  }

  /** The tokens of a parse. */
  function Yield(c: Cst): seq<Token>
    decreases c, 1
  {
    match c
    case Literal(b) => [TNumber(b)]
    case Name(n) => [TIdent(n)]
    case Apply(fn, args) => [TIdent(fn), TLParen] + YieldArgs(args) + [TRParen]
    case Grouped(inner) => [TLParen] + Yield(inner) + [TRParen]
    case Signed(s, x) => [TOp(if s == Plus then Add else Sub)] + Yield(x)
    case Infix(op, l, r) => Yield(l) + [TOp(op)] + Yield(r)
    case Choice(p, t, f) => [TIf] + Yield(p) + [TThen] + Yield(t) + [TElse] + Yield(f)
  }

  function YieldArgs(args: seq<Cst>): seq<Token>
    decreases args, 0
  {
    if args == [] then [] else if |args| == 1 then Yield(args[0]) else Yield(args[0]) + [TComma] + YieldArgs(args[1..])
  }

  /** Its tree: parentheses go. */
  function Tree(c: Cst): Expr
    decreases c, 1
  {
    match c
    case Literal(b) => Num(b)
    case Name(n) => Ident(n)
    case Apply(fn, args) => Call(fn, Trees(args), NO_NODE)
    case Grouped(inner) => Tree(inner)
    case Signed(s, x) => Unary(s, Tree(x))
    case Infix(op, l, r) => Binary(op, Tree(l), Tree(r))
    case Choice(p, t, f) => Cond(Tree(p), Tree(t), Tree(f))
  }

  function Trees(args: seq<Cst>): seq<Expr>
    decreases args, 0
  {
    if args == [] then [] else [Tree(args[0])] + Trees(args[1..])
  }

  lemma LevelsAre(op: BinaryOpKind, k: nat)
    ensures LevelOf(op) == k <==> op in Operators(k)
  {
  }

  // ---- What the parser accepts is in the grammar ----

  /** `c` is a parse of the tokens between `ts` and `rest`. */
  ghost predicate Parses(c: Cst, e: Expr, ts: seq<Token>, rest: seq<Token>) {
    Tree(c) == e && ts == Yield(c) + rest
  }

  lemma {:induction false} ExprSound(ts: seq<Token>) returns (c: Cst)
    requires ParseExpr(ts).Ok?
    ensures IsExpression(c) && Parses(c, ParseExpr(ts).value, ts, ParseExpr(ts).rest)
    decreases |ts|, 8
  {
    if !Peek(ts).TIf? {
      c := LevelSound(LOGICAL, ts);
      NotChoice(c, 0);
    } else {
      var p := ExprSound(ts[1..]);
      var r1 := ParseExpr(ts[1..]).rest;
      var t := ExprSound(r1[1..]);
      var r2 := ParseExpr(r1[1..]).rest;
      var f := ExprSound(r2[1..]);
      var r3 := ParseExpr(r2[1..]).rest;
      c := Choice(p, t, f);
      ChoiceYields(p, t, f, ts, r1, r2, r3);
    }
  }

  lemma ChoiceYields(p: Cst, t: Cst, f: Cst, ts: seq<Token>, r1: seq<Token>, r2: seq<Token>, r3: seq<Token>)
    requires Peek(ts).TIf? && ts[1..] == Yield(p) + r1 && Peek(r1).TThen? && r1[1..] == Yield(t) + r2
    requires Peek(r2).TElse? && r2[1..] == Yield(f) + r3
    ensures ts == Yield(Choice(p, t, f)) + r3
  {
    var a, b, d := Yield(p), Yield(t), Yield(f);
    hide Yield;
    assert ts == [TIf] + ts[1..] && r1 == [TThen] + r1[1..] && r2 == [TElse] + r2[1..];
    assert ts == [TIf] + a + [TThen] + b + [TElse] + d + r3;
    YieldChoice(p, t, f);
  }

  lemma YieldChoice(p: Cst, t: Cst, f: Cst)
    ensures Yield(Choice(p, t, f)) == [TIf] + Yield(p) + [TThen] + Yield(t) + [TElse] + Yield(f)
  {
  }

  lemma NotChoice(c: Cst, level: nat)
    requires level <= 4 && IsOperand(c, level)
    ensures !c.Choice?
    decreases 4 - level
  {
    if level < 4 && !c.Infix? { NotChoice(c, level + 1); }
  }

  lemma {:induction false} LevelSound(k: nat, ts: seq<Token>) returns (c: Cst)
    requires k <= UNARY && ParseLevel(k, ts).Ok?
    ensures IsOperand(c, k) && Parses(c, ParseLevel(k, ts).value, ts, ParseLevel(k, ts).rest)
    decreases |ts|, 7 - k
  {
    if k == UNARY {
      c := UnarySound(ts);
    } else {
      var first := LevelSound(k + 1, ts);
      var r := ParseLevel(k + 1, ts);
      c := LoopSound(k, first, r.value, r.rest, ts);
    }
  }

  lemma {:induction false} LoopSound(k: nat, c0: Cst, acc: Expr, ts: seq<Token>, start: seq<Token>) returns (c: Cst)
    requires k < UNARY && IsOperand(c0, k) && Parses(c0, acc, start, ts) && Loop(k, acc, ts).Ok?
    ensures IsOperand(c, k) && Parses(c, Loop(k, acc, ts).value, start, Loop(k, acc, ts).rest)
    decreases |ts|, 7 - k
  {
    if !OpAt(k, Peek(ts)) {
      c := c0;
    } else {
      var op := ts[0].op;
      LevelsAre(op, k);
      var right := LevelSound(k + 1, ts[1..]);
      var r := ParseLevel(k + 1, ts[1..]);
      var both := Infix(op, c0, right);
      InfixYields(op, c0, right, start, ts, r.rest);
      c := LoopSound(k, both, Binary(op, acc, r.value), r.rest, start);
    }
  }

  lemma InfixYields(op: BinaryOpKind, l: Cst, r: Cst, start: seq<Token>, ts: seq<Token>, rest: seq<Token>)
    requires start == Yield(l) + ts && Peek(ts) == TOp(op) && ts[1..] == Yield(r) + rest
    ensures start == Yield(Infix(op, l, r)) + rest
  {
    var a, b := Yield(l), Yield(r);
    YieldInfix(op, l, r);
    hide Yield;
    assert ts == [TOp(op)] + ts[1..];
    assert start == a + [TOp(op)] + b + rest;
  }

  lemma YieldInfix(op: BinaryOpKind, l: Cst, r: Cst)
    ensures Yield(Infix(op, l, r)) == Yield(l) + [TOp(op)] + Yield(r)
  {
  }

  lemma {:induction false} UnarySound(ts: seq<Token>) returns (c: Cst)
    requires ParseUnary(ts).Ok?
    ensures IsOperand(c, 4) && Parses(c, ParseUnary(ts).value, ts, ParseUnary(ts).rest)
    decreases |ts|, 2
  {
    if OpAt(TERM, Peek(ts)) {
      var x := UnarySound(ts[1..]);
      LevelsAre(ts[0].op, TERM);
      c := Signed(if ts[0].op == Add then Plus else Minus, x);
      assert ts == [ts[0]] + ts[1..];
    } else {
      c := PrimarySound(ts);
    }
  }

  lemma {:induction false} PrimarySound(ts: seq<Token>) returns (c: Cst)
    requires ParsePrimary(ts).Ok?
    ensures IsOperand(c, 4) && Parses(c, ParsePrimary(ts).value, ts, ParsePrimary(ts).rest)
    decreases |ts|, 1
  {
    match Peek(ts)
    case TNumber(b) =>
      c := Literal(b);
      assert ts == [ts[0]] + ts[1..];
    case TIdent(n) =>
      if !Peek(ts[1..]).TLParen? {
        c := Name(n);
        assert ts == [ts[0]] + ts[1..];
      } else {
        var args := ListSound(ts[2..]);
        c := Apply(n, args);
        ApplyYields(n, args, ts, ParseArgList(ts[2..]).rest);
      }
    case TLParen =>
      var inner := ExprSound(ts[1..]);
      c := Grouped(inner);
      GroupedYields(inner, ts, ParseExpr(ts[1..]).rest);
    case _ => assert false; c := Name("");
  }

  lemma ApplyYields(n: string, args: seq<Cst>, ts: seq<Token>, rest: seq<Token>)
    requires Peek(ts) == TIdent(n) && Peek(ts[1..]).TLParen? && ts[2..] == YieldArgs(args) + rest && Peek(rest).TRParen?
    ensures ts == Yield(Apply(n, args)) + rest[1..]
  {
    hide YieldArgs;
    assert ts == [TIdent(n), TLParen] + ts[2..] && rest == [TRParen] + rest[1..];
  }

  lemma GroupedYields(inner: Cst, ts: seq<Token>, rest: seq<Token>)
    requires Peek(ts).TLParen? && ts[1..] == Yield(inner) + rest && Peek(rest).TRParen?
    ensures ts == Yield(Grouped(inner)) + rest[1..]
  {
    assert ts == [TLParen] + ts[1..] && rest == [TRParen] + rest[1..];
    assert Yield(Grouped(inner)) == [TLParen] + Yield(inner) + [TRParen];
    hide Yield;
  }

  lemma {:induction false} ListSound(ts: seq<Token>) returns (args: seq<Cst>)
    requires ParseArgList(ts).Ok?
    ensures AreExpressions(args) && Trees(args) == ParseArgList(ts).value
    ensures ts == YieldArgs(args) + ParseArgList(ts).rest
    decreases |ts|, 10
  {
    if Peek(ts).TRParen? {
      args := [];
    } else {
      args := ArgsSound(ts);
    }
  }

  lemma {:induction false} ArgsSound(ts: seq<Token>) returns (args: seq<Cst>)
    requires ParseArgs(ts).Ok?
    ensures args != [] && AreExpressions(args) && Trees(args) == ParseArgs(ts).value
    ensures ts == YieldArgs(args) + ParseArgs(ts).rest
    decreases |ts|, 9
  {
    var a := ExprSound(ts);
    var rest := ParseExpr(ts).rest;
    if !Peek(rest).TComma? {
      args := [a];
      assert args[1..] == [];
    } else {
      var more := ArgsSound(rest[1..]);
      args := [a] + more;
      assert args[1..] == more;
      ArgsYield(a, more, ts, rest, ParseArgs(rest[1..]).rest);
    }
  }

  lemma ArgsYield(a: Cst, more: seq<Cst>, ts: seq<Token>, rest: seq<Token>, rest': seq<Token>)
    requires more != [] && ts == Yield(a) + rest && Peek(rest).TComma? && rest[1..] == YieldArgs(more) + rest'
    ensures ts == YieldArgs([a] + more) + rest'
  {
    hide Yield, YieldArgs;
    assert rest == [TComma] + rest[1..];
    YieldMore(a, more, rest');
  }

  lemma YieldMore(a: Cst, more: seq<Cst>, rest: seq<Token>)
    requires more != []
    ensures YieldArgs([a] + more) + rest == Yield(a) + ([TComma] + (YieldArgs(more) + rest))
  {
    assert ([a] + more)[1..] == more;
    var x, y := Yield(a), YieldArgs(more);
    assert YieldArgs([a] + more) == x + [TComma] + y;
    Commas(x, y, rest);
    hide Yield, YieldArgs;
  }

  lemma Commas(x: seq<Token>, y: seq<Token>, rest: seq<Token>)
    ensures (x + [TComma] + y) + rest == x + ([TComma] + (y + rest))
  {
  }

  // ---- What is in the grammar the parser accepts ----

  lemma {:induction false} OperandHead(c: Cst, level: nat)
    requires level <= 4 && IsOperand(c, level)
    ensures Yield(c) != [] && !Yield(c)[0].TIf? && !Yield(c)[0].TRParen?
    decreases c, 5 - level
  {
    if level < 4 {
      if c.Infix? && c.op in Operators(level) && IsOperand(c.left, level) && IsOperand(c.right, level + 1) {
        OperandHead(c.left, level);
      } else {
        OperandHead(c, level + 1);
      }
    }
  }

  lemma ExpressionHead(c: Cst)
    requires IsExpression(c)
    ensures Yield(c) != [] && !Yield(c)[0].TRParen? && (Yield(c)[0].TIf? <==> c.Choice?)
  {
    if !c.Choice? { OperandHead(c, 0); }
  }

  /** A token that ends an expression. */
  predicate Ends(rest: seq<Token>) {
    Stops(LOGICAL, rest) && !OpAt(LOGICAL, Peek(rest))
  }

  lemma {:induction false} OperandParses(c: Cst, k: nat, rest: seq<Token>)
    requires k <= 4 && IsOperand(c, k) && Stops(k, rest)
    ensures ParseLevel(k, Yield(c) + rest) == Loop(k, Tree(c), rest)
    decreases c, 5 - k
  {
    if k == 4 {
      UnaryParses(c, rest);
      FromUnary(UNARY, Yield(c) + rest, Tree(c), rest);
    } else if c.Infix? && c.op in Operators(k) && IsOperand(c.left, k) && IsOperand(c.right, k + 1) {
      InfixParses(c, k, rest);
    } else {
      OperandParses(c, k + 1, rest);
      Descend(k, k + 1, Yield(c) + rest, Tree(c), rest);
    }
  }

  lemma {:induction false} InfixParses(c: Cst, k: nat, rest: seq<Token>)
    requires k < 4 && c.Infix? && c.op in Operators(k) && IsOperand(c.left, k) && IsOperand(c.right, k + 1)
    requires Stops(k, rest)
    ensures ParseLevel(k, Yield(c) + rest) == Loop(k, Tree(c), rest)
    decreases c, 0
  {
    var op, l, r := c.op, Yield(c.left), Yield(c.right);
    hide Yield, IsOperand, Operators, ParseLevel;
    LevelsAre(op, k);
    YieldInfix(op, c.left, c.right);
    var after := [TOp(op)] + (r + rest);
    assert Yield(c) + rest == l + after;
    StopsAtOp(op, r + rest);
    OperandParses(c.left, k, after);
    OperandParses(c.right, k + 1, rest);
    assert after[1..] == r + rest;
    assert Loop(k + 1, Tree(c.right), rest) == Ok(Tree(c.right), rest) by { assert !OpAt(k + 1, Peek(rest)); }
  }

  lemma {:induction false} UnaryParses(c: Cst, rest: seq<Token>)
    requires IsOperand(c, 4) && Stops(UNARY, rest)
    ensures ParseUnary(Yield(c) + rest) == Ok(Tree(c), rest)
    decreases c, 0
  {
    var ts := Yield(c) + rest;
    match c
    case Literal(b) => assert ts[1..] == rest;
    case Name(n) => assert ts[1..] == rest;
    case Apply(fn, args) => ApplyParses(fn, args, rest);
    case Grouped(inner) => GroupedParses(inner, rest);
    case Signed(sign, x) =>
      UnaryParses(x, rest);
      assert ts[1..] == Yield(x) + rest;
  }

  lemma {:induction false} GroupedParses(inner: Cst, rest: seq<Token>)
    requires IsExpression(inner)
    ensures ParseUnary(Yield(Grouped(inner)) + rest) == Ok(Tree(inner), rest)
    decreases inner, 8
  {
    var ts, after := Yield(Grouped(inner)) + rest, [TRParen] + rest;
    assert ts == [TLParen] + (Yield(inner) + after);
    hide Yield;
    StopsAt(LOGICAL, TRParen, rest);
    ExpressionParses(inner, after);
    assert ts[1..] == Yield(inner) + after;
  }

  lemma {:induction false} ApplyParses(fn: string, args: seq<Cst>, rest: seq<Token>)
    requires AreExpressions(args)
    ensures ParseUnary(Yield(Apply(fn, args)) + rest) == Ok(Call(fn, Trees(args), NO_NODE), rest)
    decreases args, 8
  {
    var inner, after := YieldArgs(args), [TRParen] + rest;
    hide Yield, YieldArgs, ParseArgs, ParseUnary, Trees;
    YieldApply(fn, args, rest);
    StopsAt(LOGICAL, TRParen, rest);
    if args == [] {
      NoArgs();
      assert inner + after == after;
    } else {
      ArgsParse(args, after);
      ArgsHead(args, after);
    }
    CallParses(fn, inner, Trees(args), rest);
  }

  lemma YieldApply(fn: string, args: seq<Cst>, rest: seq<Token>)
    ensures Yield(Apply(fn, args)) + rest == [TIdent(fn), TLParen] + (YieldArgs(args) + ([TRParen] + rest))
  {
    hide YieldArgs;
  }

  lemma CallParses(fn: string, inner: seq<Token>, args: seq<Expr>, rest: seq<Token>)
    requires ParseArgList(inner + ([TRParen] + rest)) == Ok(args, [TRParen] + rest)
    ensures ParseUnary([TIdent(fn), TLParen] + (inner + ([TRParen] + rest))) == Ok(Call(fn, args, NO_NODE), rest)
  {
    hide ParseArgList;
    var after := [TRParen] + rest;
    var ts := [TIdent(fn), TLParen] + (inner + after);
    assert ts[1..][1..] == ts[2..] == inner + after && after[1..] == rest;
    assert !OpAt(TERM, Peek(ts)) && Peek(ts[1..]).TLParen? && Peek(after).TRParen?;
  }

  lemma NoArgs()
    ensures YieldArgs([]) == [] && Trees([]) == []
  {
  }

  lemma ArgsHead(args: seq<Cst>, after: seq<Token>)
    requires args != [] && AreExpressions(args)
    ensures !Peek(YieldArgs(args) + after).TRParen?
  {
    ExpressionHead(args[0]);
    hide Yield;
  }

  lemma OneArg(args: seq<Cst>)
    requires |args| == 1
    ensures YieldArgs(args) == Yield(args[0]) && Trees(args) == [Tree(args[0])]
  {
    hide Yield, Tree;
  }

  lemma {:induction false} ArgsParse(args: seq<Cst>, rest: seq<Token>)
    requires args != [] && AreExpressions(args) && Ends(rest) && !Peek(rest).TComma?
    ensures ParseArgs(YieldArgs(args) + rest) == Ok(Trees(args), rest)
    decreases args, 0
  {
    hide Yield, YieldArgs, Tree;
    var a, more := args[0], args[1..];
    if more == [] {
      OneArg(args);
      ExpressionParses(a, rest);
    } else {
      var later := YieldArgs(more) + rest;
      assert args == [a] + more;
      YieldMore(a, more, rest);
      StopsAt(LOGICAL, TComma, later);
      ExpressionParses(a, [TComma] + later);
      ArgsParse(more, rest);
    }
  }

  lemma {:induction false} ExpressionParses(c: Cst, rest: seq<Token>)
    requires IsExpression(c) && Ends(rest)
    ensures ParseExpr(Yield(c) + rest) == Ok(Tree(c), rest)
    decreases c, 7
  {
    ExpressionHead(c);
    if c.Choice? {
      ChoiceParses(c, rest);
    } else {
      hide Yield;
      OperandParses(c, 0, rest);
    }
  }

  lemma {:induction false} ChoiceParses(c: Cst, rest: seq<Token>)
    requires c.Choice? && IsExpression(c) && Ends(rest)
    ensures ParseExpr(Yield(c) + rest) == Ok(Tree(c), rest)
    decreases c, 0
  {
    var p, t, f := Yield(c.cond), Yield(c.thn), Yield(c.els);
    YieldChoice(c.cond, c.thn, c.els);
    hide Yield;
    var r2 := [TElse] + (f + rest);
    var r1 := [TThen] + (t + r2);
    var ts := Yield(c) + rest;
    assert ts == [TIf] + (p + r1);
    StopsAt(LOGICAL, TThen, t + r2);
    StopsAt(LOGICAL, TElse, f + rest);
    ExpressionParses(c.cond, r1);
    ExpressionParses(c.thn, r2);
    ExpressionParses(c.els, rest);
    assert ts[1..] == p + r1;
  }

  // ---- Lines ----

  /** The tokens of `signal name = ...`. */
  function LineOf(name: string, c: Cst): seq<Token> {
    [TSignal, TIdent(name), TAssign] + Yield(c)
  }

  lemma {:induction false} NoEndInside(c: Cst)
    ensures TEof !in Yield(c)
    decreases c, 1
  {
    match c
    case Apply(_, args) => NoEndInArgs(args);
    case Grouped(x) => NoEndInside(x);
    case Signed(_, x) => NoEndInside(x);
    case Infix(_, l, r) => NoEndInside(l); NoEndInside(r);
    case Choice(p, t, f) => NoEndInside(p); NoEndInside(t); NoEndInside(f);
    case _ => {}
  }

  lemma {:induction false} NoEndInArgs(args: seq<Cst>)
    ensures TEof !in YieldArgs(args)
    decreases args, 0
  {
    if args != [] {
      NoEndInside(args[0]);
      NoEndInArgs(args[1..]);
    }
  }

  /** Two sequences that end where their first end token stands. */
  lemma SameUpToEnd(a: seq<Token>, b: seq<Token>, rest: seq<Token>)
    requires TEof !in a && TEof !in b && a + [TEof] == b + rest && Peek(rest).TEof?
    ensures a == b && rest == [TEof]
  {
    assert (a + [TEof])[|a|] == (b + rest)[|a|] == TEof;
    assert |b| <= |a|;
    assert (b + rest)[|b|] == (a + [TEof])[|b|] == TEof;
    assert |b| == |a|;
    assert b == (b + rest)[..|b|] == (a + [TEof])[..|a|] == a;
  }

  /** The parser and the grammar: a line, which the lexer ends with its only end token, is accepted with name `n` and
      body `e` if and only if it is `signal n = ` and a sentence of the grammar whose tree is `e`. */
  lemma AcceptsIffInGrammar(line: seq<Token>, n: string, e: Expr)
    requires TEof !in line
    ensures ParseSignalDef(line + [TEof]) == Ok((n, e), []) <==>
      exists c :: IsExpression(c) && Tree(c) == e && line == LineOf(n, c)
  {
    var ts := line + [TEof];
    if ParseSignalDef(ts) == Ok((n, e), []) {
      var c := ExprSound(ts[3..]);
      NoEndInside(c);
      assert ts == ts[..3] + ts[3..];
      assert ts == LineOf(n, c) + ParseExpr(ts[3..]).rest;
      SameUpToEnd(line, LineOf(n, c), ParseExpr(ts[3..]).rest);
      hide Yield;
    }
    if c :| IsExpression(c) && Tree(c) == e && line == LineOf(n, c) {
      StopsAt(LOGICAL, TEof, []);
      assert [TEof] + [] == [TEof];
      ExpressionParses(c, [TEof]);
      assert ts[3..] == Yield(c) + [TEof];
      hide Yield;
    }
  }

  /** And rejected, with whatever message, exactly when it is no such line. */
  lemma RejectsIffNotInGrammar(line: seq<Token>)
    requires TEof !in line
    ensures ParseSignalDef(line + [TEof]).Err? <==> !exists n, c :: IsExpression(c) && line == LineOf(n, c)
  {
    var r := ParseSignalDef(line + [TEof]);
    if r.Ok? {
      var (n, e) := r.value;
      WholeLine(line);
      AcceptsIffInGrammar(line, n, e);
    }
    if n, c :| IsExpression(c) && line == LineOf(n, c) { AcceptsIffInGrammar(line, n, Tree(c)); }
  }

  lemma WholeLine(line: seq<Token>)
    requires TEof !in line && ParseSignalDef(line + [TEof]).Ok?
    ensures ParseSignalDef(line + [TEof]).rest == []
  {
    var ts := line + [TEof];
    var c := ExprSound(ts[3..]);
    NoEndInside(c);
    var n := ts[1].name;
    assert ts == ts[..3] + ts[3..];
    assert ts == LineOf(n, c) + ParseExpr(ts[3..]).rest;
    SameUpToEnd(line, LineOf(n, c), ParseExpr(ts[3..]).rest);
    hide Yield;
  }

  /** The grammar is unambiguous: one sentence, one tree. */
  lemma OneTree(a: Cst, b: Cst)
    requires IsExpression(a) && IsExpression(b) && Yield(a) == Yield(b)
    ensures Tree(a) == Tree(b)
  {
    StopsAt(LOGICAL, TEof, []);
    assert [TEof] + [] == [TEof];
    ExpressionParses(a, [TEof]);
    ExpressionParses(b, [TEof]);
  }
}

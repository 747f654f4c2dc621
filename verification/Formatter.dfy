/** The pretty-printer: binding strengths decide where parentheses go. */
module Formatter {
  import opened Ast
  import opened Tokens

  const PREC_COND := 0
  const PREC_UNARY := 7

  function BinaryPrec(op: BinaryOpKind): nat {
    match op
    case Or => 1
    case And => 2
    case Eq => 3 case NotEq => 3
    case Gt => 4 case Lt => 4 case Gte => 4 case Lte => 4
    case Add => 5 case Sub => 5
    case Mul => 6 case Div => 6
  }

  /** NaN and the infinities have no literal and print as divisions; a zero loses its sign; a negative
      value prints as a minus sign and a literal, without parentheses. */
  function FormatNumber(b: Bits64): seq<Token> {
    if Magnitude(b) > INFINITY then [TLParen, TNumber(0), TOp(Div), TNumber(0), TRParen]
    else if b == INFINITY then [TLParen, TNumber(ONE), TOp(Div), TNumber(0), TRParen]
    else if Magnitude(b) == INFINITY then [TLParen, TOp(Sub), TNumber(ONE), TOp(Div), TNumber(0), TRParen]
    else if Magnitude(b) == 0 then [TNumber(0)]
    else if Negative(b) then [TOp(Sub), TNumber(Magnitude(b))]
    else [TNumber(b)]
  }

  function Parens(needed: bool, body: seq<Token>): seq<Token> {
    if needed then [TLParen] + body + [TRParen] else body
  }

  /** The tokens of `e` in a context that binds with strength `outer`. */
  function Print(e: Expr, outer: nat): seq<Token>
    decreases e, 1
  {
    match e
    case Num(b) => FormatNumber(b)
    case Ident(n) => [TIdent(n)]
    case Param(n, _) => [TIdent(n)]
    case Unary(op, x) => Parens(PREC_UNARY < outer, [UnaryToken(op)] + Print(x, PREC_UNARY))
    case Binary(op, l, r) =>
      Parens(BinaryPrec(op) < outer, Print(l, BinaryPrec(op)) + [TOp(op)] + Print(r, BinaryPrec(op) + 1))
    case Cond(c, t, f) =>
      Parens(PREC_COND < outer, [TIf] + Print(c, 1) + [TThen] + Print(t, 1) + [TElse] + Print(f, PREC_COND))
    case Call(n, args, _) => [TIdent(n), TLParen] + PrintArgs(args) + [TRParen]
  }

  function PrintArgs(args: seq<Expr>): seq<Token>
    decreases args, 0
  {
    if args == [] then []
    else Print(args[0], PREC_COND) + if |args| == 1 then [] else [TComma] + PrintArgs(args[1..])
  }

  function PrintSignal(name: string, body: Expr): seq<Token> {
    [TSignal, TIdent(name), TAssign] + Print(body, PREC_COND)
  }

  lemma ConsArgs(a: Expr, args: seq<Expr>)
    ensures PrintArgs([a] + args) == Print(a, PREC_COND) + if args == [] then [] else [TComma] + PrintArgs(args)
  {
    assert ([a] + args)[1..] == args;
  }

  lemma {:induction false} PrintArgsSnoc(args: seq<Expr>, last: Expr)
    ensures PrintArgs(args + [last]) == PrintArgs(args) +
            ((if args == [] then [] else [TComma]) + Print(last, PREC_COND))
    decreases |args|
  {
    hide Print, PrintArgs;
    if args == [] {
      assert [last] + [] == [last] == args + [last];
      ConsArgs(last, []);
      PrintNoArgs();
    } else {
      var a, tail := args[0], args[1..];
      assert args == [a] + tail && args + [last] == [a] + (tail + [last]);
      ConsArgs(a, tail + [last]);
      ConsArgs(a, tail);
      PrintArgsSnoc(tail, last);
      var head, lastText := Print(a, PREC_COND), Print(last, PREC_COND);
      if tail == [] {
        PrintNoArgs();
      } else {
        AppendThree(head, [TComma], PrintArgs(tail), [TComma] + lastText);
      }
    }
  }

  lemma PrintNoArgs()
    ensures PrintArgs([]) == []
  {
  }

  lemma AppendTwo(o: seq<Token>, a: seq<Token>, b: seq<Token>)
    ensures o + a + b == o + (a + b)
  {
  }

  lemma AppendThree(o: seq<Token>, a: seq<Token>, b: seq<Token>, c: seq<Token>)
    ensures o + a + b + c == o + (a + b + c) == o + (a + (b + c)) == (o + (a + b)) + c
  {
  }

  lemma AppendSix(o: seq<Token>, a: seq<Token>, b: seq<Token>, c: seq<Token>, d: seq<Token>, e: seq<Token>,
                  f: seq<Token>)
    ensures o + a + b + c + d + e + f == o + (a + b + c + d + e + f)
  {
    AppendThree(o, a, b, c);
    AppendThree(o, a + b + c, d, e);
    AppendThree(o, a + b + c + d, e, f);
  }

  lemma AppendParens(o: seq<Token>, needed: bool, body: seq<Token>)
    ensures o + Parens(needed, body) == if needed then ((o + [TLParen]) + body) + [TRParen] else o + body
  {
    AppendThree(o, [TLParen], body, [TRParen]);
  }

  /** The printer in its own form: it appends to one output stream. */
  class FormatWriter {
    var out: seq<Token>

    constructor ()
      ensures out == []
    {
      out := [];
    }

    method FormatExprInto(e: Expr, outer: nat)
      modifies this
      ensures out == old(out) + Print(e, outer)
      decreases e, 2
    {
      match e
      case Num(b) => out := out + FormatNumber(b);
      case Ident(n) => out := out + [TIdent(n)];
      case Param(n, _) => out := out + [TIdent(n)];
      case Unary(_, _) => FormatUnary(e, outer);
      case Binary(_, _, _) => FormatBinary(e, outer);
      case Cond(_, _, _) => FormatConditional(e, outer);
      case Call(_, _, _) => FormatFunctionCall(e);
    }

    method FormatUnary(e: Expr, outer: nat)
      requires e.Unary?
      modifies this
      ensures out == old(out) + Print(e, outer)
      decreases e, 1
    {
      var needParen := PREC_UNARY < outer;
      ghost var op, x := [UnaryToken(e.uop)], Print(e.operand, PREC_UNARY);
      assert Print(e, outer) == Parens(needParen, op + x);
      hide Print, Parens;
      AppendParens(out, needParen, op + x);
      if needParen { out := out + [TLParen]; }
      ghost var before := out;
      out := out + [UnaryToken(e.uop)];
      FormatExprInto(e.operand, PREC_UNARY);
      AppendTwo(before, op, x);
      if needParen { out := out + [TRParen]; }
    }

    method FormatBinary(e: Expr, outer: nat)
      requires e.Binary?
      modifies this
      ensures out == old(out) + Print(e, outer)
      decreases e, 1
    {
      var prec := BinaryPrec(e.bop);
      var needParen := prec < outer;
      ghost var l, r := Print(e.left, prec), Print(e.right, prec + 1);
      assert Print(e, outer) == Parens(needParen, l + [TOp(e.bop)] + r);
      hide BinaryPrec, Print, Parens;
      AppendParens(out, needParen, l + [TOp(e.bop)] + r);
      if needParen { out := out + [TLParen]; }
      AppendThree(out, l, [TOp(e.bop)], r);
      FormatExprInto(e.left, prec);
      out := out + [TOp(e.bop)];
      FormatExprInto(e.right, prec + 1);
      if needParen { out := out + [TRParen]; }
    }

    method FormatConditional(e: Expr, outer: nat)
      requires e.Cond?
      modifies this
      ensures out == old(out) + Print(e, outer)
      decreases e, 1
    {
      var needParen := PREC_COND < outer;
      ghost var c, t, f := Print(e.cond, 1), Print(e.thn, 1), Print(e.els, PREC_COND);
      ghost var body := [TIf] + c + [TThen] + t + [TElse] + f;
      assert Print(e, outer) == Parens(needParen, body);
      hide Print, Parens;
      AppendParens(out, needParen, body);
      if needParen { out := out + [TLParen]; }
      ghost var start := out;
      out := out + [TIf];
      FormatExprInto(e.cond, PREC_COND + 1);
      out := out + [TThen];
      FormatExprInto(e.thn, PREC_COND + 1);
      out := out + [TElse];
      FormatExprInto(e.els, PREC_COND);
      assert out == start + [TIf] + c + [TThen] + t + [TElse] + f;
      AppendSix(start, [TIf], c, [TThen], t, [TElse], f);
      if needParen { out := out + [TRParen]; }
    }

    method FormatFunctionCall(e: Expr)
      requires e.Call?
      modifies this
      ensures out == old(out) + Print(e, 0)
      decreases e, 1
    {
      ghost var open, start := [TIdent(e.name), TLParen], out;
      assert Print(e, 0) == open + PrintArgs(e.args) + [TRParen];
      hide Print, PrintArgs;
      out := out + [TIdent(e.name), TLParen];
      PrintNoArgs();
      assert e.args[..0] == [] && start + open + [] == start + open;
      for i := 0 to |e.args|
        invariant out == start + open + PrintArgs(e.args[..i])
      {
        ghost var done := PrintArgs(e.args[..i]);
        ghost var sep := if i > 0 then [TComma] else [];
        assert e.args[..i + 1] == e.args[..i] + [e.args[i]];
        PrintArgsSnoc(e.args[..i], e.args[i]);
        if i > 0 { out := out + [TComma]; }
        assert out == start + open + done + sep;
        FormatExprInto(e.args[i], PREC_COND);
        AppendThree(start + open, done, sep, Print(e.args[i], PREC_COND));
      }
      assert e.args[..|e.args|] == e.args;
      out := out + [TRParen];
      AppendThree(start, open, PrintArgs(e.args), [TRParen]);
    }

    method FormatSignalDef(name: string, body: Expr)
      modifies this
      ensures out == old(out) + PrintSignal(name, body)
    {
      out := out + [TSignal, TIdent(name), TAssign];
      FormatExprInto(body, PREC_COND);
    }
  }
}

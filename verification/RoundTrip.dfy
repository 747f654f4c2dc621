/** Parsing what the printer printed.

    The header of the printer promises that the printed text reparses to a structurally equal tree.  It does
    not always: the printer ranks `&&` above `||` and relations above equalities, while the parser has one
    left-associative level for each pair.  `Reparsed` says which tree comes back, for every tree, and
    `RoundTrips` for exactly which trees it is the same one. */
module RoundTrip {
  import opened Ast
  import opened Tokens
  import opened Formatter
  import opened Parser

  function ReparsedNumber(b: Bits64): Expr {
    if Magnitude(b) > INFINITY then Binary(Div, Num(0), Num(0))
    else if b == INFINITY then Binary(Div, Num(ONE), Num(0))
    else if Magnitude(b) == INFINITY then Binary(Div, Unary(Minus, Num(ONE)), Num(0))
    else if Magnitude(b) == 0 then Num(0)
    else if Negative(b) then Unary(Minus, Num(Magnitude(b)))
    else Num(b)
  }

  /** `r` prints without parentheses to the right of `op` although the parser reads both at one level. */
  predicate Regroups(op: BinaryOpKind, r: Expr) {
    r.Binary? && LevelOf(r.bop) == LevelOf(op) && BinaryPrec(op) < BinaryPrec(r.bop)
  }

  /** In the language's own terms: `&&` right of `||`, or a relation right of an equality. */
  lemma RegroupsMeans(op: BinaryOpKind, r: Expr)
    ensures Regroups(op, r) <==>
      r.Binary? && ((op == Or && r.bop == And) || (op in {Eq, NotEq} && r.bop in {Gt, Lt, Gte, Lte}))
  {
  }

  /** The tree that comes back. */
  function Reparsed(e: Expr): Expr
    decreases e, 1
  {
    match e
    case Num(b) => ReparsedNumber(b)
    case Ident(_) => e
    case Param(n, _) => Ident(n)
    case Unary(op, x) => Unary(op, Reparsed(x))
    case Binary(op, l, r) => Attach(Reparsed(l), op, r)
    case Cond(c, t, f) => Cond(Reparsed(c), Reparsed(t), Reparsed(f))
    case Call(n, args, _) => Call(n, ReparsedArgs(args), NO_NODE)
  }

  function ReparsedArgs(args: seq<Expr>): (r: seq<Expr>)
    ensures |r| == |args|
    decreases args, 0
  {
    if args == [] then [] else [Reparsed(args[0])] + ReparsedArgs(args[1..])
  }

  /** `acc op r` as the parser groups it: the first operand of `r` alone goes to `op`. */
  function Attach(acc: Expr, op: BinaryOpKind, r: Expr): Expr
    decreases r, 2
  {
    if Regroups(op, r) then Binary(r.bop, Attach(acc, op, r.left), Reparsed(r.right))
    else Binary(op, acc, Reparsed(r))
  }

  /** A token that ends an operand of level `k`: no tighter operator and no opening parenthesis. */
  predicate Stops(k: nat, rest: seq<Token>) {
    !Peek(rest).TLParen? && forall j | k < j <= UNARY :: !OpAt(j, Peek(rest))
  }

  /** The level at which the parser reads what is printed with strength `outer`. */
  function LevelFor(outer: nat): (k: nat)
    requires 1 <= outer <= PREC_UNARY
    ensures k <= UNARY
  {
    if outer <= 2 then LOGICAL else if outer <= 4 then COMPARISON else if outer == 5 then TERM
    else if outer == 6 then FACTOR else UNARY
  }

  lemma PrecsAndLevels(op: BinaryOpKind)
    ensures 1 <= BinaryPrec(op) <= 6 && LevelFor(BinaryPrec(op)) == LevelOf(op)
    ensures LevelFor(BinaryPrec(op) + 1) == LevelOf(op) || LevelFor(BinaryPrec(op) + 1) == LevelOf(op) + 1
    ensures LevelFor(BinaryPrec(op) + 1) == LevelOf(op) <==> BinaryPrec(op) in {1, 3}
  {
  }

  /** Reading an operand at a looser level than the one it was printed for. */
  lemma {:induction false} Descend(k: nat, j: nat, ts: seq<Token>, e: Expr, rest: seq<Token>)
    requires k <= j <= UNARY && Stops(k, rest)
    requires ParseLevel(j, ts) == Loop(j, e, rest)
    ensures ParseLevel(k, ts) == Loop(k, e, rest)
    decreases j - k
  {
    if k < j {
      assert !OpAt(j, Peek(rest));
      assert ParseLevel(j - 1, ts) == Loop(j - 1, e, rest);
      Descend(k, j - 1, ts, e, rest);
    }
  }

  lemma FromUnary(k: nat, ts: seq<Token>, e: Expr, rest: seq<Token>)
    requires k <= UNARY && Stops(k, rest) && ParseUnary(ts) == Ok(e, rest)
    ensures ParseLevel(k, ts) == Loop(k, e, rest)
  {
    assert !OpAt(UNARY, Peek(rest));
    Descend(k, UNARY, ts, e, rest);
  }

  /** Nothing printed inside another construct starts with `if`, and nothing printed is empty. */
  lemma {:induction false} PrintHead(e: Expr, outer: nat)
    ensures Print(e, outer) != []
    ensures outer >= 1 || !e.Cond? ==> !Print(e, outer)[0].TIf?
    ensures !Print(e, outer)[0].TRParen?
    decreases e
  {
    match e
    case Binary(op, l, _) => PrintHead(l, BinaryPrec(op)); PrecsAndLevels(op);
    case _ => {}
  }

  /** `x / d)` read as an expression. */
  lemma ParsesQuotient(ts: seq<Token>, x: Expr, ts1: seq<Token>, d: Bits64)
    requires !Peek(ts).TIf? && ParseUnary(ts) == Ok(x, ts1)
    requires |ts1| >= 3 && ts1[0] == TOp(Div) && ts1[1] == TNumber(d) && ts1[2].TRParen?
    ensures ParseExpr(ts) == Ok(Binary(Div, x, Num(d)), ts1[2..])
  {
    var e := Binary(Div, x, Num(d));
    assert ParseUnary(ts1[1..]) == Ok(Num(d), ts1[2..]) by { assert ts1[1..][1..] == ts1[2..]; }
    assert ParseLevel(UNARY, ts1[1..]) == Ok(Num(d), ts1[2..]);
    assert ts1[2..][0].TRParen?;
    assert Loop(FACTOR, x, ts1) == Loop(FACTOR, e, ts1[2..]);
    assert ParseLevel(UNARY, ts) == Ok(x, ts1);
    assert ParseLevel(FACTOR, ts) == Loop(FACTOR, e, ts1[2..]);
    Descend(LOGICAL, FACTOR, ts, e, ts1[2..]);
  }

  lemma ParsesNumber(b: Bits64, rest: seq<Token>)
    ensures ParseUnary(FormatNumber(b) + rest) == Ok(ReparsedNumber(b), rest)
  {
    var ts := FormatNumber(b) + rest;
    if Magnitude(b) > INFINITY || b == INFINITY {
      assert ts[1..][1..] == ts[2..] && ts[2..][2..] == ts[4..] && ts[4..][1..] == rest;
      ParsesQuotient(ts[1..], Num(ts[1].bits), ts[2..], 0);
    } else if Magnitude(b) == INFINITY {
      assert ts[1..][1..] == ts[2..] && ts[2..][1..] == ts[3..] && ts[3..][2..] == ts[5..] && ts[5..][1..] == rest;
      assert ParseUnary(ts[2..]) == Ok(Num(ONE), ts[3..]);
      assert ParseUnary(ts[1..]) == Ok(Unary(Minus, Num(ONE)), ts[3..]);
      ParsesQuotient(ts[1..], Unary(Minus, Num(ONE)), ts[3..], 0);
    } else if Magnitude(b) != 0 && Negative(b) {
      assert ts[1..][1..] == rest;
      assert ParseUnary(ts[1..]) == Ok(Num(Magnitude(b)), rest);
    } else {
      assert ts[1..] == rest;
    }
  }

  lemma StopsAtOp(op: BinaryOpKind, rest: seq<Token>)
    ensures Stops(LevelOf(op), [TOp(op)] + rest) && Peek([TOp(op)] + rest) == TOp(op)
  {
  }

  lemma StopsAt(k: nat, t: Token, rest: seq<Token>)
    requires t in {TThen, TElse, TRParen, TComma, TEof}
    ensures Stops(k, [t] + rest) && Peek([t] + rest) == t && ([t] + rest)[1..] == rest
    ensures forall j :: !OpAt(j, t)
  {
  }

  /** Reading a printed tree, in any context that binds with strength `outer` and whatever comes after. */
  lemma {:induction false} ParsesPrinted(e: Expr, outer: nat, rest: seq<Token>)
    requires 1 <= outer <= PREC_UNARY && Stops(LevelFor(outer), rest)
    ensures ParseLevel(LevelFor(outer), Print(e, outer) + rest) == Loop(LevelFor(outer), Reparsed(e), rest)
    decreases e, 6
  {
    hide Loop, ParseLevel, ParseUnary, ParsePrimary, ParseExpr, Attach, LevelFor, BinaryPrec;
    match e
    case Binary(op, _, _) =>
      PrecsAndLevels(op);
      if BinaryPrec(op) < outer { ParsesParens(e, outer, rest); } else { ParsesBinary(e, outer, rest); }
    case Cond(_, _, _) => ParsesParens(e, outer, rest);
    case _ =>
      ParsesOperand(e, outer, rest);
      FromUnary(LevelFor(outer), Print(e, outer) + rest, Reparsed(e), rest);
  }

  lemma {:induction false} ParsesParens(e: Expr, outer: nat, rest: seq<Token>)
    requires 1 <= outer <= PREC_UNARY && Stops(LevelFor(outer), rest)
    requires e.Cond? || (e.Binary? && BinaryPrec(e.bop) < outer)
    ensures ParseLevel(LevelFor(outer), Print(e, outer) + rest) == Loop(LevelFor(outer), Reparsed(e), rest)
    decreases e, 5
  {
    var ts := Print(e, outer) + rest;
    var inner := Print(e, 0) + ([TRParen] + rest);
    assert ts == [TLParen] + inner;
    hide Loop, ParseLevel, ParseExpr, Attach, LevelFor, BinaryPrec, Print;
    StopsAt(0, TRParen, rest);
    ParsesWhole(e, [TRParen] + rest);
    assert ParsePrimary(ts) == Ok(Reparsed(e), rest) by { assert ts[1..] == inner; }
    assert ParseUnary(ts) == Ok(Reparsed(e), rest);
    FromUnary(LevelFor(outer), ts, Reparsed(e), rest);
  }

  /** At the loosest strength, up to a token that is no operator. */
  lemma {:induction false} ParsesWhole(e: Expr, rest: seq<Token>)
    requires Stops(LOGICAL, rest) && !OpAt(LOGICAL, Peek(rest))
    ensures ParseExpr(Print(e, 0) + rest) == Ok(Reparsed(e), rest)
    decreases e, 4
  {
    if e.Cond? {
      ParsesCond(e, rest);
    } else {
      var ts := Print(e, 0) + rest;
      assert Print(e, 0) == Print(e, 1) by { if e.Binary? { PrecsAndLevels(e.bop); } }
      PrintHead(e, 0);
      if e.Binary? {
        ParsesBinary(e, 1, rest);
      } else {
        ParsesOperand(e, 1, rest);
        FromUnary(LOGICAL, ts, Reparsed(e), rest);
      }
    }
  }

  /** A branch or condition of a conditional. */
  lemma {:induction false} ParsesPart(e: Expr, t: Token, rest: seq<Token>)
    requires t in {TThen, TElse}
    ensures ParseExpr(Print(e, 1) + ([t] + rest)) == Ok(Reparsed(e), [t] + rest)
    decreases e, 7
  {
    StopsAt(LOGICAL, t, rest);
    PrintHead(e, 1);
    ParsesPrinted(e, 1, [t] + rest);
  }

  lemma CondTokens(c: seq<Token>, t: seq<Token>, f: seq<Token>, rest: seq<Token>)
    ensures [TIf] + c + [TThen] + t + [TElse] + f + rest ==
            [TIf] + (c + ([TThen] + (t + ([TElse] + (f + rest)))))
  {
  }

  lemma TailAfter(t: Token, rest: seq<Token>)
    ensures ([t] + rest)[1..] == rest && Peek([t] + rest) == t
  {
  }

  lemma {:induction false} ParsesCond(e: Expr, rest: seq<Token>)
    requires e.Cond? && Stops(LOGICAL, rest) && !OpAt(LOGICAL, Peek(rest))
    ensures ParseExpr(Print(e, 0) + rest) == Ok(Reparsed(e), rest)
    decreases e, 3
  {
    var c, t, f := Print(e.cond, 1), Print(e.thn, 1), Print(e.els, 0);
    var ts := Print(e, 0) + rest;
    assert ts == [TIf] + c + [TThen] + t + [TElse] + f + rest;
    CondTokens(c, t, f, rest);
    hide Print, ParseLevel;
    var r3 := f + rest;
    var r2 := t + ([TElse] + r3);
    var r1 := c + ([TThen] + r2);
    TailAfter(TIf, r1);
    TailAfter(TThen, r2);
    TailAfter(TElse, r3);
    ParsesPart(e.cond, TThen, r2);
    ParsesPart(e.thn, TElse, r3);
    ParsesWhole(e.els, rest);
    assert Reparsed(e) == Cond(Reparsed(e.cond), Reparsed(e.thn), Reparsed(e.els));
    hide Reparsed, Peek;
  }

  lemma BinaryTokens(l: seq<Token>, op: Token, r: seq<Token>, rest: seq<Token>)
    ensures (l + [op] + r) + rest == l + ([op] + (r + rest))
  {
  }

  lemma LevelsNest(outer: nat, op: BinaryOpKind, rest: seq<Token>)
    requires 1 <= outer <= BinaryPrec(op) && Stops(LevelFor(outer), rest)
    ensures LevelFor(outer) <= LevelOf(op) && Stops(LevelOf(op), rest)
  {
  }

  lemma {:induction false} ParsesBinary(e: Expr, outer: nat, rest: seq<Token>)
    requires e.Binary? && 1 <= outer <= BinaryPrec(e.bop)
    requires outer <= PREC_UNARY && Stops(LevelFor(outer), rest)
    ensures ParseLevel(LevelFor(outer), Print(e, outer) + rest) == Loop(LevelFor(outer), Reparsed(e), rest)
    decreases e, 3
  {
    var op, l, r := e.bop, e.left, e.right;
    var k, q := LevelOf(op), BinaryPrec(op);
    PrecsAndLevels(op);
    LevelsNest(outer, op, rest);
    var ts := Print(e, outer) + rest;
    assert Print(e, outer) == Print(l, q) + [TOp(op)] + Print(r, q + 1);
    assert Reparsed(e) == Attach(Reparsed(l), op, r);
    hide Loop, ParseLevel, Attach, Print, Reparsed, LevelFor, LevelOf, BinaryPrec;
    BinaryTokens(Print(l, q), TOp(op), Print(r, q + 1), rest);
    var after := [TOp(op)] + (Print(r, q + 1) + rest);
    StopsAtOp(op, Print(r, q + 1) + rest);
    ParsesPrinted(l, q, after);
    LoopRight(Reparsed(l), op, r, rest);
    Descend(LevelFor(outer), k, ts, Reparsed(e), rest);
  }

  /** The loop of a level, at an operator whose printed right operand follows. */
  lemma {:induction false} LoopRight(acc: Expr, op: BinaryOpKind, r: Expr, rest: seq<Token>)
    requires Stops(LevelOf(op), rest)
    ensures Loop(LevelOf(op), acc, [TOp(op)] + (Print(r, BinaryPrec(op) + 1) + rest)) ==
            Loop(LevelOf(op), Attach(acc, op, r), rest)
    decreases r, 9
  {
    if Regroups(op, r) {
      var k, q := LevelOf(op), BinaryPrec(op);
      var q' := BinaryPrec(r.bop);
      assert q' == q + 1 && LevelOf(r.bop) == k;
      var after := [TOp(r.bop)] + (Print(r.right, q' + 1) + rest);
      assert Print(r, q + 1) == Print(r.left, q') + [TOp(r.bop)] + Print(r.right, q' + 1);
      BinaryTokens(Print(r.left, q'), TOp(r.bop), Print(r.right, q' + 1), rest);
      StopsAtOp(r.bop, Print(r.right, q' + 1) + rest);
      assert !Regroups(r.bop, r.right);
      var acc' := Attach(acc, op, r.left);
      assert Attach(acc, op, r) == Binary(r.bop, acc', Reparsed(r.right));
      hide Loop, Print, Attach, Reparsed, BinaryPrec, LevelOf;
      LoopRight(acc, op, r.left, after);
      LoopRightPlain(acc', r.bop, r.right, rest);
    } else {
      LoopRightPlain(acc, op, r, rest);
    }
  }

  /** Right operands that do not regroup print the same one level tighter. */
  lemma RightStrength(op: BinaryOpKind, r: Expr) returns (outer: nat)
    requires !Regroups(op, r)
    ensures 1 <= outer <= PREC_UNARY && LevelFor(outer) == LevelOf(op) + 1
    ensures Print(r, BinaryPrec(op) + 1) == Print(r, outer)
  {
    PrecsAndLevels(op);
    outer := if LevelFor(BinaryPrec(op) + 1) == LevelOf(op) + 1 then BinaryPrec(op) + 1 else BinaryPrec(op) + 2;
    if r.Binary? { PrecsAndLevels(r.bop); }
    hide Print;
    assert LevelFor(outer) == LevelOf(op) + 1;
    StrengthsAgree(r, BinaryPrec(op) + 1, outer);
  }

  lemma StrengthsAgree(e: Expr, p: nat, q: nat)
    requires 1 <= p <= q <= PREC_UNARY
    requires e.Binary? ==> (BinaryPrec(e.bop) < p <==> BinaryPrec(e.bop) < q)
    ensures Print(e, p) == Print(e, q)
  {
    hide BinaryPrec, Parens;
  }

  lemma {:induction false} LoopRightPlain(acc: Expr, op: BinaryOpKind, r: Expr, rest: seq<Token>)
    requires Stops(LevelOf(op), rest) && !Regroups(op, r)
    ensures Loop(LevelOf(op), acc, [TOp(op)] + (Print(r, BinaryPrec(op) + 1) + rest)) ==
            Loop(LevelOf(op), Binary(op, acc, Reparsed(r)), rest)
    decreases r, 8
  {
    var outer := RightStrength(op, r);
    hide Print, Reparsed, LevelOf, LevelFor, Regroups, ParseLevel, BinaryPrec;
    TailAfter(TOp(op), Print(r, outer) + rest);
    ParsesPrinted(r, outer, rest);
  }

  /** Literals, names, calls and unary operators. */
  lemma {:induction false} ParsesOperand(e: Expr, outer: nat, rest: seq<Token>)
    requires !e.Binary? && !e.Cond? && outer <= PREC_UNARY && !Peek(rest).TLParen?
    ensures ParseUnary(Print(e, outer) + rest) == Ok(Reparsed(e), rest)
    decreases e, 3
  {
    var ts := Print(e, outer) + rest;
    match e
    case Num(b) => ParsesNumber(b, rest);
    case Unary(op, x) =>
      var inner := Print(x, PREC_UNARY) + rest;
      assert ts == [UnaryToken(op)] + inner by { AppendTwo([UnaryToken(op)], Print(x, PREC_UNARY), rest); }
      TailAfter(UnaryToken(op), inner);
      ParsesPrinted(x, PREC_UNARY, rest);
      assert ParseUnary(inner) == Ok(Reparsed(x), rest);
      hide Print;
    case Call(n, args, _) =>
      ParsesCall(e, rest);
    case Ident(n) => TailAfter(TIdent(n), rest);
    case Param(n, _) => TailAfter(TIdent(n), rest);
  }

  lemma CallTokens(n: string, args: seq<Token>, rest: seq<Token>)
    ensures var ts := ([TIdent(n), TLParen] + args + [TRParen]) + rest;
      && Peek(ts) == TIdent(n) && Peek(ts[1..]).TLParen? && ts[2..] == args + ([TRParen] + rest)
  {
  }

  lemma {:induction false} ParsesCall(e: Expr, rest: seq<Token>)
    requires e.Call?
    ensures ParsePrimary(Print(e, 0) + rest) == Ok(Reparsed(e), rest)
    decreases e, 2
  {
    var ts := Print(e, 0) + rest;
    CallTokens(e.name, PrintArgs(e.args), rest);
    StopsAt(LOGICAL, TRParen, rest);
    if e.args == [] {
      assert PrintArgs([]) + ([TRParen] + rest) == [TRParen] + rest;
    } else {
      ParsesArgs(e.args, [TRParen] + rest);
      PrintHead(e.args[0], 0);
    }
  }

  lemma {:induction false} ParsesArgs(args: seq<Expr>, rest: seq<Token>)
    requires args != [] && Stops(LOGICAL, rest) && !OpAt(LOGICAL, Peek(rest)) && !Peek(rest).TComma?
    ensures ParseArgs(PrintArgs(args) + rest) == Ok(ReparsedArgs(args), rest)
    decreases args, 0
  {
    var a, tail := args[0], args[1..];
    if tail == [] {
      assert PrintArgs(args) == Print(a, 0);
      assert ReparsedArgs(args) == [Reparsed(a)];
      ParsesWhole(a, rest);
    } else {
      var more := PrintArgs(tail) + rest;
      assert PrintArgs(args) + rest == Print(a, 0) + ([TComma] + more) by {
        AppendThree(Print(a, 0), [TComma], PrintArgs(tail), rest);
      }
      StopsAt(LOGICAL, TComma, more);
      ParsesWhole(a, [TComma] + more);
      ParsesArgs(tail, rest);
    }
  }

  /** What comes back for every tree: the parser reads all of the printed text, and returns `Reparsed`. */
  lemma PrintedTextParses(name: string, body: Expr)
    ensures ParseExpr(Print(body, 0) + [TEof]) == Ok(Reparsed(body), [TEof])
    ensures ParseSignalDef(PrintSignal(name, body) + [TEof]) == Ok((name, Reparsed(body)), [])
  {
    StopsAt(LOGICAL, TEof, []);
    assert [TEof] + [] == [TEof];
    ParsesWhole(body, [TEof]);
    var ts := PrintSignal(name, body) + [TEof];
    assert ts[3..] == Print(body, 0) + [TEof];
  }

  /** Trees whose text means themselves. */
  predicate RoundTrips(e: Expr)
    decreases e, 1
  {
    match e
    case Num(b) => b < INFINITY
    case Ident(_) => true
    case Param(_, _) => false
    case Unary(_, x) => RoundTrips(x)
    case Binary(op, l, r) => !Regroups(op, r) && RoundTrips(l) && RoundTrips(r)
    case Cond(c, t, f) => RoundTrips(c) && RoundTrips(t) && RoundTrips(f)
    case Call(_, args, _) => RoundTripArgs(args)
  }

  predicate RoundTripArgs(args: seq<Expr>)
    decreases args, 0
  {
    args == [] || (RoundTrips(args[0]) && RoundTripArgs(args[1..]))
  }

  /** The promise of the header holds for exactly these trees. */
  lemma {:induction false} SameTreeIff(e: Expr)
    ensures AstEquals(Reparsed(e), e) <==> RoundTrips(e)
    decreases e, 1
  {
    match e
    case Num(_) => {}
    case Ident(_) => {}
    case Param(_, _) => {}
    case Unary(_, x) => SameTreeIff(x);
    case Binary(op, l, r) => SameTreeIff(l); SameTreeIff(r);
    case Cond(c, t, f) => SameTreeIff(c); SameTreeIff(t); SameTreeIff(f);
    case Call(_, args, _) => SameArgsIff(args);
  }

  lemma {:induction false} SameArgsIff(args: seq<Expr>)
    ensures ArgsEqual(ReparsedArgs(args), args) <==> RoundTripArgs(args)
    decreases args, 0
  {
    if args != [] {
      SameTreeIff(args[0]);
      SameArgsIff(args[1..]);
      assert ReparsedArgs(args)[1..] == ReparsedArgs(args[1..]);
    }
  }

  /** The round trip, with its exact condition: the text of a tree parses back to a structurally equal tree
      if and only if no literal is negative, infinite, NaN or a negative zero, no parameter reference is
      left, no `&&` stands directly right of `||`, and no relation directly right of an equality. */
  lemma RoundTripIff(name: string, body: Expr)
    ensures var back := ParseSignalDef(PrintSignal(name, body) + [TEof]);
      back.Ok? && back.rest == [] && back.value.0 == name && (AstEquals(back.value.1, body) <==> RoundTrips(body))
  {
    PrintedTextParses(name, body);
    SameTreeIff(body);
  }

  /** Formatted twice, `a || (b && c)` gains parentheses elsewhere. */
  lemma FormattingTwiceDiffers(a: string, b: string, c: string)
    ensures var e := Binary(Or, Ident(a), Binary(And, Ident(b), Ident(c)));
      var back := ParseExpr(Print(e, PREC_COND) + [TEof]);
      && back.Ok?
      && Print(e, PREC_COND) == [TIdent(a), TOp(Or), TIdent(b), TOp(And), TIdent(c)]
      && Print(back.value, PREC_COND) == [TLParen, TIdent(a), TOp(Or), TIdent(b), TRParen, TOp(And), TIdent(c)]
  {
    OrOfAndComesBackRegrouped(a, b, c);
    var left := Binary(Or, Ident(a), Ident(b));
    assert Print(left, 2) == [TLParen] + ([TIdent(a)] + [TOp(Or)] + [TIdent(b)]) + [TRParen];
    assert Print(Binary(And, Ident(b), Ident(c)), 2) == [TIdent(b)] + [TOp(And)] + [TIdent(c)];
    hide ParseExpr;
  }

  /** A program the parser accepts, `a || (b && c)`, is printed as `a || b && c`, which means `(a || b) && c`. */
  lemma OrOfAndComesBackRegrouped(a: string, b: string, c: string)
    ensures var src := [TIdent(a), TOp(Or), TLParen, TIdent(b), TOp(And), TIdent(c), TRParen, TEof];
      var e := Binary(Or, Ident(a), Binary(And, Ident(b), Ident(c)));
      && ParseExpr(src) == Ok(e, [TEof])
      && ParseExpr(Print(e, 0) + [TEof]) == Ok(Binary(And, Binary(Or, Ident(a), Ident(b)), Ident(c)), [TEof])
  {
    var bc := Binary(And, Ident(b), Ident(c));
    var e := Binary(Or, Ident(a), bc);
    PrintedTextParses("", e);
    assert Attach(Ident(a), Or, Ident(b)) == Binary(Or, Ident(a), Reparsed(Ident(b)));
    assert Attach(Ident(a), Or, bc) == Binary(And, Attach(Ident(a), Or, Ident(b)), Reparsed(Ident(c)));
    var src := [TIdent(a), TOp(Or), TLParen, TIdent(b), TOp(And), TIdent(c), TRParen, TEof];
    ParenthesisedOperand(b, c, src[2..]);
    hide ParseLevel, Print, Reparsed;
    assert src[1..][1..] == src[2..];
    assert Loop(LOGICAL, e, [TEof]) == Ok(e, [TEof]);
    assert Loop(LOGICAL, Ident(a), src[1..]) == Loop(LOGICAL, e, [TEof]);
    StopsAtOp(Or, src[2..]);
    assert src[1..] == [TOp(Or)] + src[2..];
    FromUnary(LOGICAL, src, Ident(a), src[1..]);
  }

  lemma ParenthesisedOperand(b: string, c: string, ts: seq<Token>)
    requires ts == [TLParen, TIdent(b), TOp(And), TIdent(c), TRParen, TEof]
    ensures ParseLevel(COMPARISON, ts) == Ok(Binary(And, Ident(b), Ident(c)), [TEof])
  {
    var bc := Binary(And, Ident(b), Ident(c));
    StopsAt(COMPARISON, TEof, []);
    assert [TEof] + [] == [TEof];
    assert ts == Print(bc, 3) + [TEof];
    assert Attach(Ident(b), And, Ident(c)) == Binary(And, Ident(b), Reparsed(Ident(c)));
    ParsesParens(bc, 3, [TEof]);
  }
}

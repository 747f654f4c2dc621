/** The round trip through the program parser, which folds constants and resolves parameters after parsing. */
module ProgramText {
  import opened Ast
  import opened Tokens
  import opened Formatter
  import opened Parser
  import opened RoundTrip
  import opened Evaluation

  /** Double arithmetic on literals, by its bits. */
  type Table = (BinaryOpKind, Bits64, Bits64) -> Bits64

  const MINUS_ONE: Bits64 := SIGN_BIT + ONE
  const MINUS_INFINITY: Bits64 := SIGN_BIT + INFINITY

  predicate IsNaN(b: Bits64) {
    Magnitude(b) > INFINITY
  }

  /** What the printer relies on: quotients by zero are infinite, and 0 / 0 is no number. */
  ghost predicate Ieee(fold: Table) {
    fold(Div, ONE, 0) == INFINITY && fold(Div, MINUS_ONE, 0) == MINUS_INFINITY && IsNaN(fold(Div, 0, 0))
  }

  function Flipped(b: Bits64): Bits64 {
    if Negative(b) then Magnitude(b) else b + SIGN_BIT
  }

  function FoldUnary(op: UnaryOpKind, x: Expr): Expr {
    if x.Num? then Num(if op == Minus then Flipped(x.bits) else x.bits) else Unary(op, x)
  }

  function FoldBinary(fold: Table, op: BinaryOpKind, l: Expr, r: Expr): Expr {
    if l.Num? && r.Num? then Num(fold(op, l.bits, r.bits)) else Binary(op, l, r)
  }

  function FoldCond(c: Expr, t: Expr, f: Expr): Expr {
    if c.Num? then (if Magnitude(c.bits) != 0 then t else f) else Cond(c, t, f)
  }

  function FoldConstants(fold: Table, e: Expr): Expr
    decreases e, 1
  {
    match e
    case Unary(op, x) => FoldUnary(op, FoldConstants(fold, x))
    case Binary(op, l, r) => FoldBinary(fold, op, FoldConstants(fold, l), FoldConstants(fold, r))
    case Cond(c, t, f) => FoldCond(FoldConstants(fold, c), FoldConstants(fold, t), FoldConstants(fold, f))
    case Call(n, args, id) => Call(n, FoldArgs(fold, args), id)
    case _ => e
  }

  function FoldArgs(fold: Table, args: seq<Expr>): (r: seq<Expr>)
    ensures |r| == |args|
    decreases args, 0
  {
    if args == [] then [] else [FoldConstants(fold, args[0])] + FoldArgs(fold, args[1..])
  }

  type Params = map<string, int>

  /** Identifiers that name a parameter become references to it, tickers apart. */
  function ResolveParams(params: Params, e: Expr): Expr
    decreases e, 1
  {
    match e
    case Ident(n) => if n in params then Param(n, params[n]) else e
    case Unary(op, x) => Unary(op, ResolveParams(params, x))
    case Binary(op, l, r) => Binary(op, ResolveParams(params, l), ResolveParams(params, r))
    case Cond(c, t, f) => Cond(ResolveParams(params, c), ResolveParams(params, t), ResolveParams(params, f))
    case Call(n, args, id) =>
      if IsTickerFn(n) && |args| > 0 then Call(n, [args[0]] + ResolveArgs(params, args[1..]), id)
      else Call(n, ResolveArgs(params, args), id)
    case _ => e
  }

  function ResolveArgs(params: Params, args: seq<Expr>): (r: seq<Expr>)
    ensures |r| == |args|
    decreases args, 0
  {
    if args == [] then [] else [ResolveParams(params, args[0])] + ResolveArgs(params, args[1..])
  }

  /** The body the program parser keeps of a line. */
  function Kept(fold: Table, params: Params, e: Expr): Expr {
    ResolveParams(params, FoldConstants(fold, e))
  }

  // ---- Which trees come back ----

  predicate NumberSurvives(fold: Table, b: Bits64) {
    if IsNaN(b) then b == fold(Div, 0, 0) else b != SIGN_BIT
  }

  /** The tree comes back: nothing in it is regrouped or folds, and its names mean what they meant.  `ticker`
      tells whether it stands where identifiers are not resolved. */
  predicate Survives(fold: Table, params: Params, e: Expr, ticker: bool)
    decreases e, 1
  {
    match e
    case Num(b) => NumberSurvives(fold, b)
    case Ident(n) => ticker || n !in params
    case Param(n, i) => !ticker && n in params && params[n] == i
    case Unary(_, x) => !x.Num? && Survives(fold, params, x, ticker)
    case Binary(op, l, r) =>
      !(l.Num? && r.Num?) && !Regroups(op, r) && Survives(fold, params, l, ticker) && Survives(fold, params, r, ticker)
    case Cond(c, t, f) =>
      !c.Num? && Survives(fold, params, c, ticker) && Survives(fold, params, t, ticker) &&
          Survives(fold, params, f, ticker)
    case Call(n, args, id) =>
      && id == NO_NODE
      && if ticker then SurviveArgs(fold, params, args, true)
         else if IsTickerFn(n) && |args| > 0 then
           Survives(fold, params, args[0], true) && SurviveArgs(fold, params, args[1..], false)
         else SurviveArgs(fold, params, args, false)
  }

  predicate SurviveArgs(fold: Table, params: Params, args: seq<Expr>, ticker: bool)
    decreases args, 0
  {
    args == [] || (Survives(fold, params, args[0], ticker) && SurviveArgs(fold, params, args[1..], ticker))
  }

  /** What comes back of `e` where identifiers are resolved, or in a ticker's place. */
  function Back(fold: Table, params: Params, e: Expr, ticker: bool): Expr {
    if ticker then FoldConstants(fold, Reparsed(e)) else Kept(fold, params, Reparsed(e))
  }

  lemma NumberBack(fold: Table, b: Bits64)
    requires Ieee(fold)
    ensures FoldConstants(fold, ReparsedNumber(b)).Num?
    ensures FoldConstants(fold, ReparsedNumber(b)) == Num(b) <==> NumberSurvives(fold, b)
  {
    assert Magnitude(b) == if Negative(b) then b - SIGN_BIT else b;
    assert Flipped(ONE) == MINUS_ONE;
    assert !Negative(Magnitude(b));
  }

  /** Folding and resolving a regrouped node gives another operator at the top, or a literal. */
  lemma {:induction false} RegroupedOtherwise(fold: Table, params: Params, acc: Expr, op: BinaryOpKind, r: Expr)
    requires Regroups(op, r)
    ensures var e := FoldConstants(fold, Attach(acc, op, r)); e.Num? || (e.Binary? && e.bop == r.bop && e.bop != op)
    ensures var e := Kept(fold, params, Attach(acc, op, r)); e.Num? || (e.Binary? && e.bop == r.bop && e.bop != op)
  {
  }

  /** Nothing that comes back is larger than what was printed. */
  lemma {:induction false} BackNotLarger(fold: Table, e: Expr)
    requires Ieee(fold)
    ensures Size(FoldConstants(fold, Reparsed(e))) <= Size(e)
    decreases e, 2
  {
    hide KindOf, Regroups, Ieee;
    match e
    case Num(b) => NumberBack(fold, b);
    case Unary(_, x) => BackNotLarger(fold, x);
    case Binary(op, l, r) =>
      BackNotLarger(fold, l);
      AttachNotLarger(fold, Reparsed(l), op, r);
    case Cond(c, t, f) =>
      BackNotLarger(fold, c);
      BackNotLarger(fold, t);
      BackNotLarger(fold, f);
    case Call(_, args, _) => ArgsNotLarger(fold, args);
    case _ => {}
  }

  lemma {:induction false} AttachNotLarger(fold: Table, acc: Expr, op: BinaryOpKind, r: Expr)
    requires Ieee(fold)
    ensures Size(FoldConstants(fold, Attach(acc, op, r))) <= Size(FoldConstants(fold, acc)) + 1 + Size(r)
    decreases r, 3
  {
    hide KindOf, Ieee;
    if Regroups(op, r) {
      AttachNotLarger(fold, acc, op, r.left);
      BackNotLarger(fold, r.right);
    } else {
      BackNotLarger(fold, r);
    }
  }

  lemma {:induction false} ArgsNotLarger(fold: Table, args: seq<Expr>)
    requires Ieee(fold)
    ensures SizeArgs(FoldArgs(fold, ReparsedArgs(args))) <= SizeArgs(args)
    decreases args, 2
  {
    if args != [] {
      BackNotLarger(fold, args[0]);
      ArgsNotLarger(fold, args[1..]);
      assert ReparsedArgs(args)[1..] == ReparsedArgs(args[1..]);
      var a, rest := FoldConstants(fold, Reparsed(args[0])), FoldArgs(fold, ReparsedArgs(args[1..]));
      assert ([a] + rest)[1..] == rest;
    }
  }

  lemma {:induction false} ResolveKeepsSize(params: Params, e: Expr)
    ensures Size(ResolveParams(params, e)) == Size(e)
    decreases e, 1
  {
    hide KindOf;
    match e
    case Unary(_, x) => ResolveKeepsSize(params, x);
    case Binary(_, l, r) => ResolveKeepsSize(params, l); ResolveKeepsSize(params, r);
    case Cond(c, t, f) => ResolveKeepsSize(params, c); ResolveKeepsSize(params, t); ResolveKeepsSize(params, f);
    case Call(n, args, _) =>
      ResolveArgsKeepSize(params, args);
      if IsTickerFn(n) && |args| > 0 {
        ResolveArgsKeepSize(params, args[1..]);
        assert ([args[0]] + ResolveArgs(params, args[1..]))[1..] == ResolveArgs(params, args[1..]);
      }
    case _ => {}
  }

  lemma {:induction false} ResolveArgsKeepSize(params: Params, args: seq<Expr>)
    ensures SizeArgs(ResolveArgs(params, args)) == SizeArgs(args)
    decreases args, 0
  {
    if args != [] {
      ResolveKeepsSize(params, args[0]);
      ResolveArgsKeepSize(params, args[1..]);
      assert ResolveArgs(params, args)[1..] == ResolveArgs(params, args[1..]);
    }
  }

  lemma CondFolds(fold: Table, e: Expr)
    requires e.Cond?
    ensures FoldConstants(fold, e) ==
      FoldCond(FoldConstants(fold, e.cond), FoldConstants(fold, e.thn), FoldConstants(fold, e.els))
  {
  }

  /** A condition that became a literal takes its node away with it. */
  lemma FoldedCond(fold: Table, params: Params, e: Expr, ticker: bool)
    requires Ieee(fold) && e.Cond? && FoldConstants(fold, Reparsed(e.cond)).Num?
    ensures Back(fold, params, e, ticker) != e
  {
    BackNotLarger(fold, e.thn);
    BackNotLarger(fold, e.els);
    ResolveKeepsSize(params, FoldConstants(fold, Reparsed(e)));
    CondFolds(fold, Reparsed(e));
    hide FoldConstants, ResolveParams;
  }

  lemma {:induction false} SurvivesIff(fold: Table, params: Params, e: Expr, ticker: bool)
    requires Ieee(fold)
    ensures Back(fold, params, e, ticker) == e <==> Survives(fold, params, e, ticker)
    decreases e, 1
  {
    hide KindOf, Regroups;
    match e
    case Num(b) => NumberBack(fold, b);
    case Ident(_) => {}
    case Param(_, _) => {}
    case Unary(_, x) => SurvivesIff(fold, params, x, ticker);
    case Binary(op, l, r) => SurvivesBinary(fold, params, e, ticker);
    case Cond(c, t, f) =>
      SurvivesIff(fold, params, c, ticker);
      SurvivesIff(fold, params, t, ticker);
      SurvivesIff(fold, params, f, ticker);
      if FoldConstants(fold, Reparsed(c)).Num? { FoldedCond(fold, params, e, ticker); }
    case Call(_, _, _) => SurvivesCall(fold, params, e, ticker);
  }

  lemma {:induction false} SurvivesBinary(fold: Table, params: Params, e: Expr, ticker: bool)
    requires Ieee(fold) && e.Binary?
    ensures Back(fold, params, e, ticker) == e <==> Survives(fold, params, e, ticker)
    decreases e, 0
  {
    SurvivesIff(fold, params, e.left, ticker);
    SurvivesIff(fold, params, e.right, ticker);
    if Regroups(e.bop, e.right) {
      RegroupedOtherwise(fold, params, Reparsed(e.left), e.bop, e.right);
    } else {
      BinaryBack(fold, params, e.bop, e.left, e.right, ticker);
    }
  }

  lemma BinaryBack(fold: Table, params: Params, op: BinaryOpKind, l: Expr, r: Expr, ticker: bool)
    requires !Regroups(op, r)
    ensures Back(fold, params, Binary(op, l, r), ticker) ==
      FoldBinary(fold, op, Back(fold, params, l, ticker), Back(fold, params, r, ticker))
  {
    hide Regroups, KindOf;
    assert Reparsed(Binary(op, l, r)) == Binary(op, Reparsed(l), Reparsed(r));
  }

  lemma {:induction false} SurvivesCall(fold: Table, params: Params, e: Expr, ticker: bool)
    requires Ieee(fold) && e.Call?
    ensures Back(fold, params, e, ticker) == e <==> Survives(fold, params, e, ticker)
    decreases e, 0
  {
    hide KindOf;
    SurviveArgsIff(fold, params, e.args, ticker);
    if !ticker && IsTickerFn(e.name) && |e.args| > 0 {
      SurvivesIff(fold, params, e.args[0], true);
      SurviveArgsIff(fold, params, e.args[1..], false);
    }
  }

  function BackArgs(fold: Table, params: Params, args: seq<Expr>, ticker: bool): seq<Expr> {
    if ticker then FoldArgs(fold, ReparsedArgs(args)) else ResolveArgs(params, FoldArgs(fold, ReparsedArgs(args)))
  }

  lemma {:induction false} SurviveArgsIff(fold: Table, params: Params, args: seq<Expr>, ticker: bool)
    requires Ieee(fold)
    ensures BackArgs(fold, params, args, ticker) == args <==> SurviveArgs(fold, params, args, ticker)
    decreases args, 0
  {
    if args != [] {
      hide Back, BackArgs, Survives;
      SurvivesIff(fold, params, args[0], ticker);
      SurviveArgsIff(fold, params, args[1..], ticker);
      BackCons(fold, params, args, ticker);
      assert args == [args[0]] + args[1..];
    }
  }

  lemma BackCons(fold: Table, params: Params, args: seq<Expr>, ticker: bool)
    requires args != []
    ensures BackArgs(fold, params, args, ticker) ==
            [Back(fold, params, args[0], ticker)] + BackArgs(fold, params, args[1..], ticker)
  {
    hide Reparsed, FoldConstants, ResolveParams;
    assert ReparsedArgs(args)[1..] == ReparsedArgs(args[1..]);
    var folded := FoldArgs(fold, ReparsedArgs(args));
    assert folded[1..] == FoldArgs(fold, ReparsedArgs(args[1..]));
  }

  /** The round trip through the program parser, with its exact condition: what it keeps of the printed line is
      the very tree that was printed, if and only if the tree survives. */
  lemma ProgramRoundTripIff(fold: Table, params: Params, name: string, body: Expr)
    requires Ieee(fold)
    ensures var back := ParseSignalDef(PrintSignal(name, body) + [TEof]);
      back.Ok? && back.value.0 == name &&
          (Kept(fold, params, back.value.1) == body <==> Survives(fold, params, body, false))
  {
    PrintedTextParses(name, body);
    SurvivesIff(fold, params, body, false);
  }

  // ---- Trees the program parser itself returned ----

  /** What the parser of one line returns: no parameter references yet, no ids. */
  predicate FromParser(e: Expr)
    decreases e, 1
  {
    match e
    case Param(_, _) => false
    case Unary(_, x) => FromParser(x)
    case Binary(_, l, r) => FromParser(l) && FromParser(r)
    case Cond(c, t, f) => FromParser(c) && FromParser(t) && FromParser(f)
    case Call(_, args, id) => id == NO_NODE && AllFromParser(args)
    case _ => true
  }

  predicate AllFromParser(args: seq<Expr>)
    decreases args, 0
  {
    args == [] || (FromParser(args[0]) && AllFromParser(args[1..]))
  }

  /** No node regroups and every literal survives. */
  predicate Printable(fold: Table, e: Expr)
    decreases e, 1
  {
    match e
    case Num(b) => NumberSurvives(fold, b)
    case Unary(_, x) => Printable(fold, x)
    case Binary(op, l, r) => !Regroups(op, r) && Printable(fold, l) && Printable(fold, r)
    case Cond(c, t, f) => Printable(fold, c) && Printable(fold, t) && Printable(fold, f)
    case Call(_, args, _) => AllPrintable(fold, args)
    case _ => true
  }

  predicate AllPrintable(fold: Table, args: seq<Expr>)
    decreases args, 0
  {
    args == [] || (Printable(fold, args[0]) && AllPrintable(fold, args[1..]))
  }

  function KeptAt(fold: Table, params: Params, e: Expr, ticker: bool): Expr {
    if ticker then FoldConstants(fold, e) else Kept(fold, params, e)
  }

  function KeptArgs(fold: Table, params: Params, args: seq<Expr>, ticker: bool): seq<Expr> {
    if ticker then FoldArgs(fold, args) else ResolveArgs(params, FoldArgs(fold, args))
  }

  lemma {:induction false} KeptSurvives(fold: Table, params: Params, e: Expr, ticker: bool)
    requires FromParser(e)
    ensures var k := KeptAt(fold, params, e, ticker); Survives(fold, params, k, ticker) <==> Printable(fold, k)
    decreases e, 1
  {
    hide KindOf, Regroups, NumberSurvives;
    match e
    case Unary(_, x) => KeptSurvives(fold, params, x, ticker);
    case Binary(_, l, r) => KeptSurvives(fold, params, l, ticker); KeptSurvives(fold, params, r, ticker);
    case Cond(c, t, f) =>
      KeptSurvives(fold, params, c, ticker);
      KeptSurvives(fold, params, t, ticker);
      KeptSurvives(fold, params, f, ticker);
    case Call(_, _, _) => KeptCallSurvives(fold, params, e, ticker);
    case _ => {}
  }

  lemma {:induction false} KeptCallSurvives(fold: Table, params: Params, e: Expr, ticker: bool)
    requires FromParser(e) && e.Call?
    ensures var k := KeptAt(fold, params, e, ticker); Survives(fold, params, k, ticker) <==> Printable(fold, k)
    decreases e, 0
  {
    hide KindOf, Regroups;
    var args := e.args;
    KeptArgsSurvive(fold, params, args, ticker);
    if !ticker && IsTickerFn(e.name) && |args| > 0 {
      KeptSurvives(fold, params, args[0], true);
      KeptArgsSurvive(fold, params, args[1..], false);
      var a, rest := FoldConstants(fold, args[0]), FoldArgs(fold, args[1..]);
      assert FoldArgs(fold, args)[1..] == rest;
      assert ([a] + ResolveArgs(params, rest))[1..] == ResolveArgs(params, rest);
    }
  }

  lemma {:induction false} KeptArgsSurvive(fold: Table, params: Params, args: seq<Expr>, ticker: bool)
    requires AllFromParser(args)
    ensures var k := KeptArgs(fold, params, args, ticker); SurviveArgs(fold, params, k, ticker) <==>
            AllPrintable(fold, k)
    decreases args, 0
  {
    if args != [] {
      KeptSurvives(fold, params, args[0], ticker);
      KeptArgsSurvive(fold, params, args[1..], ticker);
      assert FoldArgs(fold, args)[1..] == FoldArgs(fold, args[1..]);
      var a, rest := KeptAt(fold, params, args[0], ticker), KeptArgs(fold, params, args[1..], ticker);
      assert KeptArgs(fold, params, args, ticker) == [a] + rest;
      assert ([a] + rest)[1..] == rest;
    }
  }

  lemma {:induction false} ExprForm(ts: seq<Token>)
    ensures ParseExpr(ts).Ok? ==> FromParser(ParseExpr(ts).value)
    decreases |ts|, 8
  {
    if !Peek(ts).TIf? {
      LevelForm(LOGICAL, ts);
    } else {
      ExprForm(ts[1..]);
      var c := ParseExpr(ts[1..]);
      if c.Ok? && Peek(c.rest).TThen? {
        ExprForm(c.rest[1..]);
        var t := ParseExpr(c.rest[1..]);
        if t.Ok? && Peek(t.rest).TElse? { ExprForm(t.rest[1..]); }
      }
    }
  }

  lemma {:induction false} LevelForm(k: nat, ts: seq<Token>)
    requires k <= UNARY
    ensures ParseLevel(k, ts).Ok? ==> FromParser(ParseLevel(k, ts).value)
    decreases |ts|, 7 - k
  {
    if k == UNARY {
      UnaryForm(ts);
    } else {
      LevelForm(k + 1, ts);
      var first := ParseLevel(k + 1, ts);
      if first.Ok? { LoopForm(k, first.value, first.rest); }
    }
  }

  lemma {:induction false} LoopForm(k: nat, acc: Expr, ts: seq<Token>)
    requires k <= UNARY && FromParser(acc)
    ensures Loop(k, acc, ts).Ok? ==> FromParser(Loop(k, acc, ts).value)
    decreases |ts|, 7 - k
  {
    if OpAt(k, Peek(ts)) {
      LevelForm(k + 1, ts[1..]);
      var r := ParseLevel(k + 1, ts[1..]);
      if r.Ok? { LoopForm(k, Binary(ts[0].op, acc, r.value), r.rest); }
    }
  }

  lemma {:induction false} UnaryForm(ts: seq<Token>)
    ensures ParseUnary(ts).Ok? ==> FromParser(ParseUnary(ts).value)
    decreases |ts|, 2
  {
    if OpAt(TERM, Peek(ts)) {
      UnaryForm(ts[1..]);
    } else {
      PrimaryForm(ts);
    }
  }

  lemma {:induction false} PrimaryForm(ts: seq<Token>)
    ensures ParsePrimary(ts).Ok? ==> FromParser(ParsePrimary(ts).value)
    decreases |ts|, 1
  {
    if Peek(ts).TIdent? && Peek(ts[1..]).TLParen? {
      if !Peek(ts[2..]).TRParen? { ArgsForm(ts[2..]); }
    } else if Peek(ts).TLParen? {
      ExprForm(ts[1..]);
    }
  }

  lemma {:induction false} ArgsForm(ts: seq<Token>)
    ensures ParseArgs(ts).Ok? ==> AllFromParser(ParseArgs(ts).value)
    decreases |ts|, 9
  {
    ExprForm(ts);
    var first := ParseExpr(ts);
    if first.Ok? {
      if Peek(first.rest).TComma? {
        ArgsForm(first.rest[1..]);
        var more := ParseArgs(first.rest[1..]);
        if more.Ok? { assert ([first.value] + more.value)[1..] == more.value; }
      } else {
        assert [first.value][1..] == [];
      }
    }
  }

  /** The promise of the header, for every line the parser accepts: what the program keeps of it is printed, read
      and kept again as the same tree if and only if no `&&` stands directly right of `||`, no relation directly
      right of an equality, and no literal is a negative zero or a NaN other than that of 0 / 0. */
  lemma AcceptedRoundTripIff(fold: Table, params: Params, line: seq<Token>)
    requires Ieee(fold) && ParseSignalDef(line).Ok?
    ensures var (name, source) := ParseSignalDef(line).value;
      var body := Kept(fold, params, source);
      var back := ParseSignalDef(PrintSignal(name, body) + [TEof]);
      back.Ok? && back.value.0 == name && (Kept(fold, params, back.value.1) == body <==> Printable(fold, body))
  {
    var (name, source) := ParseSignalDef(line).value;
    ExprForm(line[3..]);
    ProgramRoundTripIff(fold, params, name, Kept(fold, params, source));
    KeptSurvives(fold, params, source, false);
  }
}

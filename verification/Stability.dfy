/** Formatting twice: for which trees the text of what comes back is the text itself.

    Both texts have the same tokens but for parentheses, so they are compared by the depth of each token. */
module Stability {
  import opened Ast
  import opened Tokens
  import opened Formatter
  import opened Parser
  import opened RoundTrip

  /** No node regroups, and no NaN or infinity stands where its division needs no parentheses. */
  predicate Stable(e: Expr, outer: nat)
    decreases e, 1
  {
    match e
    case Num(b) => Magnitude(b) < INFINITY || outer >= PREC_UNARY
    case Ident(_) => true
    case Param(_, _) => true
    case Unary(_, x) => Stable(x, PREC_UNARY)
    case Binary(op, l, r) => !Regroups(op, r) && Stable(l, BinaryPrec(op)) && Stable(r, BinaryPrec(op) + 1)
    case Cond(c, t, f) => Stable(c, 1) && Stable(t, 1) && Stable(f, PREC_COND)
    case Call(_, args, _) => StableArgs(args)
  }

  predicate StableArgs(args: seq<Expr>)
    decreases args, 0
  {
    args == [] || (Stable(args[0], PREC_COND) && StableArgs(args[1..]))
  }

  predicate IsParen(t: Token) {
    t.TLParen? || t.TRParen?
  }

  /** The tokens without parentheses. */
  function Bare(ts: seq<Token>): seq<Token> {
    if ts == [] then [] else if IsParen(ts[0]) then Bare(ts[1..]) else [ts[0]] + Bare(ts[1..])
  }

  /** How far the parentheses open. */
  function Net(ts: seq<Token>): int {
    if ts == [] then 0 else (if ts[0].TLParen? then 1 else if ts[0].TRParen? then -1 else 0) + Net(ts[1..])
  }

  /** The depth of each token that is no parenthesis. */
  function Depths(ts: seq<Token>, d: int): (r: seq<int>)
    ensures |r| == |Bare(ts)|
  {
    if ts == [] then []
    else if ts[0].TLParen? then Depths(ts[1..], d + 1)
    else if ts[0].TRParen? then Depths(ts[1..], d - 1)
    else [d] + Depths(ts[1..], d)
  }

  lemma {:induction false} BareAppends(a: seq<Token>, b: seq<Token>)
    ensures Bare(a + b) == Bare(a) + Bare(b) && Net(a + b) == Net(a) + Net(b)
    decreases |a|
  {
    if a == [] {
      assert a + b == b;
    } else {
      BareAppends(a[1..], b);
      assert (a + b)[1..] == a[1..] + b && (a + b)[0] == a[0];
    }
  }

  lemma {:induction false} DepthAppends(a: seq<Token>, b: seq<Token>, d: int)
    ensures Depths(a + b, d) == Depths(a, d) + Depths(b, d + Net(a))
    decreases |a|
  {
    hide Bare;
    if a == [] {
      assert a + b == b;
    } else {
      DepthAppends(a[1..], b, if a[0].TLParen? then d + 1 else if a[0].TRParen? then d - 1 else d);
      assert (a + b)[1..] == a[1..] + b && (a + b)[0] == a[0];
    }
  }

  lemma Appends(a: seq<Token>, b: seq<Token>, d: int)
    ensures Bare(a + b) == Bare(a) + Bare(b) && Net(a + b) == Net(a) + Net(b)
    ensures Depths(a + b, d) == Depths(a, d) + Depths(b, d + Net(a))
  {
    BareAppends(a, b);
    DepthAppends(a, b, d);
    hide Bare, Net, Depths;
  }

  lemma One(t: Token, d: int)
    ensures Bare([t]) == if IsParen(t) then [] else [t]
    ensures Net([t]) == if t.TLParen? then 1 else if t.TRParen? then -1 else 0
    ensures Depths([t], d) == if IsParen(t) then [] else [d]
  {
    assert [t][1..] == [];
  }

  /** Balanced text around one token. */
  lemma Around(a: seq<Token>, t: Token, b: seq<Token>, d: int)
    requires Net(a) == 0 && !IsParen(t)
    ensures Bare(a + [t] + b) == Bare(a) + [t] + Bare(b) && Net(a + [t] + b) == Net(b)
    ensures Depths(a + [t] + b, d) == Depths(a, d) + [d] + Depths(b, d)
  {
    One(t, d);
    Appends(a, [t], d);
    Appends(a + [t], b, d);
  }

  lemma Inside(needed: bool, body: seq<Token>, d: int)
    ensures Bare(Parens(needed, body)) == Bare(body) && Net(Parens(needed, body)) == Net(body)
    ensures Depths(Parens(needed, body), d) == Depths(body, if needed then d + 1 else d)
  {
    if needed {
      One(TLParen, d);
      One(TRParen, d + 1 + Net(body));
      Appends([TLParen], body, d);
      Appends([TLParen] + body, [TRParen], d);
    }
  }

  /** Two texts with the same bare tokens before a separator agree only part by part. */
  lemma SplitsAlike(a: seq<Token>, t: Token, b: seq<Token>, c: seq<Token>, e: seq<Token>)
    requires !IsParen(t) && Bare(a) == Bare(c)
    ensures a + [t] + b == c + [t] + e <==> a == c && b == e
  {
    if a + [t] + b == c + [t] + e {
      if |a| < |c| {
        Longer(a, t, c, b, e);
      } else if |c| < |a| {
        Longer(c, t, a, e, b);
      }
      assert (a + [t] + b)[..|a|] == a && (c + [t] + e)[..|c|] == c;
      assert (a + [t] + b)[|a| + 1..] == b && (c + [t] + e)[|c| + 1..] == e;
    }
  }

  lemma Longer(a: seq<Token>, t: Token, c: seq<Token>, b: seq<Token>, e: seq<Token>)
    requires a + [t] + b == c + [t] + e && |a| < |c| && !IsParen(t)
    ensures Bare(a) != Bare(c)
  {
    var rest := c[|a| + 1..];
    assert c == a + [t] + rest by {
      assert c == (c + [t] + e)[..|c|] == (a + [t] + b)[..|c|];
      assert c[..|a|] == (a + [t] + b)[..|a|] == a && c[|a|] == (a + [t] + b)[|a|] == t;
    }
    One(t, 0);
    Appends(a, [t], 0);
    Appends(a + [t], rest, 0);
  }

  // ---- The bare tokens of a tree ----

  function Plain(e: Expr): seq<Token>
    decreases e, 1
  {
    match e
    case Num(b) => Bare(FormatNumber(b))
    case Ident(n) => [TIdent(n)]
    case Param(n, _) => [TIdent(n)]
    case Unary(op, x) => [UnaryToken(op)] + Plain(x)
    case Binary(op, l, r) => Plain(l) + [TOp(op)] + Plain(r)
    case Cond(c, t, f) => [TIf] + Plain(c) + [TThen] + Plain(t) + [TElse] + Plain(f)
    case Call(n, args, _) => [TIdent(n)] + PlainArgs(args)
  }

  function PlainArgs(args: seq<Expr>): seq<Token>
    decreases args, 0
  {
    if args == [] then [] else Plain(args[0]) + if |args| == 1 then [] else [TComma] + PlainArgs(args[1..])
  }

  ghost predicate PrintsPlain(ts: seq<Token>, bare: seq<Token>) {
    Net(ts) == 0 && Bare(ts) == bare
  }

  lemma BareTop(ts: seq<Token>)
    requires forall i | 0 <= i < |ts| :: !IsParen(ts[i])
    ensures Bare(ts) == ts && Net(ts) == 0
  {
    if ts != [] { BareTop(ts[1..]); }
  }

  lemma PlainParens(needed: bool, body: seq<Token>, bare: seq<Token>)
    requires PrintsPlain(body, bare)
    ensures PrintsPlain(Parens(needed, body), bare)
  {
    Inside(needed, body, 0);
  }

  lemma PlainAround(a: seq<Token>, x: seq<Token>, t: Token, b: seq<Token>, y: seq<Token>)
    requires PrintsPlain(a, x) && PrintsPlain(b, y) && !IsParen(t)
    ensures PrintsPlain(a + [t] + b, x + [t] + y)
  {
    Around(a, t, b, 0);
  }

  lemma PlainAfter(t: Token, b: seq<Token>, y: seq<Token>)
    requires PrintsPlain(b, y) && !IsParen(t)
    ensures PrintsPlain([t] + b, [t] + y)
  {
    PlainAround([], [], t, b, y);
    assert [] + [t] + b == [t] + b && [] + [t] + y == [t] + y;
  }

  lemma NumberPlain(b: Bits64)
    ensures Net(FormatNumber(b)) == 0
  {
    assert [TOp(Sub), TNumber(Magnitude(b))][1..] == [TNumber(Magnitude(b))];
    if Magnitude(b) >= INFINITY {
      var body := Quotient(b);
      BareTop(body);
      Inside(true, body, 0);
      assert [TLParen] + body + [TRParen] == FormatNumber(b);
    } else {
      BareTop(FormatNumber(b));
    }
  }

  /** The division that stands for NaN or an infinity. */
  function Quotient(b: Bits64): seq<Token> {
    if Magnitude(b) > INFINITY then [TNumber(0), TOp(Div), TNumber(0)]
    else if b == INFINITY then [TNumber(ONE), TOp(Div), TNumber(0)]
    else [TOp(Sub), TNumber(ONE), TOp(Div), TNumber(0)]
  }

  lemma {:induction false} PrintPlain(e: Expr, outer: nat)
    ensures PrintsPlain(Print(e, outer), Plain(e))
    decreases e, 1
  {
    hide Parens, Bare, Net;
    match e
    case Num(b) => NumberPlain(b);
    case Ident(n) => BareTop([TIdent(n)]);
    case Param(n, _) => BareTop([TIdent(n)]);
    case Unary(op, x) =>
      PrintPlain(x, PREC_UNARY);
      PlainAfter(UnaryToken(op), Print(x, PREC_UNARY), Plain(x));
      PlainParens(PREC_UNARY < outer, [UnaryToken(op)] + Print(x, PREC_UNARY), Plain(e));
    case Binary(op, l, r) =>
      var p := BinaryPrec(op);
      PrintPlain(l, p);
      PrintPlain(r, p + 1);
      PlainAround(Print(l, p), Plain(l), TOp(op), Print(r, p + 1), Plain(r));
      PlainParens(p < outer, Print(l, p) + [TOp(op)] + Print(r, p + 1), Plain(e));
    case Cond(c, t, f) =>
      PrintPlain(c, 1);
      PrintPlain(t, 1);
      PrintPlain(f, PREC_COND);
      PlainAfter(TIf, Print(c, 1), Plain(c));
      PlainAround([TIf] + Print(c, 1), [TIf] + Plain(c), TThen, Print(t, 1), Plain(t));
      PlainAround([TIf] + Print(c, 1) + [TThen] + Print(t, 1), [TIf] + Plain(c) + [TThen] + Plain(t), TElse,
                  Print(f, PREC_COND), Plain(f));
      PlainParens(PREC_COND < outer, [TIf] + Print(c, 1) + [TThen] + Print(t, 1) + [TElse] + Print(f, PREC_COND),
                  Plain(e));
    case Call(n, args, _) =>
      PrintPlainArgs(args);
      PlainParens(true, PrintArgs(args), PlainArgs(args));
      PlainAfter(TIdent(n), Parens(true, PrintArgs(args)), PlainArgs(args));
      ParensOfArgs(n, PrintArgs(args));
  }

  lemma ParensOfArgs(n: string, args: seq<Token>)
    ensures [TIdent(n), TLParen] + args + [TRParen] == [TIdent(n)] + Parens(true, args)
  {
  }

  lemma {:induction false} PrintPlainArgs(args: seq<Expr>)
    ensures PrintsPlain(PrintArgs(args), PlainArgs(args))
    decreases args, 0
  {
    if args != [] {
      PrintPlain(args[0], PREC_COND);
      ArgsPrint(args);
      if |args| > 1 {
        PrintPlainArgs(args[1..]);
        PlainAround(Print(args[0], PREC_COND), Plain(args[0]), TComma, PrintArgs(args[1..]), PlainArgs(args[1..]));
      }
      PlainOfArgs(args);
      hide Print, PrintArgs, Plain, PlainArgs, Bare, Net;
    }
  }

  lemma PlainOfArgs(args: seq<Expr>)
    requires args != []
    ensures PlainArgs(args) ==
      if |args| > 1 then Plain(args[0]) + [TComma] + PlainArgs(args[1..]) else Plain(args[0])
  {
    hide Plain;
    ThreeParts(Plain(args[0]), TComma, PlainArgs(args[1..]));
  }

  lemma ThreeParts(a: seq<Token>, t: Token, b: seq<Token>)
    ensures a + ([t] + b) == a + [t] + b && a + [] == a
  {
  }

  /** Reparsing keeps them. */
  lemma {:induction false} ReparsedPlain(e: Expr)
    ensures Plain(Reparsed(e)) == Plain(e)
    decreases e, 1
  {
    match e
    case Num(b) => ReparsedNumberPlain(b);
    case Ident(_) => {}
    case Param(_, _) => {}
    case Unary(_, x) => ReparsedPlain(x);
    case Binary(op, l, r) =>
      ReparsedPlain(l);
      AttachPlain(Reparsed(l), op, r);
    case Cond(c, t, f) => ReparsedPlain(c); ReparsedPlain(t); ReparsedPlain(f);
    case Call(_, args, _) => ReparsedPlainArgs(args);
  }

  lemma {:induction false} AttachPlain(acc: Expr, op: BinaryOpKind, r: Expr)
    ensures Plain(Attach(acc, op, r)) == Plain(acc) + [TOp(op)] + Plain(r)
    decreases r, 2
  {
    if Regroups(op, r) {
      AttachPlain(acc, op, r.left);
      ReparsedPlain(r.right);
      Associates(Plain(acc), TOp(op), Plain(r.left), TOp(r.bop), Plain(r.right));
    } else {
      ReparsedPlain(r);
    }
  }

  lemma Associates(a: seq<Token>, t: Token, b: seq<Token>, u: Token, c: seq<Token>)
    ensures (a + [t] + b) + [u] + c == a + [t] + (b + [u] + c)
  {
  }

  lemma {:induction false} ReparsedPlainArgs(args: seq<Expr>)
    ensures PlainArgs(ReparsedArgs(args)) == PlainArgs(args)
    decreases args, 0
  {
    if args != [] {
      ReparsedPlain(args[0]);
      ReparsedPlainArgs(args[1..]);
      assert ReparsedArgs(args)[1..] == ReparsedArgs(args[1..]);
    }
  }

  lemma ReparsedNumberPlain(b: Bits64)
    ensures Plain(ReparsedNumber(b)) == Bare(FormatNumber(b))
  {
    if Magnitude(b) >= INFINITY {
      QuotientPlain(b);
      BareTop(Quotient(b));
      Inside(true, Quotient(b), 0);
      assert [TLParen] + Quotient(b) + [TRParen] == FormatNumber(b);
    } else {
      BareTop(FormatNumber(b));
      NumberIsPlain(0);
      NumberIsPlain(Magnitude(b));
      if Magnitude(b) != 0 && Negative(b) { assert FormatNumber(b) == [TOp(Sub)] + [TNumber(Magnitude(b))]; }
    }
    hide Bare, Parens;
  }

  lemma NumberIsPlain(b: Bits64)
    requires b < INFINITY
    ensures Plain(Num(b)) == [TNumber(b)]
  {
    assert FormatNumber(b) == [TNumber(b)];
    BareTop([TNumber(b)]);
  }

  lemma QuotientPlain(b: Bits64)
    requires Magnitude(b) >= INFINITY
    ensures Plain(ReparsedNumber(b)) == Quotient(b)
  {
    NumberIsPlain(0);
    NumberIsPlain(ONE);
    hide FormatNumber, Bare;
    if Magnitude(b) == INFINITY && b != INFINITY {
      assert Plain(Unary(Minus, Num(ONE))) == [TOp(Sub), TNumber(ONE)];
      assert [TOp(Sub), TNumber(ONE)] + [TOp(Div)] + [TNumber(0)] == Quotient(b);
    }
  }

  // ---- The comparison ----

  /** Two texts around a separator, perhaps in parentheses. */
  function Joined(needed: bool, a: seq<Token>, t: Token, b: seq<Token>): seq<Token> {
    Parens(needed, a + [t] + b)
  }

  function Deeper(needed: bool, d: int): int {
    if needed then d + 1 else d
  }

  lemma DepthAt(needed: bool, a: seq<Token>, t: Token, b: seq<Token>, d: int, i: nat)
    requires Net(a) == 0 && !IsParen(t) && i < |Bare(a)| + 1 + |Bare(b)|
    ensures |Depths(Joined(needed, a, t, b), d)| == |Bare(a)| + 1 + |Bare(b)|
    ensures var n, inner := |Bare(a)|, Deeper(needed, d);
      Depths(Joined(needed, a, t, b), d)[i] ==
        if i < n then Depths(a, inner)[i] else if i == n then inner else Depths(b, inner)[i - n - 1]
  {
    var inner := Deeper(needed, d);
    Around(a, t, b, inner);
    Inside(needed, a + [t] + b, d);
    hide Depths, Bare, Net, Parens;
    Pick(Depths(a, inner), inner, Depths(b, inner), i);
  }

  lemma Pick(a: seq<int>, x: int, b: seq<int>, i: nat)
    requires i < |a| + 1 + |b|
    ensures (a + [x] + b)[i] == if i < |a| then a[i] else if i == |a| then x else b[i - |a| - 1]
  {
  }

  lemma SameJoined(needed: bool, a: seq<Token>, t: Token, b: seq<Token>, c: seq<Token>, e: seq<Token>)
    requires !IsParen(t) && Bare(a) == Bare(c)
    ensures Joined(needed, a, t, b) == Joined(needed, c, t, e) <==> a == c && b == e
  {
    hide Bare, Parens;
    SplitsAlike(a, t, b, c, e);
    SameParens(needed, a + [t] + b, c + [t] + e);
  }

  lemma SameParens(needed: bool, a: seq<Token>, b: seq<Token>)
    ensures Parens(needed, a) == Parens(needed, b) <==> a == b
  {
    if needed && Parens(needed, a) == Parens(needed, b) {
      var x, y := [TLParen] + a + [TRParen], [TLParen] + b + [TRParen];
      assert x[1..|x| - 1] == a && y[1..|y| - 1] == b;
    }
  }

  lemma SameAfter(t: Token, a: seq<Token>, b: seq<Token>)
    ensures [t] + a == [t] + b <==> a == b
  {
    if [t] + a == [t] + b { assert ([t] + a)[1..] == a && ([t] + b)[1..] == b; }
  }

  /** Both prints of a tree have its bare tokens. */
  lemma BothPlain(e: Expr, outer: nat)
    ensures Bare(Print(Reparsed(e), outer)) == Bare(Print(e, outer)) == Plain(e)
  {
    PrintPlain(e, outer);
    PrintPlain(Reparsed(e), outer);
    ReparsedPlain(e);
  }

  lemma BinaryPrints(op: BinaryOpKind, l: Expr, r: Expr, outer: nat)
    ensures Print(Binary(op, l, r), outer)
         == Joined(BinaryPrec(op) < outer, Print(l, BinaryPrec(op)), TOp(op), Print(r, BinaryPrec(op) + 1))
  {
    hide Parens;
  }

  lemma AttachPrints(acc: Expr, op: BinaryOpKind, r: Expr, outer: nat)
    requires Regroups(op, r)
    ensures BinaryPrec(r.bop) == BinaryPrec(op) + 1
    ensures var q := BinaryPrec(r.bop);
      Print(Attach(acc, op, r), outer)
        == Joined(q < outer, Print(Attach(acc, op, r.left), q), TOp(r.bop), Print(Reparsed(r.right), q + 1))
  {
    BinaryPrints(r.bop, Attach(acc, op, r.left), Reparsed(r.right), outer);
    hide Print, Joined;
  }

  /** The regrouped operator goes one level deeper, into parentheses. */
  lemma {:induction false} AttachDepth(acc: Expr, op: BinaryOpKind, r: Expr, d: int)
    ensures |Plain(acc)| < |Depths(Print(Attach(acc, op, r), BinaryPrec(op) + 1), d)|
    ensures Depths(Print(Attach(acc, op, r), BinaryPrec(op) + 1), d)[|Plain(acc)|] == d + 1
    decreases r
  {
    var p := BinaryPrec(op);
    if Regroups(op, r) { AttachPrints(acc, op, r, p + 1); } else { BinaryPrints(op, acc, Reparsed(r), p + 1); }
    hide Plain, Bare, Depths, Net, Print, Joined, BinaryPrec, Reparsed;
    if Regroups(op, r) {
      AttachDepth(acc, op, r.left, d);
      var left := Attach(acc, op, r.left);
      PrintLength(left, p + 1);
      LeftLength(acc, op, r.left);
      DepthAt(false, Print(left, p + 1), TOp(r.bop), Print(Reparsed(r.right), p + 2), d, |Plain(acc)|);
    } else {
      PrintLength(acc, p);
      DepthAt(true, Print(acc, p), TOp(op), Print(Reparsed(r), p + 1), d, |Plain(acc)|);
    }
  }

  lemma RegroupedDiffers(op: BinaryOpKind, l: Expr, r: Expr, outer: nat)
    requires Regroups(op, r)
    ensures Print(Attach(Reparsed(l), op, r), outer) != Print(Binary(op, l, r), outer)
  {
    AttachPrints(Reparsed(l), op, r, outer);
    BinaryPrints(op, l, r, outer);
    if outer == BinaryPrec(op) + 1 { DiffersAtRight(op, l, r); } else { DiffersAtOperator(op, l, r, outer); }
    hide Print, Joined, Depths;
  }

  /** The text `acc op r.left` of a regrouped tree, around which the rest stands. */
  function Inner(op: BinaryOpKind, l: Expr, r: Expr): seq<Token>
    requires r.Binary?
  {
    Print(Attach(Reparsed(l), op, r.left), BinaryPrec(op) + 1)
  }

  function Last(op: BinaryOpKind, r: Expr): seq<Token>
    requires r.Binary?
  {
    Print(Reparsed(r.right), BinaryPrec(op) + 2)
  }

  lemma InnerPlain(op: BinaryOpKind, l: Expr, r: Expr)
    requires r.Binary?
    ensures Net(Inner(op, l, r)) == 0 && |Bare(Inner(op, l, r))| == |Plain(l)| + 1 + |Plain(r.left)|
  {
    PrintPlain(Attach(Reparsed(l), op, r.left), BinaryPrec(op) + 1);
    ReparsedPlain(l);
    LeftLength(Reparsed(l), op, r.left);
    hide Plain, Bare, Net, Print, Reparsed, Attach;
  }

  lemma PrintLength(e: Expr, outer: nat)
    ensures Net(Print(e, outer)) == 0 && |Bare(Print(e, outer))| == |Plain(e)|
  {
    PrintPlain(e, outer);
    hide Plain, Bare, Net, Print;
  }

  /** The operator itself is at another depth. */
  lemma DiffersAtOperator(op: BinaryOpKind, l: Expr, r: Expr, outer: nat)
    requires Regroups(op, r) && outer != BinaryPrec(op) + 1
    ensures var p := BinaryPrec(op);
      Depths(Joined(p + 1 < outer, Inner(op, l, r), TOp(r.bop), Last(op, r)), 0)
        != Depths(Joined(p < outer, Print(l, p), TOp(op), Print(r, p + 1)), 0)
  {
    var p, i := BinaryPrec(op), |Plain(l)|;
    InnerPlain(op, l, r);
    ReparsedPlain(l);
    PrintLength(l, p);
    AttachDepth(Reparsed(l), op, r.left, Deeper(p + 1 < outer, 0));
    hide Plain, Bare, Depths, Net, Print, Joined, BinaryPrec, Reparsed, Attach, Last;
    DepthAt(p + 1 < outer, Inner(op, l, r), TOp(r.bop), Last(op, r), 0, i);
    DepthAt(p < outer, Print(l, p), TOp(op), Print(r, p + 1), 0, i);
  }

  lemma RightDepths(x: seq<Token>, u: Token, y: seq<Token>, a: seq<Token>, t: Token, c: seq<Token>, e: seq<Token>)
    requires Net(x) == 0 && Net(a) == 0 && Net(c) == 0 && !IsParen(t) && !IsParen(u)
    requires |Bare(x)| == |Bare(a)| + 1 + |Bare(c)|
    ensures Depths(Joined(false, x, u, y), 0) != Depths(Joined(true, a, t, Joined(false, c, u, e)), 0)
  {
    var n, m, b := |Bare(a)|, |Bare(c)|, Joined(false, c, u, e);
    hide Depths, Bare, Net, Joined;
    DepthAt(false, x, u, y, 0, n + 1 + m);
    DepthAt(false, c, u, e, 1, m);
    assert |Bare(b)| == |Depths(b, 1)|;
    DepthAt(true, a, t, b, 0, n + 1 + m);
  }

  /** Where the operators' depths agree, that of the right one does not. */
  lemma DiffersAtRight(op: BinaryOpKind, l: Expr, r: Expr)
    requires Regroups(op, r)
    ensures var p := BinaryPrec(op);
      Depths(Joined(false, Inner(op, l, r), TOp(r.bop), Last(op, r)), 0)
        != Depths(Joined(true, Print(l, p), TOp(op), Print(r, p + 1)), 0)
  {
    var p := BinaryPrec(op);
    InnerPlain(op, l, r);
    PrintLength(l, p);
    PrintLength(r.left, p + 1);
    BinaryPrints(r.bop, r.left, r.right, p + 1);
    assert BinaryPrec(r.bop) == p + 1;
    RightDepths(Inner(op, l, r), TOp(r.bop), Last(op, r), Print(l, p), TOp(op), Print(r.left, p + 1),
                Print(r.right, p + 2));
    hide Plain, Bare, Depths, Net, Print, Joined, BinaryPrec, Inner, Last, Regroups;
  }

  lemma LeftLength(acc: Expr, op: BinaryOpKind, r: Expr)
    ensures |Plain(Attach(acc, op, r))| == |Plain(acc)| + 1 + |Plain(r)|
  {
    AttachPlain(acc, op, r);
  }

  /** What a tree prints as, printed again after reparsing, is the same text exactly on the stable trees. */
  lemma {:induction false} StableIff(e: Expr, outer: nat)
    requires outer <= PREC_UNARY
    ensures Print(Reparsed(e), outer) == Print(e, outer) <==> Stable(e, outer)
    decreases e, 1
  {
    hide Plain, Bare, Parens;
    match e
    case Num(b) => NumberStable(b, outer);
    case Ident(_) => {}
    case Param(_, _) => {}
    case Unary(op, x) =>
      StableIff(x, PREC_UNARY);
      var a, b := Print(Reparsed(x), PREC_UNARY), Print(x, PREC_UNARY);
      SameAfter(UnaryToken(op), a, b);
      SameParens(PREC_UNARY < outer, [UnaryToken(op)] + a, [UnaryToken(op)] + b);
    case Binary(op, l, r) =>
      if Regroups(op, r) { RegroupedDiffers(op, l, r, outer); } else { StableBinary(op, l, r, outer); }
    case Cond(c, t, f) => StableCond(c, t, f, outer);
    case Call(n, args, _) =>
      StableArgsIff(args);
      SameParens(true, PrintArgs(ReparsedArgs(args)), PrintArgs(args));
      SameAfter(TIdent(n), Parens(true, PrintArgs(ReparsedArgs(args))), Parens(true, PrintArgs(args)));
      ParensOfArgs(n, PrintArgs(ReparsedArgs(args)));
      ParensOfArgs(n, PrintArgs(args));
  }

  lemma {:induction false} StableBinary(op: BinaryOpKind, l: Expr, r: Expr, outer: nat)
    requires !Regroups(op, r)
    ensures Print(Reparsed(Binary(op, l, r)), outer) == Print(Binary(op, l, r), outer) <==>
            Stable(Binary(op, l, r), outer)
    decreases Binary(op, l, r), 0
  {
    var p := BinaryPrec(op);
    StableIff(l, p);
    StableIff(r, p + 1);
    BothPlain(l, p);
    BinaryPrints(op, l, r, outer);
    BinaryPrints(op, Reparsed(l), Reparsed(r), outer);
    SameJoined(p < outer, Print(Reparsed(l), p), TOp(op), Print(Reparsed(r), p + 1), Print(l, p), Print(r, p + 1));
    hide Plain, Bare, Joined, Print, BinaryPrec;
  }

  lemma {:induction false} StableCond(c: Expr, t: Expr, f: Expr, outer: nat)
    ensures Print(Reparsed(Cond(c, t, f)), outer) == Print(Cond(c, t, f), outer) <==> Stable(Cond(c, t, f), outer)
    decreases Cond(c, t, f), 0
  {
    hide Plain, Bare, Parens;
    StableIff(c, 1);
    StableIff(t, 1);
    StableIff(f, PREC_COND);
    BothPlain(c, 1);
    BothPlain(t, 1);
    var c1, t1, f1 := Print(Reparsed(c), 1), Print(Reparsed(t), 1), Print(Reparsed(f), PREC_COND);
    var c2, t2, f2 := Print(c, 1), Print(t, 1), Print(f, PREC_COND);
    SameAfter(TIf, c1, c2);
    BareAfter(TIf, c1, c2);
    SplitsAlike([TIf] + c1, TThen, t1, [TIf] + c2, t2);
    BareJoins([TIf] + c1, TThen, t1, [TIf] + c2, t2);
    SplitsAlike([TIf] + c1 + [TThen] + t1, TElse, f1, [TIf] + c2 + [TThen] + t2, f2);
    SameParens(PREC_COND < outer, [TIf] + c1 + [TThen] + t1 + [TElse] + f1, [TIf] + c2 + [TThen] + t2 + [TElse] + f2);
  }

  lemma BareAfter(t: Token, a: seq<Token>, b: seq<Token>)
    requires Bare(a) == Bare(b)
    ensures Bare([t] + a) == Bare([t] + b)
  {
    Appends([t], a, 0);
    Appends([t], b, 0);
  }

  lemma BareJoins(a: seq<Token>, t: Token, b: seq<Token>, c: seq<Token>, d: seq<Token>)
    requires Bare(a) == Bare(c) && Bare(b) == Bare(d)
    ensures Bare(a + [t] + b) == Bare(c + [t] + d)
  {
    Appends(a, [t], 0);
    Appends(a + [t], b, 0);
    Appends(c, [t], 0);
    Appends(c + [t], d, 0);
  }

  lemma {:induction false} StableArgsIff(args: seq<Expr>)
    ensures PrintArgs(ReparsedArgs(args)) == PrintArgs(args) <==> StableArgs(args)
    decreases args, 0
  {
    if args != [] {
      StableIff(args[0], PREC_COND);
      StableArgsIff(args[1..]);
      BothPlain(args[0], PREC_COND);
      ArgsPrint(args);
      ArgsPrint(ReparsedArgs(args));
      assert ReparsedArgs(args)[1..] == ReparsedArgs(args[1..]) && ReparsedArgs(args)[0] == Reparsed(args[0]);
      hide Plain, Bare, Print, PrintArgs, Joined, Reparsed;
      if |args| > 1 {
        SameJoined(false, Print(Reparsed(args[0]), PREC_COND), TComma, PrintArgs(ReparsedArgs(args[1..])),
                   Print(args[0], PREC_COND), PrintArgs(args[1..]));
      }
    }
  }

  lemma ArgsPrint(args: seq<Expr>)
    requires args != []
    ensures PrintArgs(args) ==
      if |args| > 1 then Joined(false, Print(args[0], PREC_COND), TComma, PrintArgs(args[1..]))
        else Print(args[0], PREC_COND)
  {
    hide Print;
    ThreeParts(Print(args[0], PREC_COND), TComma, PrintArgs(args[1..]));
  }

  lemma NumberStable(b: Bits64, outer: nat)
    requires outer <= PREC_UNARY
    ensures Print(ReparsedNumber(b), outer) == FormatNumber(b) <==> Magnitude(b) < INFINITY || outer >= PREC_UNARY
  {
    assert FormatNumber(0) == [TNumber(0)] && FormatNumber(ONE) == [TNumber(ONE)];
    if Magnitude(b) >= INFINITY {
      var top := if Magnitude(b) > INFINITY then [TNumber(0)] else if b != INFINITY then [TOp(Sub)] +
        [TNumber(ONE)] else [TNumber(ONE)];
      var body := top + [TOp(Div)] + [TNumber(0)];
      QuotientPrints(b, outer, body);
      assert body == Quotient(b);
      assert FormatNumber(b) == [TLParen] + body + [TRParen];
      if outer < PREC_UNARY { assert Print(ReparsedNumber(b), outer)[0] != TLParen; }
    } else if Magnitude(b) != 0 && Negative(b) {
      assert FormatNumber(Magnitude(b)) == [TNumber(Magnitude(b))];
      assert [TOp(Sub)] + [TNumber(Magnitude(b))] == FormatNumber(b);
    }
  }

  lemma QuotientPrints(b: Bits64, outer: nat, body: seq<Token>)
    requires Magnitude(b) >= INFINITY
    requires body == (if Magnitude(b) > INFINITY then [TNumber(0)]
                      else if b != INFINITY then [TOp(Sub)] + [TNumber(ONE)] else [TNumber(ONE)]) + [TOp(Div)] +
                          [TNumber(0)]
    ensures Print(ReparsedNumber(b), outer) == Parens(BinaryPrec(Div) < outer, body)
  {
    assert FormatNumber(0) == [TNumber(0)] && FormatNumber(ONE) == [TNumber(ONE)];
    assert Print(Unary(Minus, Num(ONE)), BinaryPrec(Div)) == [TOp(Sub)] + [TNumber(ONE)];
  }

  /** Idempotence with its exact condition: formatting the text of a definition again gives the same text if and
      only if its body is stable. */
  lemma FormattingTwiceIff(name: string, body: Expr)
    ensures var back := ParseSignalDef(PrintSignal(name, body) + [TEof]);
      back.Ok? && (PrintSignal(back.value.0, back.value.1) == PrintSignal(name, body) <==> Stable(body, PREC_COND))
  {
    PrintedTextParses(name, body);
    StableIff(body, PREC_COND);
    var head, a, b := [TSignal, TIdent(name), TAssign], Print(Reparsed(body), PREC_COND), Print(body, PREC_COND);
    assert (head + a)[3..] == a && (head + b)[3..] == b;
  }
}

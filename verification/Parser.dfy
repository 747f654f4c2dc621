/** The recursive-descent parser. */
module Parser {
  import opened Options
  import opened Ast
  import opened Tokens

  datatype Problem =
    | ExpectedExpression | ExpectedThen | ExpectedElse | ExpectedArgsEnd | ExpectedParenEnd
    | ExpectedSignal | ExpectedName | ExpectedAssign | ExpectedEnd

  /** The value read and the tokens left. */
  datatype Parsed<A> = Ok(value: A, rest: seq<Token>) | Err(problem: Problem)

  /** The lexer ends every line with an end token, so reading past it never happens. */
  function Peek(ts: seq<Token>): Token {
    if ts == [] then TEof else ts[0]
  }

  const LOGICAL := 0
  const COMPARISON := 1
  const TERM := 2
  const FACTOR := 3
  const UNARY := 4

  /** The parser's binary levels: one for both logical operators, one for all comparisons. */
  function LevelOf(op: BinaryOpKind): (k: nat)
    ensures k <= FACTOR
  {
    match op
    case Or => LOGICAL case And => LOGICAL
    case Add => TERM case Sub => TERM
    case Mul => FACTOR case Div => FACTOR
    case _ => COMPARISON
  }

  predicate OpAt(k: nat, t: Token) {
    t.TOp? && LevelOf(t.op) == k
  }

  function ParseExpr(ts: seq<Token>): (r: Parsed<Expr>)
    ensures r.Ok? ==> |r.rest| < |ts|
    decreases |ts|, 8
  {
    if !Peek(ts).TIf? then ParseLevel(LOGICAL, ts)
    else
      match ParseExpr(ts[1..])
      case Err(p) => Err(p)
      case Ok(c, ts1) =>
        if !Peek(ts1).TThen? then Err(ExpectedThen)
        else
          match ParseExpr(ts1[1..])
          case Err(p) => Err(p)
          case Ok(t, ts2) =>
            if !Peek(ts2).TElse? then Err(ExpectedElse)
            else
              match ParseExpr(ts2[1..])
              case Err(p) => Err(p)
              case Ok(f, ts3) => Ok(Cond(c, t, f), ts3)
  }

  function ParseLevel(k: nat, ts: seq<Token>): (r: Parsed<Expr>)
    requires k <= UNARY
    ensures r.Ok? ==> |r.rest| < |ts|
    decreases |ts|, 7 - k
  {
    if k == UNARY then ParseUnary(ts)
    else
      match ParseLevel(k + 1, ts)
      case Err(p) => Err(p)
      case Ok(e, rest) => Loop(k, e, rest)
  }

  /** Fold in operators of level `k` to the left while there are any. */
  function Loop(k: nat, acc: Expr, ts: seq<Token>): (r: Parsed<Expr>)
    requires k <= UNARY
    ensures r.Ok? ==> |r.rest| <= |ts|
    decreases |ts|, 7 - k
  {
    if !OpAt(k, Peek(ts)) then Ok(acc, ts)
    else
      match ParseLevel(k + 1, ts[1..])
      case Err(p) => Err(p)
      case Ok(r, rest) => Loop(k, Binary(ts[0].op, acc, r), rest)
  }

  function ParseUnary(ts: seq<Token>): (r: Parsed<Expr>)
    ensures r.Ok? ==> |r.rest| < |ts|
    decreases |ts|, 2
  {
    if OpAt(TERM, Peek(ts)) then
      match ParseUnary(ts[1..])
      case Err(p) => Err(p)
      case Ok(x, rest) => Ok(Unary(if ts[0].op == Add then Plus else Minus, x), rest)
    else ParsePrimary(ts)
  }

  function ParsePrimary(ts: seq<Token>): (r: Parsed<Expr>)
    ensures r.Ok? ==> |r.rest| < |ts|
    decreases |ts|, 1
  {
    match Peek(ts)
    case TNumber(b) => Ok(Num(b), ts[1..])
    case TIdent(n) =>
      if !Peek(ts[1..]).TLParen? then Ok(Ident(n), ts[1..])
      else
        (match ParseArgList(ts[2..])
         case Err(p) => Err(p)
         case Ok(args, rest) =>
           if Peek(rest).TRParen? then Ok(Call(n, args, NO_NODE), rest[1..]) else Err(ExpectedArgsEnd))
    case TLParen =>
      (match ParseExpr(ts[1..])
       case Err(p) => Err(p)
       case Ok(e, rest) => if Peek(rest).TRParen? then Ok(e, rest[1..]) else Err(ExpectedParenEnd))
    case _ => Err(ExpectedExpression)
  }

  function ParseArgList(ts: seq<Token>): (r: Parsed<seq<Expr>>)
    ensures r.Ok? ==> |r.rest| <= |ts|
    decreases |ts|, 10
  {
    if Peek(ts).TRParen? then Ok([], ts) else ParseArgs(ts)
  }

  function ParseArgs(ts: seq<Token>): (r: Parsed<seq<Expr>>)
    ensures r.Ok? ==> |r.rest| < |ts|
    decreases |ts|, 9
  {
    match ParseExpr(ts)
    case Err(p) => Err(p)
    case Ok(a, rest) =>
      if !Peek(rest).TComma? then Ok([a], rest)
      else
        match ParseArgs(rest[1..])
        case Err(p) => Err(p)
        case Ok(more, rest') => Ok([a] + more, rest')
  }

  /** The argument list once `args` have been read: what the loop over commas still has to do. */
  function AfterArgs(args: seq<Expr>, ts: seq<Token>): Parsed<seq<Expr>> {
    if !Peek(ts).TComma? then Ok(args, ts)
    else
      match ParseArgs(ts[1..])
      case Err(p) => Err(p)
      case Ok(more, rest) => Ok(args + more, rest)
  }

  lemma AfterArgsStep(args: seq<Expr>, ts: seq<Token>)
    requires Peek(ts).TComma?
    ensures match ParseExpr(ts[1..])
      case Err(_) => AfterArgs(args, ts).Err?
      case Ok(a, rest) => AfterArgs(args, ts) == AfterArgs(args + [a], rest)
  {
    var r := ParseExpr(ts[1..]);
    if r.Ok? && Peek(r.rest).TComma? {
      var more := ParseArgs(r.rest[1..]);
      if more.Ok? { assert args + ([r.value] + more.value) == args + [r.value] + more.value; }
    }
  }

  function ParseSignalDef(ts: seq<Token>): Parsed<(string, Expr)> {
    if !Peek(ts).TSignal? then Err(ExpectedSignal)
    else if !Peek(ts[1..]).TIdent? then Err(ExpectedName)
    else if !Peek(ts[2..]).TAssign? then Err(ExpectedAssign)
    else
      match ParseExpr(ts[3..])
      case Err(p) => Err(p)
      case Ok(body, rest) =>
        if Peek(rest).TEof? then Ok((ts[1].name, body), if rest == [] then [] else rest[1..]) else Err(ExpectedEnd)
  }

  /** The parser in its own form: one position, moved forward by every function. */
  class TokenParser {
    const tokens: seq<Token>
    var pos: nat

    ghost predicate Valid()
      reads this
    {
      pos <= |tokens|
    }

    ghost function Left(): seq<Token>
      reads this
      requires Valid()
    {
      tokens[pos..]
    }

    constructor (ts: seq<Token>)
      ensures Valid() && tokens == ts && pos == 0
    {
      tokens := ts;
      pos := 0;
    }

    function Head(): (t: Token)
      requires Valid()
      reads this
      ensures t == Peek(Left())
    {
      if pos < |tokens| then tokens[pos] else TEof
    }

    /** The result of a parsing function against its specification on the tokens that were left. */
    ghost predicate Did<A(!new)>(spec: Parsed<A>, got: Option<A>)
      reads this
    {
      && Valid()
      && match spec
         case Ok(v, rest) => got == Some(v) && Left() == rest
         case Err(_) => got == None
    }

    method ParseExpression() returns (r: Option<Expr>)
      requires Valid()
      modifies this
      ensures Did(ParseExpr(old(Left())), r)
      decreases |tokens| - pos, 8
    {
      if !Head().TIf? {
        r := ParseLogical();
        return;
      }
      pos := pos + 1;
      var c := ParseExpression();
      if c.None? || !Head().TThen? { return None; }
      pos := pos + 1;
      var t := ParseExpression();
      if t.None? || !Head().TElse? { return None; }
      pos := pos + 1;
      var f := ParseExpression();
      if f.None? { return None; }
      r := Some(Cond(c.value, t.value, f.value));
    }

    method ParseLogical() returns (r: Option<Expr>)
      requires Valid()
      modifies this
      ensures Did(ParseLevel(LOGICAL, old(Left())), r)
      decreases |tokens| - pos, 7
    {
      hide LevelOf;
      ghost var start := Left();
      r := ParseComparison();
      while r.Some? && OpAt(LOGICAL, Head())
        invariant Valid()
        invariant r.None? ==> ParseLevel(LOGICAL, start).Err?
        invariant r.Some? ==> |Left()| < |start| && ParseLevel(LOGICAL, start) == Loop(LOGICAL, r.value, Left())
        decreases r.Some?, |tokens| - pos
      {
        ghost var before := Left();
        var op := Head().op;
        pos := pos + 1;
        assert Left() == before[1..];
        var rhs := ParseComparison();
        r := if rhs.Some? then Some(Binary(op, r.value, rhs.value)) else None;
      }
    }

    method ParseComparison() returns (r: Option<Expr>)
      requires Valid()
      modifies this
      ensures Did(ParseLevel(COMPARISON, old(Left())), r)
      decreases |tokens| - pos, 6
    {
      hide LevelOf;
      ghost var start := Left();
      r := ParseTerm();
      while r.Some? && OpAt(COMPARISON, Head())
        invariant Valid()
        invariant r.None? ==> ParseLevel(COMPARISON, start).Err?
        invariant r.Some? ==> |Left()| < |start| && ParseLevel(COMPARISON, start) == Loop(COMPARISON, r.value, Left())
        decreases r.Some?, |tokens| - pos
      {
        ghost var before := Left();
        var op := Head().op;
        pos := pos + 1;
        assert Left() == before[1..];
        var rhs := ParseTerm();
        r := if rhs.Some? then Some(Binary(op, r.value, rhs.value)) else None;
      }
    }

    method ParseTerm() returns (r: Option<Expr>)
      requires Valid()
      modifies this
      ensures Did(ParseLevel(TERM, old(Left())), r)
      decreases |tokens| - pos, 5
    {
      hide LevelOf;
      ghost var start := Left();
      r := ParseFactor();
      while r.Some? && OpAt(TERM, Head())
        invariant Valid()
        invariant r.None? ==> ParseLevel(TERM, start).Err?
        invariant r.Some? ==> |Left()| < |start| && ParseLevel(TERM, start) == Loop(TERM, r.value, Left())
        decreases r.Some?, |tokens| - pos
      {
        ghost var before := Left();
        var op := Head().op;
        pos := pos + 1;
        assert Left() == before[1..];
        var rhs := ParseFactor();
        r := if rhs.Some? then Some(Binary(op, r.value, rhs.value)) else None;
      }
    }

    method ParseFactor() returns (r: Option<Expr>)
      requires Valid()
      modifies this
      ensures Did(ParseLevel(FACTOR, old(Left())), r)
      decreases |tokens| - pos, 4
    {
      hide LevelOf;
      ghost var start := Left();
      r := ParseUnaryExpr();
      while r.Some? && OpAt(FACTOR, Head())
        invariant Valid()
        invariant r.None? ==> ParseLevel(FACTOR, start).Err?
        invariant r.Some? ==> |Left()| < |start| && ParseLevel(FACTOR, start) == Loop(FACTOR, r.value, Left())
        decreases r.Some?, |tokens| - pos
      {
        ghost var before := Left();
        var op := Head().op;
        pos := pos + 1;
        assert Left() == before[1..];
        var rhs := ParseUnaryExpr();
        r := if rhs.Some? then Some(Binary(op, r.value, rhs.value)) else None;
      }
    }

    method ParseUnaryExpr() returns (r: Option<Expr>)
      requires Valid()
      modifies this
      ensures Did(ParseLevel(UNARY, old(Left())), r)
      decreases |tokens| - pos, 3
    {
      if Head().TOp? && (Head().op == Add || Head().op == Sub) {
        ghost var start := Left();
        var op := if Head().op == Add then Plus else Minus;
        pos := pos + 1;
        assert Left() == start[1..];
        var inner := ParseUnaryExpr();
        r := if inner.Some? then Some(Unary(op, inner.value)) else None;
      } else {
        r := ParsePrimaryExpr();
      }
    }

    method ParsePrimaryExpr() returns (r: Option<Expr>)
      requires Valid()
      modifies this
      ensures Did(ParsePrimary(old(Left())), r)
      decreases |tokens| - pos, 2
    {
      ghost var start := Left();
      match Head()
      case TNumber(b) =>
        pos := pos + 1;
        r := Some(Num(b));
      case TIdent(n) =>
        pos := pos + 1;
        assert Left() == start[1..];
        if Head().TLParen? {
          pos := pos + 1;
          assert Left() == start[2..];
          var args := ParseArguments();
          if args.None? || !Head().TRParen? { return None; }
          pos := pos + 1;
          r := Some(Call(n, args.value, NO_NODE));
        } else {
          r := Some(Ident(n));
        }
      case TLParen =>
        pos := pos + 1;
        assert Left() == start[1..];
        var e := ParseExpression();
        if e.None? || !Head().TRParen? { return None; }
        pos := pos + 1;
        r := e;
      case _ => r := None;
    }

    method ParseArguments() returns (r: Option<seq<Expr>>)
      requires Valid()
      modifies this
      ensures Did(ParseArgList(old(Left())), r)
      decreases |tokens| - pos, 10
    {
      if Head().TRParen? { return Some([]); }
      ghost var start := Left();
      var e := ParseExpression();
      if e.None? { return None; }
      var args := [e.value];
      while Head().TComma?
        invariant Valid() && |Left()| < |start|
        invariant ParseArgs(start) == AfterArgs(args, Left())
        decreases |tokens| - pos
      {
        ghost var before := Left();
        pos := pos + 1;
        assert Left() == before[1..];
        AfterArgsStep(args, before);
        e := ParseExpression();
        if e.None? { return None; }
        args := args + [e.value];
      }
      r := Some(args);
    }

    method ParseSignal() returns (r: Option<(string, Expr)>)
      requires Valid()
      modifies this
      ensures Did(ParseSignalDef(old(Left())), r)
    {
      ghost var start := Left();
      if !Head().TSignal? { return None; }
      pos := pos + 1;
      assert Left() == start[1..];
      if !Head().TIdent? { return None; }
      var name := Head().name;
      pos := pos + 1;
      assert Left() == start[2..];
      if !Head().TAssign? { return None; }
      pos := pos + 1;
      assert Left() == start[3..];
      var body := ParseExpression();
      if body.None? || !Head().TEof? { return None; }
      if pos < |tokens| { pos := pos + 1; }
      r := Some((name, body.value));
    }
  }
}

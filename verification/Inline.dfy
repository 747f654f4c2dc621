/** Substituting signals into one another: what a resolved program is, that there is at most one, and when it
    means what the original means. */
module Inline {
  import opened Ast
  import opened Evaluation

  datatype Signal = Signal(name: string, body: Expr)

  /** The names an expression reads as references; a ticker is not one. */
  function Refs(e: Expr): set<string>
    decreases e, 1
  {
    match e
    case Num(_) => {}
    case Ident(n) => {n}
    case Param(_, _) => {}
    case Unary(_, x) => Refs(x)
    case Binary(_, l, r) => Refs(l) + Refs(r)
    case Cond(c, t, f) => Refs(c) + Refs(t) + Refs(f)
    case Call(n, args, _) => RefsArgs(SourceArgs(n, args))
  }

  function RefsArgs(args: seq<Expr>): set<string>
    decreases args, 0
  {
    if args == [] then {} else Refs(args[0]) + RefsArgs(args[1..])
  }

  /** All identifiers of a tree, tickers included. */
  function Names(e: Expr): set<string>
    decreases e, 1
  {
    match e
    case Num(_) => {}
    case Ident(n) => {n}
    case Param(_, _) => {}
    case Unary(_, x) => Names(x)
    case Binary(_, l, r) => Names(l) + Names(r)
    case Cond(c, t, f) => Names(c) + Names(t) + Names(f)
    case Call(_, args, _) => NamesArgs(args)
  }

  function NamesArgs(args: seq<Expr>): set<string>
    decreases args, 0
  {
    if args == [] then {} else Names(args[0]) + NamesArgs(args[1..])
  }

  /** The ticker argument of a call, if it has one. */
  function TickerArgs(n: string, args: seq<Expr>): seq<Expr> {
    if IsTickerFn(n) && |args| > 0 then args[..1] else []
  }

  /** The identifiers that stand as tickers. */
  function Tickers(e: Expr): set<string>
    decreases e, 1
  {
    match e
    case Num(_) => {}
    case Ident(_) => {}
    case Param(_, _) => {}
    case Unary(_, x) => Tickers(x)
    case Binary(_, l, r) => Tickers(l) + Tickers(r)
    case Cond(c, t, f) => Tickers(c) + Tickers(t) + Tickers(f)
    case Call(n, args, _) => NamesArgs(TickerArgs(n, args)) + TickersArgs(SourceArgs(n, args))
  }

  function TickersArgs(args: seq<Expr>): set<string>
    decreases args, 0
  {
    if args == [] then {} else Tickers(args[0]) + TickersArgs(args[1..])
  }

  type Bodies = map<string, Expr>

  /** What the compiler does: every identifier is looked up, a ticker too. */
  function InlineExpr(e: Expr, defs: Bodies): Expr
    decreases e, 1
  {
    match e
    case Num(_) => e
    case Ident(n) => if n in defs then CloneExpr(defs[n]) else e
    case Param(_, _) => e
    case Unary(op, x) => Unary(op, InlineExpr(x, defs))
    case Binary(op, l, r) => Binary(op, InlineExpr(l, defs), InlineExpr(r, defs))
    case Cond(c, t, f) => Cond(InlineExpr(c, defs), InlineExpr(t, defs), InlineExpr(f, defs))
    case Call(n, args, _) => Call(n, InlineArgs(args, defs), NO_NODE)
  }

  function InlineArgs(args: seq<Expr>, defs: Bodies): (r: seq<Expr>)
    ensures |r| == |args|
    decreases args, 0
  {
    if args == [] then [] else [InlineExpr(args[0], defs)] + InlineArgs(args[1..], defs)
  }

  /** Substitution for references only. */
  function Subst(e: Expr, defs: Bodies): Expr
    decreases e, 1
  {
    match e
    case Num(_) => e
    case Ident(n) => if n in defs then CloneExpr(defs[n]) else e
    case Param(_, _) => e
    case Unary(op, x) => Unary(op, Subst(x, defs))
    case Binary(op, l, r) => Binary(op, Subst(l, defs), Subst(r, defs))
    case Cond(c, t, f) => Cond(Subst(c, defs), Subst(t, defs), Subst(f, defs))
    case Call(n, args, _) => Call(n, CloneArgs(TickerArgs(n, args)) + SubstArgs(SourceArgs(n, args), defs), NO_NODE)
  }

  function SubstArgs(args: seq<Expr>, defs: Bodies): (r: seq<Expr>)
    ensures |r| == |args|
    decreases args, 0
  {
    if args == [] then [] else [Subst(args[0], defs)] + SubstArgs(args[1..], defs)
  }

  // ---- Inlining against substitution ----

  /** No definition is an alias of its own name. */
  ghost predicate NoSelfAlias(defs: Bodies) {
    forall n :: n in defs ==> CloneExpr(defs[n]) != Ident(n)
  }

  lemma SingletonDisjoint(n: string, keys: set<string>)
    ensures {n} !! keys <==> n !in keys
  {
  }

  lemma UnionDisjoint(a: set<string>, b: set<string>, keys: set<string>)
    ensures a + b !! keys <==> a !! keys && b !! keys
  {
  }

  lemma {:induction false} InlineIsClone(e: Expr, defs: Bodies)
    requires NoSelfAlias(defs)
    ensures InlineExpr(e, defs) == CloneExpr(e) <==> Names(e) !! defs.Keys
    decreases e, 1
  {
    hide NoSelfAlias;
    match e
    case Num(_) => {}
    case Ident(n) => SingletonDisjoint(n, defs.Keys); assert n in defs ==>
        CloneExpr(defs[n]) != e by { NotAlias(n, defs); }
    case Param(_, _) => {}
    case Unary(_, x) => InlineIsClone(x, defs);
    case Binary(_, l, r) =>
      InlineIsClone(l, defs);
      InlineIsClone(r, defs);
      UnionDisjoint(Names(l), Names(r), defs.Keys);
    case Cond(c, t, f) =>
      InlineIsClone(c, defs);
      InlineIsClone(t, defs);
      InlineIsClone(f, defs);
      UnionDisjoint(Names(c), Names(t), defs.Keys);
      UnionDisjoint(Names(c) + Names(t), Names(f), defs.Keys);
    case Call(_, args, _) => InlineArgsIsClone(args, defs);
  }

  lemma NotAlias(n: string, defs: Bodies)
    requires NoSelfAlias(defs)
    ensures n in defs ==> CloneExpr(defs[n]) != Ident(n)
  {
  }

  lemma {:induction false} InlineArgsIsClone(args: seq<Expr>, defs: Bodies)
    requires NoSelfAlias(defs)
    ensures InlineArgs(args, defs) == CloneArgs(args) <==> NamesArgs(args) !! defs.Keys
    decreases args, 0
  {
    hide NoSelfAlias;
    if args != [] {
      InlineIsClone(args[0], defs);
      InlineArgsIsClone(args[1..], defs);
      UnionDisjoint(Names(args[0]), NamesArgs(args[1..]), defs.Keys);
      ConsEqual(InlineExpr(args[0], defs), InlineArgs(args[1..], defs), CloneExpr(args[0]), CloneArgs(args[1..]));
    }
  }

  lemma ConsEqual(x: Expr, xs: seq<Expr>, y: Expr, ys: seq<Expr>)
    ensures [x] + xs == [y] + ys <==> x == y && xs == ys
  {
    if [x] + xs == [y] + ys {
      assert ([x] + xs)[0] == x && ([x] + xs)[1..] == xs && ([y] + ys)[0] == y && ([y] + ys)[1..] == ys;
    }
  }

  lemma AppendEqual(a: seq<Expr>, b: seq<Expr>, c: seq<Expr>, d: seq<Expr>)
    requires |a| == |c|
    ensures a + b == c + d <==> a == c && b == d
  {
    if a + b == c + d {
      assert (a + b)[..|a|] == a && (a + b)[|a|..] == b && (c + d)[..|c|] == c && (c + d)[|c|..] == d;
    }
  }

  lemma {:induction false} InlineAppend(a: seq<Expr>, b: seq<Expr>, defs: Bodies)
    ensures InlineArgs(a + b, defs) == InlineArgs(a, defs) + InlineArgs(b, defs)
    decreases |a|
  {
    if a == [] {
      assert a + b == b;
    } else {
      InlineAppend(a[1..], b, defs);
      assert (a + b)[1..] == a[1..] + b && (a + b)[0] == a[0];
      assert [InlineExpr(a[0], defs)] + (InlineArgs(a[1..], defs) + InlineArgs(b, defs)) ==
             ([InlineExpr(a[0], defs)] + InlineArgs(a[1..], defs)) + InlineArgs(b, defs);
    }
  }

  lemma ArgsSplit(n: string, args: seq<Expr>)
    ensures args == TickerArgs(n, args) + SourceArgs(n, args)
  {
  }

  /** Looking everything up is substitution for references exactly when no ticker has a definition. */
  lemma {:induction false} InlineIsSubst(e: Expr, defs: Bodies)
    requires NoSelfAlias(defs)
    ensures InlineExpr(e, defs) == Subst(e, defs) <==> Tickers(e) !! defs.Keys
    decreases e, 1
  {
    hide NoSelfAlias, IsTickerFn;
    match e
    case Num(_) => {}
    case Ident(_) => {}
    case Param(_, _) => {}
    case Unary(_, x) => InlineIsSubst(x, defs);
    case Binary(_, l, r) =>
      InlineIsSubst(l, defs);
      InlineIsSubst(r, defs);
      UnionDisjoint(Tickers(l), Tickers(r), defs.Keys);
    case Cond(c, t, f) =>
      InlineIsSubst(c, defs);
      InlineIsSubst(t, defs);
      InlineIsSubst(f, defs);
      UnionDisjoint(Tickers(c), Tickers(t), defs.Keys);
      UnionDisjoint(Tickers(c) + Tickers(t), Tickers(f), defs.Keys);
    case Call(n, args, _) =>
      var a, b := TickerArgs(n, args), SourceArgs(n, args);
      InlineArgsIsClone(a, defs);
      InlineArgsIsSubst(b, defs);
      ArgsSplit(n, args);
      InlineAppend(a, b, defs);
      UnionDisjoint(NamesArgs(a), TickersArgs(b), defs.Keys);
      AppendEqual(InlineArgs(a, defs), InlineArgs(b, defs), CloneArgs(a), SubstArgs(b, defs));
  }

  lemma {:induction false} InlineArgsIsSubst(args: seq<Expr>, defs: Bodies)
    requires NoSelfAlias(defs)
    ensures InlineArgs(args, defs) == SubstArgs(args, defs) <==> TickersArgs(args) !! defs.Keys
    decreases args, 0
  {
    hide NoSelfAlias;
    if args != [] {
      InlineIsSubst(args[0], defs);
      InlineArgsIsSubst(args[1..], defs);
      UnionDisjoint(Tickers(args[0]), TickersArgs(args[1..]), defs.Keys);
      ConsEqual(InlineExpr(args[0], defs), InlineArgs(args[1..], defs), Subst(args[0], defs),
                SubstArgs(args[1..], defs));
    }
  }

  /** With `a = v`, the body `mid(a) + a` loses its ticker: the compiler replaces both. */
  lemma TickerReplaced(v: Bits64)
    ensures var e := Binary(Add, Call("mid", [Ident("a")], NO_NODE), Ident("a"));
      var defs := map["a" := Num(v)];
      && Refs(e) == {"a"} == Tickers(e)
      && InlineExpr(e, defs) == Binary(Add, Call("mid", [Num(v)], NO_NODE), Num(v))
      && Subst(e, defs) == Binary(Add, Call("mid", [Ident("a")], NO_NODE), Num(v))
  {
    var args := [Ident("a")];
    var defs := map["a" := Num(v)];
    assert IsTickerFn("mid") && TickerArgs("mid", args) == args && SourceArgs("mid", args) == [] && args[1..] == [];
    assert InlineArgs(args, defs) == [Num(v)] && CloneArgs(args) == args && NamesArgs(args) == {"a"};
  }

  /** Definitions that refer to nothing defined are no aliases of defined names. */
  lemma CleanHasNoAlias(defs: Bodies)
    requires Clean(defs, defs.Keys)
    ensures NoSelfAlias(defs)
  {
    forall n | n in defs ensures CloneExpr(defs[n]) != Ident(n) {
      CloneRefs(defs[n]);
      AliasRefers(CloneExpr(defs[n]), n);
    }
  }

  lemma AliasRefers(e: Expr, n: string)
    ensures e == Ident(n) ==> n in Refs(e)
  {
  }

  // ---- References after substitution ----

  lemma {:induction false} CloneRefs(e: Expr)
    ensures Refs(CloneExpr(e)) == Refs(e)
    decreases e, 1
  {
    hide IsTickerFn;
    match e
    case Num(_) => {}
    case Ident(_) => {}
    case Param(_, _) => {}
    case Unary(_, x) => CloneRefs(x);
    case Binary(_, l, r) => CloneRefs(l); CloneRefs(r);
    case Cond(c, t, f) => CloneRefs(c); CloneRefs(t); CloneRefs(f);
    case Call(n, args, _) =>
      CloneRefsArgs(SourceArgs(n, args));
      assert SourceArgs(n, CloneArgs(args)) == CloneArgs(SourceArgs(n, args));
  }

  lemma {:induction false} CloneRefsArgs(args: seq<Expr>)
    ensures RefsArgs(CloneArgs(args)) == RefsArgs(args)
    decreases args, 0
  {
    if args != [] {
      CloneRefs(args[0]);
      CloneRefsArgs(args[1..]);
      assert CloneArgs(args)[1..] == CloneArgs(args[1..]);
    }
  }

  ghost predicate Clean(defs: Bodies, defined: set<string>) {
    forall n :: n in defs ==> Refs(defs[n]) !! defined
  }

  /** Substituting bodies that refer to nothing defined, for all that is defined, leaves nothing defined. */
  lemma {:induction false} SubstRefs(e: Expr, defs: Bodies, defined: set<string>)
    requires Clean(defs, defined) && Refs(e) * defined <= defs.Keys
    ensures Refs(Subst(e, defs)) !! defined
    decreases e, 1
  {
    hide IsTickerFn;
    match e
    case Num(_) => {}
    case Ident(n) => if n in defs { CloneRefs(defs[n]); } else { assert n in Refs(e); SingletonDisjoint(n, defined); }
    case Param(_, _) => {}
    case Unary(_, x) => SubstRefs(x, defs, defined);
    case Binary(_, l, r) => SubstRefs(l, defs, defined); SubstRefs(r, defs, defined);
    case Cond(c, t, f) => SubstRefs(c, defs, defined); SubstRefs(t, defs, defined); SubstRefs(f, defs, defined);
    case Call(n, args, _) =>
      SubstRefsArgs(SourceArgs(n, args), defs, defined);
      SubstSources(n, args, defs);
  }

  lemma SubstSources(n: string, args: seq<Expr>, defs: Bodies)
    ensures var substituted := CloneArgs(TickerArgs(n, args)) + SubstArgs(SourceArgs(n, args), defs);
      && SourceArgs(n, substituted) == SubstArgs(SourceArgs(n, args), defs)
      && TickerArgs(n, substituted) == CloneArgs(TickerArgs(n, args))
  {
    hide IsTickerFn, CloneExpr, Subst;
  }

  lemma {:induction false} SubstRefsArgs(args: seq<Expr>, defs: Bodies, defined: set<string>)
    requires Clean(defs, defined) && RefsArgs(args) * defined <= defs.Keys
    ensures RefsArgs(SubstArgs(args, defs)) !! defined
    decreases args, 0
  {
    if args != [] {
      SubstRefs(args[0], defs, defined);
      SubstRefsArgs(args[1..], defs, defined);
      assert SubstArgs(args, defs)[1..] == SubstArgs(args[1..], defs);
    }
  }

  // ---- Meaning ----

  /** Operators and calls are uninterpreted; a call sees its ticker as it is written. */
  datatype Sem<!V> = Sem(num: Bits64 -> V, param: (string, int) -> V, unary: (UnaryOpKind, V) -> V,
                         binary: (BinaryOpKind, V, V) -> V,
                         cond: (V, V, V) -> V, call: (string, seq<Expr>, seq<V>) -> V)

  function Meaning<V>(s: Sem<V>, env: string -> V, e: Expr): V
    decreases e, 1
  {
    match e
    case Num(b) => s.num(b)
    case Ident(n) => env(n)
    case Param(n, id) => s.param(n, id)
    case Unary(op, x) => s.unary(op, Meaning(s, env, x))
    case Binary(op, l, r) => s.binary(op, Meaning(s, env, l), Meaning(s, env, r))
    case Cond(c, t, f) => s.cond(Meaning(s, env, c), Meaning(s, env, t), Meaning(s, env, f))
    case Call(n, args, _) => s.call(n, CloneArgs(TickerArgs(n, args)), MeaningArgs(s, env, SourceArgs(n, args)))
  }

  function MeaningArgs<V>(s: Sem<V>, env: string -> V, args: seq<Expr>): seq<V>
    decreases args, 0
  {
    if args == [] then [] else [Meaning(s, env, args[0])] + MeaningArgs(s, env, args[1..])
  }

  lemma CloneArgsTwice(args: seq<Expr>)
    ensures CloneArgs(CloneArgs(args)) == CloneArgs(args)
  {
    forall i | 0 <= i < |args| ensures CloneExpr(CloneArgs(args)[i]) == CloneArgs(args)[i] {
      CloneIdempotent(args[i]);
    }
  }

  lemma TickersClone(n: string, args: seq<Expr>)
    ensures TickerArgs(n, CloneArgs(args)) == CloneArgs(TickerArgs(n, args))
    ensures SourceArgs(n, CloneArgs(args)) == CloneArgs(SourceArgs(n, args))
  {
    hide IsTickerFn, CloneExpr;
  }

  lemma {:induction false} MeaningOfClone<V>(s: Sem<V>, env: string -> V, e: Expr)
    ensures Meaning(s, env, CloneExpr(e)) == Meaning(s, env, e)
    decreases e, 1
  {
    hide IsTickerFn;
    match e
    case Num(_) => {}
    case Ident(_) => {}
    case Param(_, _) => {}
    case Unary(_, x) => MeaningOfClone(s, env, x);
    case Binary(_, l, r) => MeaningOfClone(s, env, l); MeaningOfClone(s, env, r);
    case Cond(c, t, f) => MeaningOfClone(s, env, c); MeaningOfClone(s, env, t); MeaningOfClone(s, env, f);
    case Call(n, args, _) =>
      MeaningOfClones(s, env, SourceArgs(n, args));
      TickersClone(n, args);
      CloneArgsTwice(TickerArgs(n, args));
  }

  lemma {:induction false} MeaningOfClones<V>(s: Sem<V>, env: string -> V, args: seq<Expr>)
    ensures MeaningArgs(s, env, CloneArgs(args)) == MeaningArgs(s, env, args)
    decreases args, 0
  {
    if args != [] {
      MeaningOfClone(s, env, args[0]);
      MeaningOfClones(s, env, args[1..]);
      assert CloneArgs(args)[1..] == CloneArgs(args[1..]);
    }
  }

  ghost predicate MeansItsName<V>(s: Sem<V>, env: string -> V, defs: Bodies) {
    forall n :: n in defs ==> Meaning(s, env, defs[n]) == env(n)
  }

  /** Substituting bodies that mean what their names mean changes no meaning. */
  lemma {:induction false} SubstMeans<V>(s: Sem<V>, env: string -> V, e: Expr, defs: Bodies)
    requires MeansItsName(s, env, defs)
    ensures Meaning(s, env, Subst(e, defs)) == Meaning(s, env, e)
    decreases e, 1
  {
    hide IsTickerFn;
    match e
    case Num(_) => {}
    case Ident(n) => if n in defs { MeaningOfClone(s, env, defs[n]); }
    case Param(_, _) => {}
    case Unary(_, x) => SubstMeans(s, env, x, defs);
    case Binary(_, l, r) => SubstMeans(s, env, l, defs); SubstMeans(s, env, r, defs);
    case Cond(c, t, f) => SubstMeans(s, env, c, defs); SubstMeans(s, env, t, defs); SubstMeans(s, env, f, defs);
    case Call(n, args, _) =>
      SubstArgsMeans(s, env, SourceArgs(n, args), defs);
      SubstSources(n, args, defs);
      CloneArgsTwice(TickerArgs(n, args));
  }

  lemma {:induction false} SubstArgsMeans<V>(s: Sem<V>, env: string -> V, args: seq<Expr>, defs: Bodies)
    requires MeansItsName(s, env, defs)
    ensures MeaningArgs(s, env, SubstArgs(args, defs)) == MeaningArgs(s, env, args)
    decreases args, 0
  {
    hide MeansItsName;
    if args != [] {
      SubstMeans(s, env, args[0], defs);
      SubstArgsMeans(s, env, args[1..], defs);
      assert SubstArgs(args, defs)[1..] == SubstArgs(args[1..], defs);
    }
  }

  ghost predicate AgreeOn<V>(env: string -> V, env': string -> V, names: set<string>) {
    forall n :: n in names ==> env(n) == env'(n)
  }

  /** Only the references matter. */
  lemma {:induction false} MeaningReads<V>(s: Sem<V>, env: string -> V, env': string -> V, e: Expr)
    requires AgreeOn(env, env', Refs(e))
    ensures Meaning(s, env, e) == Meaning(s, env', e)
    decreases e, 1
  {
    match e
    case Num(_) => {}
    case Ident(n) => assert n in Refs(e);
    case Param(_, _) => {}
    case Unary(_, x) => MeaningReads(s, env, env', x);
    case Binary(_, l, r) => MeaningReads(s, env, env', l); MeaningReads(s, env, env', r);
    case Cond(c, t, f) => MeaningReads(s, env, env', c); MeaningReads(s, env, env', t); MeaningReads(s, env, env', f);
    case Call(n, args, _) => MeaningsRead(s, env, env', SourceArgs(n, args));
  }

  lemma {:induction false} MeaningsRead<V>(s: Sem<V>, env: string -> V, env': string -> V, args: seq<Expr>)
    requires AgreeOn(env, env', RefsArgs(args))
    ensures MeaningArgs(s, env, args) == MeaningArgs(s, env', args)
    decreases args, 0
  {
    if args != [] {
      MeaningReads(s, env, env', args[0]);
      MeaningsRead(s, env, env', args[1..]);
    }
  }

  // ---- A ticker that is replaced changes the meaning ----

  /** Every expression means itself. */
  function Syntax(): Sem<Expr> {
    Sem(b => Num(b), (n, id) => Param(n, id), (op, x) => Unary(op, x), (op, l, r) => Binary(op, l, r),
        (c, t, f) => Cond(c, t, f), (n, tickers, args) => Call(n, tickers + args, NO_NODE))
  }

  function Bound(defs: Bodies): string -> Expr {
    n => if n in defs then CloneExpr(defs[n]) else Ident(n)
  }

  lemma {:induction false} SyntaxSubstitutes(e: Expr, defs: Bodies)
    ensures Meaning(Syntax(), Bound(defs), e) == Subst(e, defs)
    decreases e, 1
  {
    hide IsTickerFn, CloneExpr;
    match e
    case Num(_) => {}
    case Ident(_) => {}
    case Param(_, _) => {}
    case Unary(_, x) => SyntaxSubstitutes(x, defs);
    case Binary(_, l, r) => SyntaxSubstitutes(l, defs); SyntaxSubstitutes(r, defs);
    case Cond(c, t, f) => SyntaxSubstitutes(c, defs); SyntaxSubstitutes(t, defs); SyntaxSubstitutes(f, defs);
    case Call(n, args, _) => SyntaxSubstitutesArgs(SourceArgs(n, args), defs);
  }

  lemma {:induction false} SyntaxSubstitutesArgs(args: seq<Expr>, defs: Bodies)
    ensures MeaningArgs(Syntax(), Bound(defs), args) == SubstArgs(args, defs)
    decreases args, 0
  {
    if args != [] {
      SyntaxSubstitutes(args[0], defs);
      SyntaxSubstitutesArgs(args[1..], defs);
    }
  }

  lemma {:induction false} SubstNothing(e: Expr, defs: Bodies)
    requires Refs(e) !! defs.Keys
    ensures Subst(e, defs) == CloneExpr(e)
    decreases e, 1
  {
    hide IsTickerFn;
    match e
    case Num(_) => {}
    case Ident(n) => SingletonDisjoint(n, defs.Keys);
    case Param(_, _) => {}
    case Unary(_, x) => SubstNothing(x, defs);
    case Binary(_, l, r) => SubstNothing(l, defs); SubstNothing(r, defs);
    case Cond(c, t, f) => SubstNothing(c, defs); SubstNothing(t, defs); SubstNothing(f, defs);
    case Call(n, args, _) =>
      SubstNothingArgs(SourceArgs(n, args), defs);
      ArgsSplit(n, args);
      ClonesAppend(TickerArgs(n, args), SourceArgs(n, args));
  }

  lemma {:induction false} SubstNothingArgs(args: seq<Expr>, defs: Bodies)
    requires RefsArgs(args) !! defs.Keys
    ensures SubstArgs(args, defs) == CloneArgs(args)
    decreases args, 0
  {
    if args != [] {
      SubstNothing(args[0], defs);
      SubstNothingArgs(args[1..], defs);
    }
  }

  lemma ClonesAppend(a: seq<Expr>, b: seq<Expr>)
    ensures CloneArgs(a + b) == CloneArgs(a) + CloneArgs(b)
  {
    hide CloneExpr;
  }

  /** What is inlined is a clone, and refers to nothing defined. */
  lemma {:induction false} InlinedTrees(e: Expr, defs: Bodies)
    requires Clean(defs, defs.Keys)
    ensures CloneExpr(InlineExpr(e, defs)) == InlineExpr(e, defs) && Refs(InlineExpr(e, defs)) !! defs.Keys
    decreases e, 1
  {
    hide IsTickerFn;
    match e
    case Num(_) => {}
    case Ident(n) =>
      if n in defs {
        CloneIdempotent(defs[n]);
        CloneRefs(defs[n]);
      } else {
        SingletonDisjoint(n, defs.Keys);
      }
    case Param(_, _) => {}
    case Unary(_, x) => InlinedTrees(x, defs);
    case Binary(_, l, r) => InlinedTrees(l, defs); InlinedTrees(r, defs);
    case Cond(c, t, f) => InlinedTrees(c, defs); InlinedTrees(t, defs); InlinedTrees(f, defs);
    case Call(n, args, _) =>
      InlinedArgs(args, defs);
      InlinedArgs(SourceArgs(n, args), defs);
      ArgsSplit(n, args);
      InlineAppend(TickerArgs(n, args), SourceArgs(n, args), defs);
      assert SourceArgs(n, InlineArgs(args, defs)) == InlineArgs(SourceArgs(n, args), defs);
  }

  lemma {:induction false} InlinedArgs(args: seq<Expr>, defs: Bodies)
    requires Clean(defs, defs.Keys)
    ensures CloneArgs(InlineArgs(args, defs)) == InlineArgs(args, defs) && RefsArgs(InlineArgs(args, defs)) !! defs.Keys
    decreases args, 0
  {
    if args != [] {
      InlinedTrees(args[0], defs);
      InlinedArgs(args[1..], defs);
      assert InlineArgs(args, defs)[1..] == InlineArgs(args[1..], defs);
    }
  }

  /** For definitions that refer to nothing defined: inlining preserves every meaning if no ticker has a
      definition, and otherwise there is a meaning it changes. */
  lemma ClashChangesMeaning(e: Expr, defs: Bodies)
    requires Clean(defs, defs.Keys)
    ensures MeansItsName(Syntax(), Bound(defs), defs)
    ensures Meaning(Syntax(), Bound(defs), InlineExpr(e, defs)) == Meaning(Syntax(), Bound(defs), e) <==>
            Tickers(e) !! defs.Keys
  {
    CleanHasNoAlias(defs);
    forall n | n in defs ensures Meaning(Syntax(), Bound(defs), defs[n]) == Bound(defs)(n) {
      SyntaxSubstitutes(defs[n], defs);
      SubstNothing(defs[n], defs);
    }
    SyntaxSubstitutes(e, defs);
    SyntaxSubstitutes(InlineExpr(e, defs), defs);
    InlinedTrees(e, defs);
    SubstNothing(InlineExpr(e, defs), defs);
    InlineIsSubst(e, defs);
  }
}

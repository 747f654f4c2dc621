/** Whole programs: the depth-first search over signal references, and what the resolved bodies are. */
module InlineProgram {
  import opened Options
  import opened Ast
  import opened Evaluation
  import opened Inline

  predicate UniqueNames(signals: seq<Signal>) {
    forall i, j :: 0 <= i < j < |signals| ==> signals[i].name != signals[j].name
  }

  ghost function Index(signals: seq<Signal>): (m: map<string, nat>)
    requires UniqueNames(signals)
    ensures forall n :: n in m ==> m[n] < |signals| && signals[m[n]].name == n
    ensures forall i :: 0 <= i < |signals| ==> signals[i].name in m && m[signals[i].name] == i
  {
    map i: nat | i < |signals| :: signals[i].name := i
  }

  /** The definitions a body is inlined with. */
  ghost function DefsOf(signals: seq<Signal>, resolved: seq<Expr>, i: nat): (d: Bodies)
    requires UniqueNames(signals) && i < |signals| == |resolved|
    ensures d.Keys == Refs(signals[i].body) * Index(signals).Keys
  {
    map n | n in Refs(signals[i].body) && n in Index(signals) :: resolved[Index(signals)[n]]
  }

  ghost predicate DependsOn(signals: seq<Signal>, i: nat, j: nat)
    requires UniqueNames(signals)
  {
    i < |signals| && j < |signals| && signals[j].name in Refs(signals[i].body)
  }

  ghost predicate Chain(signals: seq<Signal>, p: seq<nat>)
    requires UniqueNames(signals)
  {
    && (forall k :: 0 <= k < |p| ==> p[k] < |signals|)
    && (forall k :: 0 < k < |p| ==> DependsOn(signals, p[k - 1], p[k]))
  }

  ghost predicate IsCycle(signals: seq<Signal>, p: seq<nat>)
    requires UniqueNames(signals)
  {
    |p| >= 2 && Chain(signals, p) && p[0] == p[|p| - 1]
  }

  ghost predicate OnCycle(signals: seq<Signal>, i: nat)
    requires UniqueNames(signals)
  {
    exists p: seq<nat> :: IsCycle(signals, p) && p[0] == i
  }

  ghost predicate Cyclic(signals: seq<Signal>)
    requires UniqueNames(signals)
  {
    exists i: nat :: OnCycle(signals, i)
  }

  /** Every signal in it comes after those it depends on. */
  ghost predicate Sorted(signals: seq<Signal>, order: seq<nat>)
    requires UniqueNames(signals)
  {
    && (forall k :: 0 <= k < |order| ==> order[k] < |signals|)
    && (forall k, j: nat :: 0 <= k < |order| && DependsOn(signals, order[k], j) ==> j in order[..k])
  }

  ghost predicate Complete(signals: seq<Signal>, order: seq<nat>) {
    forall i: nat :: i < |signals| ==> i in order
  }

  function First(order: seq<nat>, i: nat): (k: nat)
    requires i in order
    ensures k < |order| && order[k] == i
  {
    if order[0] == i then 0 else 1 + First(order[1..], i)
  }

  lemma {:induction false} FirstAtMost(order: seq<nat>, i: nat, k: nat)
    requires k <= |order| && i in order[..k]
    ensures i in order && First(order, i) < k
    decreases k
  {
    if order[0] != i {
      assert order[..k][1..] == order[1..][..k - 1];
      FirstAtMost(order[1..], i, k - 1);
    }
  }

  lemma {:induction false} ChainDescends(signals: seq<Signal>, order: seq<nat>, p: seq<nat>)
    requires UniqueNames(signals) && Sorted(signals, order) && Complete(signals, order)
    requires Chain(signals, p) && |p| >= 2
    ensures p[0] < |signals| && p[|p| - 1] < |signals| && First(order, p[|p| - 1]) < First(order, p[0])
    decreases |p|
  {
    var k := First(order, p[0]);
    assert DependsOn(signals, p[0], p[1]);
    FirstAtMost(order, p[1], k);
    if |p| > 2 {
      var q := p[1..];
      forall k | 0 < k < |q| ensures DependsOn(signals, q[k - 1], q[k]) {
        assert DependsOn(signals, p[k], p[k + 1]);
      }
      ChainDescends(signals, order, q);
    }
  }

  /** A program that can be sorted has no cycle. */
  lemma SortedIsAcyclic(signals: seq<Signal>, order: seq<nat>)
    requires UniqueNames(signals) && Sorted(signals, order) && Complete(signals, order)
    ensures !Cyclic(signals)
  {
    if i: nat :| OnCycle(signals, i) {
      var p :| IsCycle(signals, p) && p[0] == i;
      ChainDescends(signals, order, p);
    }
  }

  ghost predicate ResolvedAt(signals: seq<Signal>, resolved: seq<Expr>, i: nat)
    requires UniqueNames(signals) && i < |signals| == |resolved|
  {
    resolved[i] == InlineExpr(signals[i].body, DefsOf(signals, resolved, i))
  }

  /** What the compiler's search produces. */
  ghost predicate Resolves(signals: seq<Signal>, resolved: seq<Expr>)
    requires UniqueNames(signals)
  {
    |resolved| == |signals| && forall i: nat :: i < |signals| ==> ResolvedAt(signals, resolved, i)
  }

  ghost predicate SubstitutedAt(signals: seq<Signal>, resolved: seq<Expr>, i: nat)
    requires UniqueNames(signals) && i < |signals| == |resolved|
  {
    resolved[i] == Subst(signals[i].body, DefsOf(signals, resolved, i))
  }

  /** What it should produce: references replaced by resolved bodies, tickers left alone. */
  ghost predicate Substitutes(signals: seq<Signal>, resolved: seq<Expr>)
    requires UniqueNames(signals)
  {
    |resolved| == |signals| && forall i: nat :: i < |signals| ==> SubstitutedAt(signals, resolved, i)
  }

  lemma DefsFrame(signals: seq<Signal>, a: seq<Expr>, b: seq<Expr>, i: nat)
    requires UniqueNames(signals) && i < |signals| == |a| == |b|
    requires forall j: nat :: DependsOn(signals, i, j) ==> a[j] == b[j]
    ensures DefsOf(signals, a, i) == DefsOf(signals, b, i)
  {
    forall n | n in Refs(signals[i].body) && n in Index(signals) ensures a[Index(signals)[n]] == b[Index(signals)[n]] {
      assert DependsOn(signals, i, Index(signals)[n]);
    }
  }

  lemma InOrder(order: seq<nat>, k: nat, j: nat) returns (f: nat)
    requires k <= |order| && j in order[..k]
    ensures f < k && order[f] == j
  {
    f := First(order[..k], j);
  }

  /** An acyclic program has one resolution, whatever order its references are visited in. */
  lemma {:induction false} ResolutionIsUnique(signals: seq<Signal>, order: seq<nat>, a: seq<Expr>, b: seq<Expr>, k: nat)
    requires UniqueNames(signals) && Sorted(signals, order) && Resolves(signals, a) && Resolves(signals, b) &&
             k < |order|
    ensures a[order[k]] == b[order[k]]
    decreases k
  {
    var i := order[k];
    forall j: nat | DependsOn(signals, i, j) ensures a[j] == b[j] {
      var f := InOrder(order, k, j);
      ResolutionIsUnique(signals, order, a, b, f);
    }
    DefsFrame(signals, a, b, i);
    assert ResolvedAt(signals, a, i) && ResolvedAt(signals, b, i);
  }

  ghost predicate CleanAt(signals: seq<Signal>, resolved: seq<Expr>, i: nat)
    requires UniqueNames(signals) && i < |resolved|
  {
    Refs(resolved[i]) !! Index(signals).Keys
  }

  /** In body `i`, a ticker shares its name with a signal the body also refers to. */
  ghost predicate Clash(signals: seq<Signal>, i: nat)
    requires UniqueNames(signals) && i < |signals|
  {
    !(Tickers(signals[i].body) !! Refs(signals[i].body) * Index(signals).Keys)
  }

  lemma CleanDefs(signals: seq<Signal>, resolved: seq<Expr>, i: nat)
    requires UniqueNames(signals) && i < |signals| == |resolved|
    requires forall j: nat :: DependsOn(signals, i, j) ==> CleanAt(signals, resolved, j)
    ensures var defs := DefsOf(signals, resolved, i);
      Clean(defs, Index(signals).Keys) && Clean(defs, defs.Keys) && NoSelfAlias(defs) &&
          Refs(signals[i].body) * Index(signals).Keys <= defs.Keys
  {
    var defs := DefsOf(signals, resolved, i);
    forall n | n in defs ensures Refs(defs[n]) !! Index(signals).Keys {
      var j := Index(signals)[n];
      assert DependsOn(signals, i, j);
      assert CleanAt(signals, resolved, j);
    }
    CleanHasNoAlias(defs);
  }

  /** Substituted bodies refer to no defined signal. */
  lemma {:induction false} SubstitutedIsClean(signals: seq<Signal>, order: seq<nat>, resolved: seq<Expr>, k: nat)
    requires UniqueNames(signals) && Sorted(signals, order) && Substitutes(signals, resolved) && k < |order|
    ensures CleanAt(signals, resolved, order[k])
    decreases k
  {
    var i := order[k];
    forall j: nat | DependsOn(signals, i, j) ensures CleanAt(signals, resolved, j) {
      var f := InOrder(order, k, j);
      SubstitutedIsClean(signals, order, resolved, f);
    }
    CleanDefs(signals, resolved, i);
    assert SubstitutedAt(signals, resolved, i);
    SubstRefs(signals[i].body, DefsOf(signals, resolved, i), Index(signals).Keys);
  }

  /** So do inlined bodies up to the first clash. */
  lemma {:induction false} InlinedIsClean(signals: seq<Signal>, order: seq<nat>, resolved: seq<Expr>, k: nat, end: nat)
    requires UniqueNames(signals) && Sorted(signals, order) && Resolves(signals, resolved) && k < end <= |order|
    requires forall j: nat :: j in order[..end] ==> j < |signals| && !Clash(signals, j)
    ensures CleanAt(signals, resolved, order[k])
    decreases k
  {
    assert order[k] in order[..end];
    var i := order[k];
    forall j: nat | DependsOn(signals, i, j) ensures CleanAt(signals, resolved, j) {
      var f := InOrder(order, k, j);
      InlinedIsClean(signals, order, resolved, f, end);
    }
    CleanDefs(signals, resolved, i);
    assert ResolvedAt(signals, resolved, i) && !Clash(signals, i);
    InlineIsSubst(signals[i].body, DefsOf(signals, resolved, i));
    SubstRefs(signals[i].body, DefsOf(signals, resolved, i), Index(signals).Keys);
  }

  /** The compiler's resolution of an acyclic program is substitution for references exactly when no body has a
      ticker that shares its name with a signal the body refers to. */
  lemma InliningSubstitutesIff(signals: seq<Signal>, order: seq<nat>, resolved: seq<Expr>)
    requires UniqueNames(signals) && Sorted(signals, order) && Complete(signals, order) && Resolves(signals, resolved)
    ensures Substitutes(signals, resolved) <==> forall i: nat :: i < |signals| ==> !Clash(signals, i)
  {
    if Substitutes(signals, resolved) {
      forall i: nat | i < |signals| ensures !Clash(signals, i) {
        forall j: nat | DependsOn(signals, i, j) ensures CleanAt(signals, resolved, j) {
          SubstitutedIsClean(signals, order, resolved, First(order, j));
        }
        CleanDefs(signals, resolved, i);
        assert ResolvedAt(signals, resolved, i) && SubstitutedAt(signals, resolved, i);
        InlineIsSubst(signals[i].body, DefsOf(signals, resolved, i));
      }
    }
    if forall i: nat :: i < |signals| ==> !Clash(signals, i) {
      forall i: nat | i < |signals| ensures SubstitutedAt(signals, resolved, i) {
        forall j: nat | DependsOn(signals, i, j) ensures CleanAt(signals, resolved, j) {
          InlinedIsClean(signals, order, resolved, First(order, j), |order|);
        }
        CleanDefs(signals, resolved, i);
        assert ResolvedAt(signals, resolved, i) && !Clash(signals, i);
        InlineIsSubst(signals[i].body, DefsOf(signals, resolved, i));
      }
    }
  }

  // ---- Meaning ----

  ghost predicate SolvesAt<V>(s: Sem<V>, env: string -> V, signals: seq<Signal>, i: nat)
    requires i < |signals|
  {
    env(signals[i].name) == Meaning(s, env, signals[i].body)
  }

  /** Every name stands for what its body means. */
  ghost predicate Solves<V>(s: Sem<V>, env: string -> V, signals: seq<Signal>) {
    forall i: nat :: i < |signals| ==> SolvesAt(s, env, signals, i)
  }

  ghost predicate ReadsResolved<V>(s: Sem<V>, env: string -> V, base: string -> V, signals: seq<Signal>,
                                   resolved: seq<Expr>, i: nat)
    requires i < |signals| == |resolved|
  {
    env(signals[i].name) == Meaning(s, base, resolved[i])
  }

  lemma {:induction false} SolutionMeans<V>(s: Sem<V>, env: string -> V, signals: seq<Signal>, order: seq<nat>,
                                            resolved: seq<Expr>, k: nat)
    requires UniqueNames(signals) && Sorted(signals, order) && Substitutes(signals, resolved) && k < |order|
    requires Solves(s, env, signals)
    ensures env(signals[order[k]].name) == Meaning(s, env, resolved[order[k]])
    decreases k
  {
    var i := order[k];
    var defs := DefsOf(signals, resolved, i);
    forall n | n in defs ensures Meaning(s, env, defs[n]) == env(n) {
      var j := Index(signals)[n];
      assert DependsOn(signals, i, j);
      var f := InOrder(order, k, j);
      SolutionMeans(s, env, signals, order, resolved, f);
    }
    SubstMeans(s, env, signals[i].body, defs);
    assert SolvesAt(s, env, signals, i) && SubstitutedAt(signals, resolved, i);
  }

  /** For substituted programs: an environment solves the program's equations if and only if it gives each name the
      meaning of its resolved body, which is read off the undefined names alone.  So the program has exactly
      one solution over each choice of the undefined names, and inlining computes it. */
  lemma InliningPreservesMeaning<V>(s: Sem<V>, env: string -> V, base: string -> V, signals: seq<Signal>,
                                    order: seq<nat>, resolved: seq<Expr>)
    requires UniqueNames(signals) && Sorted(signals, order) && Complete(signals, order) &&
             Substitutes(signals, resolved)
    requires forall n :: n !in Index(signals) ==> env(n) == base(n)
    ensures Solves(s, env, signals) <==> forall i: nat :: i < |signals| ==>
            ReadsResolved(s, env, base, signals, resolved, i)
  {
    forall i: nat | i < |signals| ensures Meaning(s, env, resolved[i]) == Meaning(s, base, resolved[i]) {
      SubstitutedIsClean(signals, order, resolved, First(order, i));
      assert CleanAt(signals, resolved, i);
      MeaningReads(s, env, base, resolved[i]);
    }
    if Solves(s, env, signals) {
      forall i: nat | i < |signals| ensures ReadsResolved(s, env, base, signals, resolved, i) {
        SolutionMeans(s, env, signals, order, resolved, First(order, i));
      }
    }
    if forall i: nat :: i < |signals| ==> ReadsResolved(s, env, base, signals, resolved, i) {
      forall i: nat | i < |signals| ensures SolvesAt(s, env, signals, i) {
        var defs := DefsOf(signals, resolved, i);
        forall n | n in defs ensures Meaning(s, env, defs[n]) == env(n) {
          assert ReadsResolved(s, env, base, signals, resolved, Index(signals)[n]);
        }
        SubstMeans(s, env, signals[i].body, defs);
        assert ReadsResolved(s, env, base, signals, resolved, i) && SubstitutedAt(signals, resolved, i);
      }
    }
  }

  /** The first body in which there is a clash has a meaning that inlining changes. */
  lemma ClashIsVisible(signals: seq<Signal>, order: seq<nat>, resolved: seq<Expr>, k: nat)
    requires UniqueNames(signals) && Sorted(signals, order) && Resolves(signals, resolved) && k < |order|
    requires Clash(signals, order[k]) && forall j: nat :: j in order[..k] ==> j < |signals| && !Clash(signals, j)
    ensures var i := order[k];
      var defs := DefsOf(signals, resolved, i);
      && MeansItsName(Syntax(), Bound(defs), defs)
      && Meaning(Syntax(), Bound(defs), resolved[i]) != Meaning(Syntax(), Bound(defs), signals[i].body)
  {
    var i := order[k];
    forall j: nat | DependsOn(signals, i, j) ensures CleanAt(signals, resolved, j) {
      var f := InOrder(order, k, j);
      InlinedIsClean(signals, order, resolved, f, k);
    }
    CleanDefs(signals, resolved, i);
    assert ResolvedAt(signals, resolved, i);
    ClashChangesMeaning(signals[i].body, DefsOf(signals, resolved, i));
  }

  /** If any body has a clash, some body has: the resolution preserves every meaning only without clashes. */
  lemma ClashesAreVisible(signals: seq<Signal>, order: seq<nat>, resolved: seq<Expr>, i: nat, k: nat)
      returns (first: nat)
    requires UniqueNames(signals) && Sorted(signals, order) && Complete(signals, order) && Resolves(signals, resolved)
    requires i < |signals| && Clash(signals, i)
    requires k < |order| && i in order[k..] && forall j: nat :: j in order[..k] ==> j < |signals| && !Clash(signals, j)
    ensures first < |signals|
    ensures var defs := DefsOf(signals, resolved, first);
      && MeansItsName(Syntax(), Bound(defs), defs)
      && Meaning(Syntax(), Bound(defs), resolved[first]) != Meaning(Syntax(), Bound(defs), signals[first].body)
    decreases |order| - k
  {
    if Clash(signals, order[k]) {
      ClashIsVisible(signals, order, resolved, k);
      first := order[k];
    } else {
      assert order[..k + 1] == order[..k] + [order[k]] && order[k..] == [order[k]] + order[k + 1..];
      first := ClashesAreVisible(signals, order, resolved, i, k + 1);
    }
  }

  // ---- The search ----

  method CollectRefs(e: Expr, refs: set<string>) returns (out: set<string>)
    ensures out == refs + Refs(e)
    decreases e
  {
    match e
    case Num(_) => out := refs;
    case Ident(n) => out := refs + {n};
    case Param(_, _) => out := refs;
    case Unary(_, x) => out := CollectRefs(x, refs);
    case Binary(_, l, r) =>
      out := CollectRefs(l, refs);
      out := CollectRefs(r, out);
    case Cond(c, t, f) =>
      out := CollectRefs(c, refs);
      out := CollectRefs(t, out);
      out := CollectRefs(f, out);
    case Call(n, args, _) =>
      var i := if IsTickerFn(n) && |args| > 0 then 1 else 0;
      out := refs;
      assert SourceArgs(n, args) == args[i..];
      while i < |args|
        invariant 0 <= i <= |args|
        invariant out + RefsArgs(args[i..]) == refs + Refs(e)
      {
        assert args[i..][1..] == args[i + 1..];
        out := CollectRefs(args[i], out);
        i := i + 1;
      }
  }

  datatype Outcome = Inlined(bodies: seq<Expr>) | DuplicateName(name: string) | Cycle(at: nat)

  const UNVISITED := 0
  const VISITING := 1
  const DONE := 2

  /** The search between two calls: `stack` are the signals being visited, each depending on the next, and
      `done` those resolved, in the order they were finished. */
  ghost predicate Searching(signals: seq<Signal>, state: seq<int>, resolved: seq<Expr>, done: seq<nat>, stack: seq<nat>)
  {
    && UniqueNames(signals) && |state| == |resolved| == |signals|
    && Chain(signals, stack) && Sorted(signals, done)
    && (forall j: nat :: j < |signals| ==>
          UNVISITED <= state[j] <= DONE && (state[j] == VISITING <==> j in stack) && (state[j] == DONE <==> j in done))
    && (forall j: nat :: j < |signals| && j in done ==> ResolvedAt(signals, resolved, j))
  }

  function Zeros(state: seq<int>): set<nat> {
    set j: nat | j < |state| && state[j] == UNVISITED
  }

  lemma Enters(signals: seq<Signal>, state: seq<int>, resolved: seq<Expr>, done: seq<nat>, stack: seq<nat>, i: nat)
    requires Searching(signals, state, resolved, done, stack) && i < |signals| && state[i] == UNVISITED
    requires stack != [] ==> DependsOn(signals, stack[|stack| - 1], i)
    ensures Searching(signals, state[i := VISITING], resolved, done, stack + [i])
    ensures Zeros(state[i := VISITING]) < Zeros(state)
  {
    ChainSnoc(signals, stack, i);
    assert i in Zeros(state);
    hide Chain, Sorted, DependsOn, ResolvedAt, UniqueNames;
  }

  lemma Leaves(signals: seq<Signal>, state: seq<int>, resolved: seq<Expr>, done: seq<nat>, stack: seq<nat>, i: nat)
    requires i < |signals| && i !in stack && Searching(signals, state, resolved, done, stack + [i])
    requires forall j: nat :: DependsOn(signals, i, j) ==> j in done
    ensures Searching(signals, state[i := DONE],
                      resolved[i := InlineExpr(signals[i].body, DefsOf(signals, resolved, i))], done + [i], stack)
    ensures Zeros(state[i := DONE]) == Zeros(state)
  {
    ChainPrefix(signals, stack, i);
    SortedSnoc(signals, done, i);
    assert i in stack + [i];
    ResolvesOneMore(signals, resolved, done, i);
    hide Chain, Sorted, DefsOf, DependsOn, ResolvedAt, UniqueNames, InlineExpr;
  }

  lemma ResolvesOneMore(signals: seq<Signal>, resolved: seq<Expr>, done: seq<nat>, i: nat)
    requires UniqueNames(signals) && i < |signals| == |resolved| && Sorted(signals, done) && i !in done
    requires forall j: nat :: DependsOn(signals, i, j) ==> j in done
    requires forall j: nat :: j < |signals| && j in done ==> ResolvedAt(signals, resolved, j)
    ensures var after := resolved[i := InlineExpr(signals[i].body, DefsOf(signals, resolved, i))];
      forall j: nat :: j < |signals| && j in done + [i] ==> ResolvedAt(signals, after, j)
  {
    hide DefsOf, InlineExpr, Sorted, DependsOn;
    var after := resolved[i := InlineExpr(signals[i].body, DefsOf(signals, resolved, i))];
    forall j: nat | j < |signals| && j in done + [i] ensures ResolvedAt(signals, after, j) {
      forall d: nat | DependsOn(signals, j, d) ensures d < |signals| && resolved[d] == after[d] {
        if j in done { DependenciesDone(signals, done, j, d); }
        DependsWithin(signals, j, d);
      }
      DefsFrame(signals, resolved, after, j);
    }
  }

  lemma DependsWithin(signals: seq<Signal>, i: nat, j: nat)
    requires UniqueNames(signals) && DependsOn(signals, i, j)
    ensures i < |signals| && j < |signals|
  {
  }

  class Inliner {
    const signals: seq<Signal>
    const index: map<string, nat>
    const state: array<int>
    const resolved: array<Expr>
    ghost var done: seq<nat>

    ghost predicate Valid(stack: seq<nat>)
      reads this, state, resolved
    {
      Searching(signals, state[..], resolved[..], done, stack) && index == Index(signals)
    }

    constructor (signals: seq<Signal>, index: map<string, nat>)
      requires UniqueNames(signals) && index == Index(signals)
      ensures Valid([]) && done == [] && this.signals == signals && fresh(state) && fresh(resolved)
    {
      this.signals, this.index := signals, index;
      state := new int[|signals|](_ => UNVISITED);
      resolved := new Expr[|signals|](_ => Num(0));
      done := [];
    }

    method Visit(i: nat, ghost stack: seq<nat>) returns (cycle: Option<nat>)
      requires Valid(stack) && i < |signals|
      requires stack != [] ==> DependsOn(signals, stack[|stack| - 1], i)
      modifies this`done, state, resolved
      ensures cycle.None? ==>
        Valid(stack) && i in done && old(done) <= done && Zeros(state[..]) <= old(Zeros(state[..]))
      ensures cycle.Some? ==> OnCycle(signals, cycle.value)
      decreases Zeros(state[..])
    {
      if state[i] == DONE { return None; }
      if state[i] == VISITING {
        ClosesCycle(signals, stack, i);
        return Some(i);
      }
      assert i !in stack;
      Enters(signals, state[..], resolved[..], done, stack, i);
      ghost var before, inner := state[..], stack + [i];
      state[i] := VISITING;
      assert state[..] == before[i := VISITING];
      hide Searching, Zeros;
      var refs := CollectRefs(signals[i].body, {});
      var rest := refs;
      while rest != {}
        invariant rest <= refs && Valid(inner) && old(done) <= done
        invariant Zeros(state[..]) < Zeros(before)
        invariant forall n :: n in refs && n !in rest && n in index ==> index[n] in done
        decreases rest
      {
        var r :| r in rest;
        rest := rest - {r};
        if r in index {
          cycle := Visit(index[r], inner);
          if cycle.Some? { return; }
        }
      }
      Finish(i, stack, refs);
      cycle := None;
    }

    method VisitAll() returns (cycle: Option<nat>)
      requires Valid([])
      modifies this`done, state, resolved
      ensures cycle.None? ==> Valid([]) && Complete(signals, done)
      ensures cycle.Some? ==> OnCycle(signals, cycle.value)
    {
      hide Searching, Zeros;
      var i := 0;
      while i < |signals|
        invariant 0 <= i <= |signals| && Valid([])
        invariant forall j: nat :: j < i ==> j in done
      {
        ghost var before := done;
        cycle := Visit(i, []);
        if cycle.Some? { return; }
        forall j: nat | j < i ensures j in done {
          assert before[First(before, j)] == done[First(before, j)];
        }
        i := i + 1;
      }
      cycle := None;
    }

    /** The last steps of a visit, once all references are resolved. */
    method Finish(i: nat, ghost stack: seq<nat>, refs: set<string>)
      requires i < |signals| && i !in stack && Valid(stack + [i]) && refs == Refs(signals[i].body)
      requires forall n :: n in refs && n in index ==> index[n] in done
      modifies this`done, state, resolved
      ensures Valid(stack) && done == old(done) + [i] && Zeros(state[..]) == old(Zeros(state[..]))
    {
      AllReferencesDone(signals, i, done);
      Leaves(signals, state[..], resolved[..], done, stack, i);
      var defs := map n | n in refs && n in index :: resolved[index[n]];
      DefsAre(signals, resolved[..], i, defs);
      hide Searching, Zeros;
      ghost var st, res := state[..], resolved[..];
      resolved[i] := InlineExpr(signals[i].body, defs);
      state[i] := DONE;
      done := done + [i];
      assert state[..] == st[i := DONE] && resolved[..] == res[i := InlineExpr(signals[i].body, defs)];
    }
  }

  lemma AllReferencesDone(signals: seq<Signal>, i: nat, done: seq<nat>)
    requires UniqueNames(signals) && i < |signals|
    requires forall n :: n in Refs(signals[i].body) && n in Index(signals) ==> Index(signals)[n] in done
    ensures forall j: nat :: DependsOn(signals, i, j) ==> j in done
  {
    forall j: nat | DependsOn(signals, i, j) ensures j in done {
      assert Index(signals)[signals[j].name] == j;
    }
  }

  lemma DefsAre(signals: seq<Signal>, resolved: seq<Expr>, i: nat, defs: Bodies)
    requires UniqueNames(signals) && i < |signals| == |resolved|
    requires defs.Keys == Refs(signals[i].body) * Index(signals).Keys
    requires forall n :: n in defs ==> defs[n] == resolved[Index(signals)[n]]
    ensures defs == DefsOf(signals, resolved, i)
  {
  }

  lemma ChainPrefix(signals: seq<Signal>, stack: seq<nat>, i: nat)
    requires UniqueNames(signals) && Chain(signals, stack + [i])
    ensures Chain(signals, stack)
  {
    var p := stack + [i];
    forall k | 0 <= k < |stack| ensures stack[k] < |signals| && (k > 0 ==> DependsOn(signals, stack[k - 1], stack[k])) {
      assert p[k] == stack[k] && (k > 0 ==> p[k - 1] == stack[k - 1]);
    }
  }

  lemma ChainSnoc(signals: seq<Signal>, stack: seq<nat>, i: nat)
    requires UniqueNames(signals) && Chain(signals, stack) && i < |signals|
    requires stack != [] ==> DependsOn(signals, stack[|stack| - 1], i)
    ensures Chain(signals, stack + [i])
  {
  }

  lemma SortedSnoc(signals: seq<Signal>, done: seq<nat>, i: nat)
    requires UniqueNames(signals) && Sorted(signals, done) && i < |signals|
    requires forall j: nat :: DependsOn(signals, i, j) ==> j in done
    ensures Sorted(signals, done + [i])
  {
    var after := done + [i];
    forall k, j: nat | 0 <= k < |after| && DependsOn(signals, after[k], j) ensures j in after[..k] {
      assert after[..k] == if k < |done| then done[..k] else done;
    }
  }

  lemma DependenciesDone(signals: seq<Signal>, done: seq<nat>, i: nat, j: nat)
    requires UniqueNames(signals) && Sorted(signals, done) && i in done && DependsOn(signals, i, j)
    ensures j in done
  {
    assert j in done[..First(done, i)];
  }

  lemma ClosesCycle(signals: seq<Signal>, stack: seq<nat>, i: nat)
    requires UniqueNames(signals) && Chain(signals, stack) && i in stack && DependsOn(signals, stack[|stack| - 1], i)
    ensures OnCycle(signals, i)
  {
    var k := First(stack, i);
    var p := stack[k..] + [i];
    forall m | 0 < m < |p| ensures DependsOn(signals, p[m - 1], p[m]) {
      if m < |p| - 1 { assert DependsOn(signals, stack[k + m - 1], stack[k + m]); }
    }
    assert IsCycle(signals, p) && p[0] == i;
  }

  /** The whole pass.  It returns the resolution if and only if names are unique and there is no cycle; otherwise it
      names a repeated name, or a signal on a cycle. */
  method InlineSignalDependencies(signals: seq<Signal>) returns (r: Outcome)
    ensures r.DuplicateName? <==> !UniqueNames(signals)
    ensures r.DuplicateName? ==> exists i, j :: 0 <= i < j < |signals| && signals[i].name == r.name == signals[j].name
    ensures r.Cycle? <==> UniqueNames(signals) && Cyclic(signals)
    ensures r.Cycle? ==> OnCycle(signals, r.at)
    ensures r.Inlined? ==>
      Resolves(signals, r.bodies) && exists order :: Sorted(signals, order) && Complete(signals, order)
  {
    var index, repeated := BuildIndex(signals);
    if repeated.Some? { return DuplicateName(repeated.value); }
    var inliner := new Inliner(signals, index);
    hide Chain, Sorted, DefsOf, DependsOn, ResolvedAt, UniqueNames, Zeros, Index;
    var cycle := inliner.VisitAll();
    if cycle.Some? { return Cycle(cycle.value); }
    SortedIsAcyclic(signals, inliner.done);
    r := Inlined(inliner.resolved[..]);
  }

  method BuildIndex(signals: seq<Signal>) returns (index: map<string, nat>, repeated: Option<string>)
    ensures repeated.None? <==> UniqueNames(signals)
    ensures repeated.None? ==> index == Index(signals)
    ensures repeated.Some? ==>
      exists i, j :: 0 <= i < j < |signals| && signals[i].name == repeated.value == signals[j].name
  {
    index := map[];
    var i := 0;
    while i < |signals|
      invariant 0 <= i <= |signals| && UniqueNames(signals[..i]) && index == Index(signals[..i])
    {
      if signals[i].name in index {
        ghost var j := index[signals[i].name];
        assert signals[..i][j].name == signals[i].name == signals[j].name;
        return index, Some(signals[i].name);
      }
      IndexSnoc(signals[..i], signals[i]);
      assert signals[..i + 1] == signals[..i] + [signals[i]];
      index := index[signals[i].name := i];
      i := i + 1;
    }
    assert signals[..i] == signals;
    repeated := None;
  }

  lemma IndexSnoc(before: seq<Signal>, s: Signal)
    requires UniqueNames(before) && s.name !in Index(before)
    ensures UniqueNames(before + [s]) && Index(before + [s]) == Index(before)[s.name := |before|]
  {
    var after := before + [s];
    forall i, j | 0 <= i < j < |after| ensures after[i].name != after[j].name {
      if j == |before| { assert before[i].name in Index(before); }
    }
    forall n ensures n in Index(after) <==> n in Index(before) || n == s.name {
      if n in Index(after) { assert after[Index(after)[n]].name == n; }
      if n in Index(before) { assert after[Index(before)[n]].name == n; }
      assert after[|before|].name == s.name;
    }
    forall n | n in Index(after) ensures Index(after)[n] == Index(before)[s.name := |before|][n] {
      if n in Index(before) {
        assert after[Index(before)[n]].name == n;
      } else {
        assert after[|before|].name == n;
      }
    }
  }
}

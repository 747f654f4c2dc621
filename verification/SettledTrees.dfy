/** In a settled program an id stands for one tree: every stateful call, at any depth, gets the id of the first
    equal unconditional call.  So the order of kalman1d's arguments does not matter to such a program. */
module SettledTrees {
  import opened Ast
  import opened Evaluation
  import opened Sharing
  import opened NodeIds
  import opened AllocSound
  import opened Program
  import opened Streams
  import opened StreamsProgram
  import opened AllocSteady
  import opened NoiseExchange

  /** Clones of the stateful calls of a tree, at any depth. */
  function AllClones(e: Expr): set<Expr>
    decreases e, 1
  {
    match e
    case Unary(_, x) => AllClones(x)
    case Binary(_, l, r) => AllClones(l) + AllClones(r)
    case Cond(c, t, f) => AllClones(c) + AllClones(t) + AllClones(f)
    case Call(n, args, _) => AllClonesArgs(args) + if IsStatefulOp(n) then {CloneExpr(e)} else {}
    case _ => {}
  }

  function AllClonesArgs(args: seq<Expr>): set<Expr>
    decreases args, 0
  {
    if args == [] then {} else AllClones(args[0]) + AllClonesArgs(args[1..])
  }

  lemma {:induction false} AllClonesOfClone(e: Expr)
    ensures AllClones(CloneExpr(e)) == AllClones(e)
    decreases e, 1
  {
    match e
    case Unary(_, x) => AllClonesOfClone(x);
    case Binary(_, l, r) => AllClonesOfClone(l); AllClonesOfClone(r);
    case Cond(c, t, f) => AllClonesOfClone(c); AllClonesOfClone(t); AllClonesOfClone(f);
    case Call(n, args, _) => CloneIdempotent(e); AllClonesOfClones(args);
    case _ => {}
  }

  lemma {:induction false} AllClonesOfClones(args: seq<Expr>)
    ensures AllClonesArgs(CloneArgs(args)) == AllClonesArgs(args)
    decreases args, 0
  {
    if args != [] {
      AllClonesOfClone(args[0]);
      AllClonesOfClones(args[1..]);
      assert CloneArgs(args)[1..] == CloneArgs(args[1..]);
    }
  }

  /** The list of seen calls gives `call` this id. */
  predicate OwnedCall(seen: seq<SeenStateful>, call: Expr) {
    call.Call? && call.nodeId > 0 && (forall s <- seen :: s.node.Call?) && TryAliasNodeId(seen, call) == call.nodeId
  }

  predicate Owned(seen: seq<SeenStateful>, calls: set<Expr>) {
    forall c <- calls :: OwnedCall(seen, c)
  }

  lemma {:induction false} AliasKept(seen: seq<SeenStateful>, more: seq<SeenStateful>, call: Expr)
    requires forall s <- seen + more :: s.node.Call?
    requires forall s <- seen :: s.node.Call?
    requires TryAliasNodeId(seen, call) > 0
    ensures TryAliasNodeId(seen + more, call) == TryAliasNodeId(seen, call)
  {
    if seen != [] {
      assert (seen + more)[1..] == seen[1..] + more && (seen + more)[0] == seen[0];
      if !(seen[0].unconditional && AstEquals(seen[0].node, call)) { AliasKept(seen[1..], more, call); }
    }
  }

  lemma OwnedKept(seen: seq<SeenStateful>, seen': seq<SeenStateful>, calls: set<Expr>)
    requires Owned(seen, calls) && seen <= seen' && forall s <- seen' :: s.node.Call?
    ensures Owned(seen', calls)
  {
    assert seen' == seen + seen'[|seen|..];
    forall c | c in calls ensures OwnedCall(seen', c) {
      AliasKept(seen, seen'[|seen|..], c);
    }
  }

  /** Aliasing looks at the clone only. */
  lemma {:induction false} AliasOfClone(seen: seq<SeenStateful>, a: Expr, b: Expr)
    requires CloneExpr(a) == CloneExpr(b) && forall s <- seen :: s.node.Call?
    ensures TryAliasNodeId(seen, a) == TryAliasNodeId(seen, b)
  {
    if seen != [] {
      AstEqualsIsEqualClones(seen[0].node, a);
      AstEqualsIsEqualClones(seen[0].node, b);
      AliasOfClone(seen[1..], a, b);
    }
  }

  // ---- Where every call can be aliased ----

  /** Everything in `clones` is equal to an unconditional entry. */
  ghost predicate Aliasable(seen: seq<SeenStateful>, clones: set<Expr>) {
    forall k <- clones :: exists s <- seen :: s.unconditional && CloneExpr(s.node) == k
  }

  lemma {:induction false} WalkAliases(e: Expr, unconditional: bool, st: AllocState)
    requires Unallocated(e) && Ready(st) && Aliasable(st.seen, AllClones(e))
    ensures Walk(e, unconditional, st).1 == st && Owned(st.seen, StatefulIn(Walk(e, unconditional, st).0))
    ensures CloneExpr(Walk(e, unconditional, st).0) == CloneExpr(e)
    decreases e, 1
  {
    hide KindOf, OwnedCall;
    match e
    case Unary(_, x) => WalkAliases(x, unconditional, st);
    case Binary(_, l, r) => WalkAliases(l, unconditional, st); WalkAliases(r, unconditional, st);
    case Cond(c, t, f) => WalkAliases(c, unconditional, st); WalkAliases(t, false, st); WalkAliases(f, false, st);
    case Call(_, _, _) => WalkCallAliases(e, unconditional, st);
    case _ => {}
  }

  lemma {:induction false} WalkCallAliases(e: Expr, unconditional: bool, st: AllocState)
    requires e.Call? && Unallocated(e) && Ready(st) && Aliasable(st.seen, AllClones(e))
    ensures Walk(e, unconditional, st).1 == st && Owned(st.seen, StatefulIn(Walk(e, unconditional, st).0))
    ensures CloneExpr(Walk(e, unconditional, st).0) == CloneExpr(e)
    decreases e, 0
  {
    hide KindOf, OwnedCall, IsStatefulOp, TryAliasNodeId, Assign, Aliasable, AllClones;
    AssignAliases(e, unconditional, st);
    WalkAliasesArgs(e.args, unconditional, st);
    var e' := Walk(e, unconditional, st).0;
    if IsStatefulOp(e.name) { AliasIsOwned(e, e', st.seen); }
  }

  lemma AssignAliases(e: Expr, unconditional: bool, st: AllocState)
    requires e.Call? && Unallocated(e) && Ready(st) && Aliasable(st.seen, AllClones(e))
    ensures Assign(e, unconditional, st).1 == st && Aliasable(st.seen, AllClonesArgs(e.args))
    ensures IsStatefulOp(e.name) ==> Assign(e, unconditional, st).0 == TryAliasNodeId(st.seen, e) > 0
  {
    hide KindOf, IsStatefulOp;
    AliasFound(st.seen, e);
    assert IsStatefulOp(e.name) ==> CloneExpr(e) in AllClones(e);
  }

  lemma AliasIsOwned(e: Expr, e': Expr, seen: seq<SeenStateful>)
    requires e.Call? && e'.Call? && CloneExpr(e') == CloneExpr(e) && forall s <- seen :: s.node.Call?
    requires e'.nodeId == TryAliasNodeId(seen, e) > 0
    ensures OwnedCall(seen, e')
  {
    AliasOfClone(seen, e, e');
  }

  lemma {:induction false} WalkAliasesArgs(args: seq<Expr>, unconditional: bool, st: AllocState)
    requires UnallocatedArgs(args) && Ready(st) && Aliasable(st.seen, AllClonesArgs(args))
    ensures WalkArgs(args, unconditional, st).1 == st &&
            Owned(st.seen, StatefulInArgs(WalkArgs(args, unconditional, st).0))
    ensures CloneArgs(WalkArgs(args, unconditional, st).0) == CloneArgs(args)
    decreases args, 0
  {
    hide KindOf, OwnedCall;
    if args != [] {
      WalkAliases(args[0], unconditional, st);
      WalkAliasesArgs(args[1..], unconditional, st);
      var a, rest := Walk(args[0], unconditional, st).0, WalkArgs(args[1..], unconditional, st).0;
      assert ([a] + rest)[1..] == rest;
      ConsClones(a, rest, args);
    }
  }

  // ---- Walking a settled body ----

  /** Whatever stands inside an entry that is surely cached can be aliased too, branches included. */
  ghost predicate Deep(seen: seq<SeenStateful>, avail: set<int>) {
    forall s <- seen | s.unconditional && s.node.Call? && s.node.nodeId in avail :: Aliasable(seen, AllClones(s.node))
  }

  lemma AliasableKept(seen: seq<SeenStateful>, seen': seq<SeenStateful>, clones: set<Expr>)
    requires Aliasable(seen, clones) && seen <= seen'
    ensures Aliasable(seen', clones)
  {
    forall k | k in clones ensures exists s <- seen' :: s.unconditional && CloneExpr(s.node) == k {
      var s :| s in seen && s.unconditional && CloneExpr(s.node) == k;
      assert s in seen';
    }
  }

  lemma EqualEntry(seen: seq<SeenStateful>, avail: set<int>, s: SeenStateful, e: Expr)
    requires Deep(seen, avail) && s in seen && s.unconditional && s.node.Call? && s.node.nodeId in avail
    requires CloneExpr(s.node) == CloneExpr(e)
    ensures Aliasable(seen, AllClones(e))
  {
    AllClonesOfClone(s.node);
    AllClonesOfClone(e);
  }

  lemma {:induction false} RepeatsDeep(e: Expr, seen: seq<SeenStateful>, avail: set<int>, bound: nat,
                                       earlier: set<Expr>)
    requires Repeats(e, earlier) && Known(earlier, seen, avail, bound) && Size(e) <= bound && Deep(seen, avail)
    ensures Aliasable(seen, AllClones(e))
    decreases e, 1
  {
    hide KindOf, Known, Deep;
    match e
    case Unary(_, x) => RepeatsDeep(x, seen, avail, bound, earlier);
    case Binary(_, l, r) => RepeatsDeep(l, seen, avail, bound, earlier); RepeatsDeep(r, seen, avail, bound, earlier);
    case Cond(c, t, f) =>
      RepeatsDeep(c, seen, avail, bound, earlier);
      RepeatsDeep(t, seen, avail, bound, earlier);
      RepeatsDeep(f, seen, avail, bound, earlier);
    case Call(n, args, _) =>
      if IsStatefulOp(n) {
        var s := KnownEntry(e, seen, avail, bound, earlier);
        EqualEntry(seen, avail, s, e);
      } else {
        RepeatsDeepArgs(args, seen, avail, bound, earlier);
      }
    case _ => {}
  }

  lemma KnownEntry(e: Expr, seen: seq<SeenStateful>, avail: set<int>, bound: nat, earlier: set<Expr>)
      returns (s: SeenStateful)
    requires Known(earlier, seen, avail, bound) && Size(e) <= bound && CloneExpr(e) in earlier
    ensures s in seen && s.unconditional && s.node.Call? && s.node.nodeId in avail && CloneExpr(s.node) == CloneExpr(e)
  {
    assert Size(CloneExpr(e)) == Size(e);
    assert CloneExpr(e) in Keys(seen, avail);
    s :| s in seen && s.unconditional && s.node.Call? && s.node.nodeId in avail && CloneExpr(e) == CloneExpr(s.node);
  }

  lemma {:induction false} RepeatsDeepArgs(args: seq<Expr>, seen: seq<SeenStateful>, avail: set<int>, bound: nat,
                                           earlier: set<Expr>)
    requires RepeatsArgs(args, earlier) && Known(earlier, seen, avail, bound) && SizeArgs(args) <= bound &&
             Deep(seen, avail)
    ensures Aliasable(seen, AllClonesArgs(args))
    decreases args, 0
  {
    hide Known, Deep;
    if args != [] {
      RepeatsDeep(args[0], seen, avail, bound, earlier);
      RepeatsDeepArgs(args[1..], seen, avail, bound, earlier);
    }
  }

  /** What the walk of a settled expression leaves. */
  ghost predicate OwnedAfter(calls: set<Expr>, clones: set<Expr>, st: AllocState, st': AllocState, avail': set<int>) {
    && st.seen <= st'.seen && (forall s <- st'.seen :: s.node.Call?)
    && Owned(st'.seen, calls) && Aliasable(st'.seen, clones) && Deep(st'.seen, avail')
  }

  lemma OwnedBoth(c1: set<Expr>, k1: set<Expr>, c2: set<Expr>, k2: set<Expr>, st: AllocState, st1: AllocState,
                  st2: AllocState, a1: set<int>, a2: set<int>)
    requires OwnedAfter(c1, k1, st, st1, a1) && OwnedAfter(c2, k2, st1, st2, a2)
    ensures OwnedAfter(c1 + c2, k1 + k2, st, st2, a2)
  {
    OwnedKept(st1.seen, st2.seen, c1);
    AliasableKept(st1.seen, st2.seen, k1);
    hide OwnedCall;
  }

  /** A branch that repeats leaves the state as it is. */
  lemma BranchOwned(e: Expr, st: AllocState, avail: set<int>, met: set<int>, bound: nat, earlier: set<Expr>)
    requires Unallocated(e) && Inv(st, avail, met, bound) && Size(e) <= bound && Deep(st.seen, avail)
    requires Known(earlier, st.seen, avail, bound) && Repeats(e, earlier)
    ensures Calls(st)
    ensures var (e', st') := Walk(e, false, st); st' == st && OwnedAfter(StatefulIn(e'), AllClones(e), st, st, avail)
  {
    hide Known, Deep, OwnedCall, AllClones, StatefulIn;
    assert Ready(st);
    RepeatsDeep(e, st.seen, avail, bound, earlier);
    WalkAliases(e, false, st);
  }

  lemma {:induction false} WalkOwned(e: Expr, st: AllocState, avail: set<int>, met: set<int>, bound: nat,
                                     earlier: set<Expr>)
    requires Unallocated(e) && Inv(st, avail, met, bound) && Size(e) <= bound && Deep(st.seen, avail)
    requires Known(earlier, st.seen, avail, bound) && Settled(e, earlier)
    ensures Calls(st)
    ensures var (e', st') := Walk(e, true, st);
      OwnedAfter(StatefulIn(e'), AllClones(e), st, st', AvailAfter(e', avail))
    decreases e, 1
  {
    InvFacts(st, avail, met, bound);
    hide KindOf, Inv, Known, Deep, Owned, OwnedAfter;
    match e
    case Unary(_, x) => WalkOwned(x, st, avail, met, bound, earlier);
    case Binary(_, l, r) =>
      WalkOwned(l, st, avail, met, bound, earlier);
      var st1, a1, m1 := AfterUncond(l, st, avail, met, bound, earlier);
      OwnedDeep(Walk(l, true, st).0, l, st, st1, a1);
      WalkOwned(r, st1, a1, m1, bound, earlier + UncondCalls(l));
      var (l', r') := (Walk(l, true, st).0, Walk(r, true, st1).0);
      OwnedBoth(StatefulIn(l'), AllClones(l), StatefulIn(r'), AllClones(r), st, st1, Walk(r, true, st1).1, a1,
                AvailAfter(r', a1));
    case Cond(_, _, _) => WalkOwnedCond(e, st, avail, met, bound, earlier);
    case Call(n, args, _) =>
      if IsStatefulOp(n) {
        WalkOwnedStateful(e, st, avail, met, bound, earlier);
      } else {
        WalkOwnedArgs(args, st, avail, met, bound, earlier);
      }
    case _ => NothingOwned(st, avail);
  }

  lemma {:induction false} WalkOwnedCond(e: Expr, st: AllocState, avail: set<int>, met: set<int>, bound: nat,
                                         earlier: set<Expr>)
    requires e.Cond?
    requires Unallocated(e) && Inv(st, avail, met, bound) && Size(e) <= bound && Deep(st.seen, avail)
    requires Known(earlier, st.seen, avail, bound) && Settled(e, earlier)
    ensures Calls(st)
    ensures var (e', st') := Walk(e, true, st);
      OwnedAfter(StatefulIn(e'), AllClones(e), st, st', AvailAfter(e', avail))
    decreases e, 0
  {
    InvFacts(st, avail, met, bound);
    hide KindOf, Inv, Known, Deep, Owned, OwnedAfter;
    var c, t, f := e.cond, e.thn, e.els;
    WalkOwned(c, st, avail, met, bound, earlier);
    var st1, a1, m1 := AfterUncond(c, st, avail, met, bound, earlier);
    var E := earlier + UncondCalls(c);
    OwnedDeep(Walk(c, true, st).0, c, st, st1, a1);
    BranchOwned(t, st1, a1, m1, bound, E);
    BranchOwned(f, st1, a1, m1, bound, E);
    var (c', t', f') := (Walk(c, true, st).0, Walk(t, false, st1).0, Walk(f, false, st1).0);
    OwnedBoth(StatefulIn(c'), AllClones(c), StatefulIn(t'), AllClones(t), st, st1, st1, a1, a1);
    OwnedBoth(StatefulIn(c') + StatefulIn(t'), AllClones(c) + AllClones(t), StatefulIn(f'), AllClones(f), st, st1, st1,
              a1, a1);
  }

  lemma OwnedDeep(e': Expr, e: Expr, st: AllocState, st': AllocState, avail': set<int>)
    requires OwnedAfter(StatefulIn(e'), AllClones(e), st, st', avail')
    ensures Deep(st'.seen, avail')
  {
  }

  lemma NothingOwned(st: AllocState, avail: set<int>)
    requires Calls(st) && Deep(st.seen, avail)
    ensures OwnedAfter({}, {}, st, st, avail)
  {
  }

  lemma {:induction false} WalkOwnedStateful(e: Expr, st: AllocState, avail: set<int>, met: set<int>, bound: nat,
                                             earlier: set<Expr>)
    requires e.Call? && IsStatefulOp(e.name)
    requires Unallocated(e) && Inv(st, avail, met, bound) && Size(e) <= bound && Deep(st.seen, avail)
    requires Known(earlier, st.seen, avail, bound) && Settled(e, earlier)
    ensures Calls(st)
    ensures var (e', st') := Walk(e, true, st);
      OwnedAfter(StatefulIn(e'), AllClones(e), st, st', AvailAfter(e', avail))
    decreases e, 0
  {
    InvFacts(st, avail, met, bound);
    if TryAliasNodeId(st.seen, e) > 0 {
      AliasOwned(e, st, avail, met, bound);
    } else {
      if CloneExpr(e) in earlier { RepeatAliases(e, st, avail, met, bound, earlier); }
      var id, inner, E := st.nextId, Size(e) - 1, earlier + {CloneExpr(e)};
      var entry := SeenStateful(e.(nodeId := id), true);
      var st1 := AllocState(id + 1, st.seen + [entry]);
      EntryClone(e, id);
      InvPushed(st, avail, met, bound, entry, inner);
      PendingKnown(e, st, avail, bound, earlier, entry);
      PendingDeep(st, avail, met, bound, entry);
      hide Inv, Known, KindOf, Deep, OwnedAfter;
      WalkOwnedArgs(e.args, st1, avail, met, inner, E);
      assert Assign(e, true, st) == (id, st1);
      WalkSoundArgs(e.args, true, st1, avail, met, inner);
      PendingId(e.args, st1, avail, met, inner, id);
      FreshOwned(e, st, avail, met, bound, entry, st1);
    }
  }

  /** The id of a call whose arguments are being walked is not surely cached after them. */
  lemma PendingId(args: seq<Expr>, st: AllocState, avail: set<int>, met: set<int>, bound: nat, id: int)
    requires Calls(st) && id !in met && avail <= met && id < st.nextId
    requires var (args', st') := WalkArgs(args, true, st);
      PostState(st, true, UncondCallsArgs(args), bound, st', avail, met, AvailAfterArgs(args', avail),
                SeenAfterArgs(args', avail, met))
    ensures var (args', st') := WalkArgs(args, true, st);
      Grown(st, st') && id !in AvailAfterArgs(args', avail)
  {
    var (args', st') := WalkArgs(args, true, st);
    InvFacts(st', AvailAfterArgs(args', avail), SeenAfterArgs(args', avail, met), bound);
    hide Grown, Inv, Covered;
  }

  lemma AliasOwned(e: Expr, st: AllocState, avail: set<int>, met: set<int>, bound: nat)
    requires e.Call? && IsStatefulOp(e.name) && Unallocated(e) && Inv(st, avail, met, bound) && Size(e) <= bound
    requires Deep(st.seen, avail) && (forall s <- st.seen :: s.node.Call?) && TryAliasNodeId(st.seen, e) > 0
    ensures var (e', st') := Walk(e, true, st);
      OwnedAfter(StatefulIn(e'), AllClones(e), st, st', AvailAfter(e', avail))
  {
    AliasFound(st.seen, e);
    var s :| s in st.seen && s.unconditional && CloneExpr(s.node) == CloneExpr(e) &&
      s.node.nodeId == TryAliasNodeId(st.seen, e);
    assert Size(s.node) == Size(CloneExpr(s.node)) && Size(CloneExpr(e)) == Size(e);
    assert s.node.nodeId in avail;
    EqualEntry(st.seen, avail, s, e);
    AliasedOwned(e, st, avail);
  }

  lemma AliasedOwned(e: Expr, st: AllocState, avail: set<int>)
    requires e.Call? && IsStatefulOp(e.name) && Unallocated(e) && Ready(st) && Aliasable(st.seen, AllClones(e))
    requires Deep(st.seen, avail) && TryAliasNodeId(st.seen, e) > 0 && TryAliasNodeId(st.seen, e) in avail
    ensures var (e', st') := Walk(e, true, st);
      OwnedAfter(StatefulIn(e'), AllClones(e), st, st', AvailAfter(e', avail))
  {
    hide OwnedCall, Deep, KindOf, AllClones, StatefulIn, TryAliasNodeId, Aliasable, IsStatefulOp;
    WalkAliases(e, true, st);
  }

  lemma PendingDeep(st: AllocState, avail: set<int>, met: set<int>, bound: nat, entry: SeenStateful)
    requires Inv(st, avail, met, bound) && Deep(st.seen, avail) && entry.node.Call? && entry.node.nodeId == st.nextId
    ensures Deep(st.seen + [entry], avail)
  {
    var seen' := st.seen + [entry];
    hide AllClones, Aliasable;
    forall s | s in seen' && s.unconditional && s.node.Call? &&
      s.node.nodeId in avail ensures Aliasable(seen', AllClones(s.node)) {
      AliasableKept(st.seen, seen', AllClones(s.node));
    }
  }

  lemma {:induction false} AliasNew(seen: seq<SeenStateful>, entry: SeenStateful, call: Expr)
    requires (forall s <- seen :: s.node.Call?) && entry.node.Call? && forall s <- seen :: s.node.nodeId > 0
    requires TryAliasNodeId(seen, call) <= 0 && entry.unconditional && CloneExpr(entry.node) == CloneExpr(call)
    ensures TryAliasNodeId(seen + [entry], call) == entry.node.nodeId
  {
    AstEqualsIsEqualClones(entry.node, call);
    if seen == [] {
      assert [] + [entry] == [entry];
    } else {
      assert (seen + [entry])[1..] == seen[1..] + [entry] && (seen + [entry])[0] == seen[0];
      AliasNew(seen[1..], entry, call);
    }
  }

  lemma FreshAlias(e: Expr, e': Expr, st: AllocState, entry: SeenStateful, seen': seq<SeenStateful>)
    requires (forall s <- st.seen :: s.node.Call? && s.node.nodeId > 0) && (forall s <- seen' :: s.node.Call?)
    requires entry.node.Call? && entry.unconditional && entry.node.nodeId > 0 && st.seen + [entry] <= seen'
    requires TryAliasNodeId(st.seen, e) <= 0 && CloneExpr(entry.node) == CloneExpr(e) == CloneExpr(e')
    requires e'.Call? && e'.nodeId == entry.node.nodeId
    ensures OwnedCall(seen', e')
  {
    hide CloneExpr;
    AliasNew(st.seen, entry, e);
    var first := st.seen + [entry];
    assert seen' == first + seen'[|first|..];
    AliasKept(first, seen'[|first|..], e);
    AliasOfClone(seen', e, e');
  }

  lemma FreshDeep(st: AllocState, st1: AllocState, entry: SeenStateful, seen': seq<SeenStateful>, a2: set<int>,
                  st': AllocState)
    requires (forall s <- st.seen :: s.node.Call? && s.node.nodeId < st.nextId) && st'.seen == seen'
    requires entry.node.Call? && entry.node.nodeId == st.nextId && st1 == AllocState(st.nextId + 1, st.seen + [entry])
    requires Grown(st1, st') && Deep(seen', a2) && Aliasable(seen', AllClones(entry.node))
    ensures Deep(seen', a2 + {st.nextId})
  {
    hide AllClones, Aliasable;
    forall s | s in seen' && s.unconditional && s.node.Call? &&
      s.node.nodeId in a2 + {st.nextId} ensures Aliasable(seen', AllClones(s.node)) {
      if s.node.nodeId !in a2 {
        var i :| 0 <= i < |seen'| && seen'[i] == s;
        if i <= |st.seen| { assert seen'[i] == st1.seen[i]; }
      }
    }
  }

  /** The call itself is known once its arguments are walked. */
  lemma FreshOwned(e: Expr, st: AllocState, avail: set<int>, met: set<int>, bound: nat, entry: SeenStateful,
                   st1: AllocState)
    requires e.Call? && IsStatefulOp(e.name) && e.nodeId < 0 && Inv(st, avail, met, bound) && st.nextId !in avail
    requires (forall s <- st.seen :: s.node.Call?) && TryAliasNodeId(st.seen, e) <= 0
    requires entry == SeenStateful(e.(nodeId := st.nextId), true) && st1 == AllocState(st.nextId + 1, st.seen + [entry])
    requires var (args', st') := WalkArgs(e.args, true, st1);
      && CloneArgs(args') == CloneArgs(e.args) && Grown(st1, st') && st.nextId !in AvailAfterArgs(args', avail)
      && OwnedAfter(StatefulInArgs(args'), AllClonesArgs(e.args), st1, st', AvailAfterArgs(args', avail))
    ensures var (e', st') := Walk(e, true, st);
      OwnedAfter(StatefulIn(e'), AllClones(e), st, st', AvailAfter(e', avail))
  {
    var (args', st') := WalkArgs(e.args, true, st1);
    var e' := Call(e.name, args', st.nextId);
    hide Inv, KindOf, Grown, TryAliasNodeId, AllClones, Size, AvailAfterArgs, StatefulInArgs, OwnedAfter;
    assert Walk(e, true, st) == (e', st');
    assert AvailAfter(e', avail) == AvailAfterArgs(args', avail) + {st.nextId};
    assert StatefulIn(e') == {e'} + StatefulInArgs(args');
    FreshParts(e, e', st, entry, st1, st', StatefulInArgs(args'), AvailAfterArgs(args', avail));
  }

  lemma FreshParts(e: Expr, e': Expr, st: AllocState, entry: SeenStateful, st1: AllocState, st': AllocState,
                   calls: set<Expr>, a2: set<int>)
    requires e.Call? && e'.Call? && CloneExpr(e') == CloneExpr(e) && e'.nodeId == st.nextId && st.nextId > 0
    requires (forall s <- st.seen :: s.node.Call? && 0 < s.node.nodeId < st.nextId) && TryAliasNodeId(st.seen, e) <= 0
    requires entry == SeenStateful(e.(nodeId := st.nextId), true) && st1 == AllocState(st.nextId + 1, st.seen + [entry])
    requires Grown(st1, st') && OwnedAfter(calls, AllClonesArgs(e.args), st1, st', a2)
    ensures OwnedAfter({e'} + calls, AllClones(e), st, st', a2 + {st.nextId})
  {
    assert st.seen <= st1.seen <= st'.seen;
    assert st'.seen[|st.seen|] == st1.seen[|st.seen|] == entry;
    AllClonesOfClone(e);
    AllClonesOfClone(entry.node);
    hide TryAliasNodeId, AllClones, Size, Aliasable, Deep, OwnedCall;
    FreshAlias(e, e', st, entry, st'.seen);
    FreshAliasable(e, entry, st'.seen);
    FreshDeep(st, st1, entry, st'.seen, a2, st');
  }

  lemma FreshAliasable(e: Expr, entry: SeenStateful, seen: seq<SeenStateful>)
    requires e.Call? && entry in seen && entry.unconditional && CloneExpr(entry.node) == CloneExpr(e)
    requires Aliasable(seen, AllClonesArgs(e.args))
    ensures Aliasable(seen, AllClones(e))
  {
    hide KindOf;
  }

  lemma {:induction false} WalkOwnedArgs(args: seq<Expr>, st: AllocState, avail: set<int>, met: set<int>, bound: nat,
                                         earlier: set<Expr>)
    requires UnallocatedArgs(args) && Inv(st, avail, met, bound) && SizeArgs(args) <= bound && Deep(st.seen, avail)
    requires Known(earlier, st.seen, avail, bound) && SettledArgs(args, earlier)
    ensures Calls(st)
    ensures var (args', st') := WalkArgs(args, true, st);
      OwnedAfter(StatefulInArgs(args'), AllClonesArgs(args), st, st', AvailAfterArgs(args', avail))
    decreases args, 0
  {
    InvFacts(st, avail, met, bound);
    hide KindOf, Inv, Known, Deep, OwnedAfter;
    if args == [] {
      NothingOwned(st, avail);
    } else {
      WalkOwned(args[0], st, avail, met, bound, earlier);
      var st1, a1, m1 := AfterUncond(args[0], st, avail, met, bound, earlier);
      var (a, rest) := (Walk(args[0], true, st).0, WalkArgs(args[1..], true, st1).0);
      OwnedDeep(a, args[0], st, st1, a1);
      WalkOwnedArgs(args[1..], st1, a1, m1, bound, earlier + UncondCalls(args[0]));
      assert ([a] + rest)[1..] == rest;
      OwnedBoth(StatefulIn(a), AllClones(args[0]), StatefulInArgs(rest), AllClonesArgs(args[1..]), st, st1,
                WalkArgs(args[1..], true, st1).1, a1, AvailAfterArgs(rest, a1));
    }
  }

  // ---- One tree for each id ----

  /** Where every call is owned, clones are equal only if the trees are. */
  lemma {:induction false} CloneTellsTree(a: Expr, b: Expr, seen: seq<SeenStateful>)
    requires Runnable(a) && Runnable(b) && Owned(seen, StatefulIn(a)) && Owned(seen, StatefulIn(b))
    requires CloneExpr(a) == CloneExpr(b)
    ensures a == b
    decreases Size(a), 1
  {
    hide KindOf, OwnedCall;
    match a
    case Unary(_, x) => CloneTellsTree(x, b.operand, seen);
    case Binary(_, l, r) => CloneTellsTree(l, b.left, seen); CloneTellsTree(r, b.right, seen);
    case Cond(c, t, f) =>
      CloneTellsTree(c, b.cond, seen);
      CloneTellsTree(t, b.thn, seen);
      CloneTellsTree(f, b.els, seen);
    case Call(n, args, id) => CloneTellsCall(a, b, seen);
    case _ => {}
  }

  lemma {:induction false} CloneTellsCall(a: Expr, b: Expr, seen: seq<SeenStateful>)
    requires Runnable(a) && Runnable(b) && Owned(seen, StatefulIn(a)) && Owned(seen, StatefulIn(b))
    requires a.Call? && CloneExpr(a) == CloneExpr(b)
    ensures a == b
    decreases Size(a), 0
  {
    assert SizeArgs(SourceArgs(a.name, a.args)) < Size(a);
    hide KindOf, OwnedCall, IsStatefulOp;
    var xs, ys := SourceArgs(a.name, a.args), SourceArgs(b.name, b.args);
    SourceCalls(a);
    SourceCalls(b);
    SourceArgsClone(a.name, a.args);
    SourceArgsClone(b.name, b.args);
    ClonesTellTrees(xs, ys, seen);
    if IsTickerFn(a.name) {
      assert a.args[0] == CloneExpr(a.args[0]) == CloneArgs(a.args)[0] &&
             b.args[0] == CloneExpr(b.args[0]) == CloneArgs(b.args)[0];
      assert a.args == [a.args[0]] + xs && b.args == [b.args[0]] + ys;
    }
    if IsStatefulOp(a.name) {
      assert OwnedCall(seen, a) && OwnedCall(seen, b);
      SameOwner(a, b, seen);
    }
  }

  lemma SameOwner(a: Expr, b: Expr, seen: seq<SeenStateful>)
    requires OwnedCall(seen, a) && OwnedCall(seen, b) && CloneExpr(a) == CloneExpr(b)
    ensures a.nodeId == b.nodeId
  {
    AliasOfClone(seen, a, b);
  }

  lemma {:induction false} ClonesTellTrees(a: seq<Expr>, b: seq<Expr>, seen: seq<SeenStateful>)
    requires RunnableArgs(a) && RunnableArgs(b) && Owned(seen, StatefulInArgs(a)) && Owned(seen, StatefulInArgs(b))
    requires CloneArgs(a) == CloneArgs(b)
    ensures a == b
    decreases SizeArgs(a), 2, |a|
  {
    hide OwnedCall;
    if a != [] {
      assert CloneArgs(a)[0] == CloneExpr(a[0]) && CloneArgs(b)[0] == CloneExpr(b[0]);
      assert CloneArgs(a)[1..] == CloneArgs(a[1..]) && CloneArgs(b)[1..] == CloneArgs(b[1..]);
      CloneTellsTree(a[0], b[0], seen);
      ClonesTellTrees(a[1..], b[1..], seen);
      assert a == [a[0]] + a[1..] && b == [b[0]] + b[1..];
    }
  }

  lemma {:induction false} CallsKeyed(e: Expr, key: map<int, Expr>, c: Expr)
    requires Consistent(e, key) && c in StatefulIn(e)
    ensures c.nodeId in key && key[c.nodeId] == CloneExpr(c)
    decreases e, 1
  {
    hide KindOf;
    match e
    case Unary(_, x) => CallsKeyed(x, key, c);
    case Binary(_, l, r) => if c in StatefulIn(l) { CallsKeyed(l, key, c); } else { CallsKeyed(r, key, c); }
    case Cond(p, t, f) =>
      if c in StatefulIn(p) { CallsKeyed(p, key, c); } else if c in StatefulIn(t) { CallsKeyed(t, key, c); }
        else { CallsKeyed(f, key, c); }
    case Call(_, args, _) => if c != e { CallsKeyedArgs(args, key, c); }
    case _ => {}
  }

  lemma {:induction false} CallsKeyedArgs(args: seq<Expr>, key: map<int, Expr>, c: Expr)
    requires ConsistentArgs(args, key) && c in StatefulInArgs(args)
    ensures c.nodeId in key && key[c.nodeId] == CloneExpr(c)
    decreases args, 0
  {
    if c in StatefulIn(args[0]) { CallsKeyed(args[0], key, c); } else { CallsKeyedArgs(args[1..], key, c); }
  }

  lemma BodyOneTree(body: Expr, seen: seq<SeenStateful>, key: map<int, Expr>)
    requires Runnable(body) && Owned(seen, StatefulIn(body)) && Consistent(body, key)
    ensures OneTree(StatefulIn(body), StatefulIn(body))
  {
    var all := StatefulIn(body);
    hide OwnedCall, Consistent, StatefulIn, Runnable;
    forall a, b | a in all && b in all && a.nodeId == b.nodeId ensures a == b {
      CallsKeyed(body, key, a);
      CallsKeyed(body, key, b);
      CallsRunnable(body, a);
      CallsRunnable(body, b);
      CallsOwned(body, seen, a);
      CallsOwned(body, seen, b);
      CloneTellsTree(a, b, seen);
    }
  }

  lemma CallsOwned(body: Expr, seen: seq<SeenStateful>, c: Expr)
    requires Owned(seen, StatefulIn(body)) && c in StatefulIn(body)
    ensures Owned(seen, StatefulIn(c))
  {
    CallsClosed(body, c);
  }

  lemma {:induction false} OneTreeShared(e: Expr, all: set<Expr>)
    requires (forall c <- all :: c.Call?) && OneTree(all, all) && StatefulIn(e) <= all
    ensures NoiseShared(e)
    decreases e, 1
  {
    hide KindOf;
    match e
    case Unary(_, x) => OneTreeShared(x, all);
    case Binary(_, l, r) => OneTreeShared(l, all); OneTreeShared(r, all);
    case Cond(c, t, f) => OneTreeShared(c, all); OneTreeShared(t, all); OneTreeShared(f, all);
    case Call(n, args, _) =>
      OneTreeSharedArgs(args, all);
      if |args| == 3 { NoiseCalls(args); }
    case _ => {}
  }

  lemma NoiseCalls(args: seq<Expr>)
    requires |args| == 3
    ensures StatefulIn(args[1]) + StatefulIn(args[2]) <= StatefulInArgs(args)
  {
    hide StatefulIn;
    assert args[1..][0] == args[1] && args[1..][1..][0] == args[2];
    assert StatefulInArgs(args[1..]) <= StatefulInArgs(args) &&
           StatefulInArgs(args[1..][1..]) <= StatefulInArgs(args[1..]);
  }

  lemma {:induction false} OneTreeSharedArgs(args: seq<Expr>, all: set<Expr>)
    requires (forall c <- all :: c.Call?) && OneTree(all, all) && StatefulInArgs(args) <= all
    ensures NoiseSharedArgs(args)
    decreases args, 0
  {
    if args != [] {
      OneTreeShared(args[0], all);
      OneTreeSharedArgs(args[1..], all);
    }
  }

  lemma AfterIsOwned(calls: set<Expr>, clones: set<Expr>, st: AllocState, st': AllocState, avail': set<int>)
    requires OwnedAfter(calls, clones, st, st', avail')
    ensures Owned(st'.seen, calls)
  {
  }

  lemma BodyShared(body: Expr, nextId: int)
    requires WellFormed(body) && Settled(body, {}) && nextId > 0
    ensures NoiseShared(Walk(body, true, AllocState(nextId, [])).0)
  {
    var st0 := AllocState(nextId, []);
    var (body', st) := Walk(body, true, st0);
    WellFormedUnallocated(body);
    WalkRunnable(body, true, st0);
    WalkOwned(body, st0, {}, {}, Size(body), {});
    var key := SignalSteady(body, nextId);
    hide Walk, Consistent, Settled, Steady, Owned;
    AfterIsOwned(StatefulIn(body'), AllClones(body), st0, st, AvailAfter(body', {}));
    BodyOneTree(body', st.seen, key);
    OneTreeShared(body', StatefulIn(body'));
  }

  /** In a settled program the noise of every kalman1d shares only whole trees. */
  lemma {:induction false} SettledNoise(bodies: seq<Expr>, nextId: int)
    requires WellFormedArgs(bodies) && AllSettled(bodies) && nextId > 0
    ensures NoiseSharedArgs(AllocateProgram(bodies, nextId).0)
    decreases bodies
  {
    hide Walk, WellFormed, Settled, NoiseShared;
    if bodies != [] {
      BodyShared(bodies[0], nextId);
      var (body, st) := Walk(bodies[0], true, AllocState(nextId, []));
      assert st.nextId > 0 by { SignalNext(bodies[0], nextId); }
      SettledNoise(bodies[1..], st.nextId);
      var rest := AllocateProgram(bodies[1..], st.nextId).0;
      assert ([body] + rest)[1..] == rest;
    }
  }

  lemma SignalNext(body: Expr, nextId: int)
    requires WellFormed(body) && nextId > 0
    ensures Walk(body, true, AllocState(nextId, [])).1.nextId > 0
  {
    WalkRunnable(body, true, AllocState(nextId, []));
  }
}

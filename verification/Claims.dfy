/** What the allocator does for calls of any program: the id of an unconditional call is claimed by the call's
    structure, and whoever else has that id has the same ids on the unconditional calls inside it. */
module Claims {
  import opened Ast
  import opened Evaluation
  import opened Sharing
  import opened NodeIds
  import opened AllocSound
  import opened NoiseExchange
  import opened SettledTrees

  /** The stateful calls of a tree that stand outside every branch. */
  function UncondIn(e: Expr): (r: set<Expr>)
    ensures forall c <- r :: c.Call?
    decreases e, 1
  {
    match e
    case Unary(_, x) => UncondIn(x)
    case Binary(_, l, r) => UncondIn(l) + UncondIn(r)
    case Cond(c, _, _) => UncondIn(c)
    case Call(n, args, _) => (if IsStatefulOp(n) then {e} else {}) + UncondInArgs(args)
    case _ => {}
  }

  function UncondInArgs(args: seq<Expr>): (r: set<Expr>)
    ensures forall c <- r :: c.Call?
    decreases args, 0
  {
    if args == [] then {} else UncondIn(args[0]) + UncondInArgs(args[1..])
  }

  ghost predicate Claimed(seen: seq<SeenStateful>, id: int) {
    exists s <- seen :: s.unconditional && s.node.Call? && s.node.nodeId == id
  }

  /** A call with a claimed id has it by its structure, and so have the unconditional calls inside it. */
  ghost predicate ClaimGood(seen: seq<SeenStateful>, c: Expr) {
    c.Call? && (Claimed(seen, c.nodeId) ==> OwnedCall(seen, c) && Owned(seen, UncondInArgs(c.args)))
  }

  /** What a walk leaves: `calls` are all it met, `owned` those known to be unconditional or repeated. */
  ghost predicate ClaimedAfter(st: AllocState, st': AllocState, calls: set<Expr>, owned: set<Expr>) {
    && Grown(st, st') && (forall s <- st'.seen :: s.node.Call?)
    && (forall c <- calls :: ClaimGood(st'.seen, c) && c.nodeId < st'.nextId)
    && Owned(st'.seen, owned)
  }

  lemma ClaimsKept(st: AllocState, st': AllocState, c: Expr)
    requires Grown(st, st') && (forall s <- st'.seen :: s.node.Call?)
    requires ClaimGood(st.seen, c) && c.nodeId < st.nextId
    ensures ClaimGood(st'.seen, c)
  {
    hide UncondInArgs;
    if Claimed(st'.seen, c.nodeId) {
      var s :| s in st'.seen && s.unconditional && s.node.Call? && s.node.nodeId == c.nodeId;
      var i :| 0 <= i < |st'.seen| && st'.seen[i] == s;
      assert i < |st.seen| && st.seen[i] == s;
      OwnedKept(st.seen, st'.seen, {c});
      OwnedKept(st.seen, st'.seen, UncondInArgs(c.args));
      assert OwnedCall(st'.seen, c);
    }
  }

  lemma GrownTrans(a: AllocState, b: AllocState, c: AllocState)
    requires Grown(a, b) && Grown(b, c)
    ensures Grown(a, c)
  {
    forall i | |a.seen| <= i < |c.seen| ensures c.seen[i].node.Call? && a.nextId <= c.seen[i].node.nodeId < c.nextId {
      if i < |b.seen| { assert c.seen[i] == b.seen[i]; }
    }
  }

  lemma ClaimsCall(st: AllocState, calls: set<Expr>)
    requires forall c <- calls :: ClaimGood(st.seen, c)
    ensures forall c <- calls :: c.Call?
  {
  }

  lemma ClaimedBoth(st: AllocState, st1: AllocState, st2: AllocState, c1: set<Expr>, o1: set<Expr>,
                    c2: set<Expr>, o2: set<Expr>)
    requires ClaimedAfter(st, st1, c1, o1) && ClaimedAfter(st1, st2, c2, o2)
    ensures ClaimedAfter(st, st2, c1 + c2, o1 + o2)
  {
    hide ClaimGood, OwnedCall;
    GrownTrans(st, st1, st2);
    OwnedKept(st1.seen, st2.seen, o1);
    ClaimsCall(st1, c1);
    ClaimsCall(st2, c2);
    forall c | c in c1 ensures ClaimGood(st2.seen, c) && c.nodeId < st2.nextId { ClaimsKept(st1, st2, c); }
  }

  lemma ClaimedNothing(st: AllocState)
    requires Calls(st)
    ensures ClaimedAfter(st, st, {}, {})
  {
  }

  lemma ClaimedLess(st: AllocState, st': AllocState, calls: set<Expr>, owned: set<Expr>)
    requires ClaimedAfter(st, st', calls, owned)
    ensures ClaimedAfter(st, st', calls, {})
  {
    hide ClaimGood, OwnedCall;
  }

  /** The walk goes on after `e`. */
  lemma Onward(e: Expr, unconditional: bool, st: AllocState, avail: set<int>, met: set<int>, bound: nat)
      returns (st1: AllocState, a1: set<int>, m1: set<int>)
    requires Unallocated(e) && Inv(st, avail, met, bound) && Size(e) <= bound
    ensures Calls(st) && st1 == Walk(e, unconditional, st).1 && Inv(st1, a1, m1, bound)
    ensures avail <= a1 && st.seen <= st1.seen
  {
    InvFacts(st, avail, met, bound);
    WalkSound(e, unconditional, st, avail, met, bound);
    var (e', st') := Walk(e, unconditional, st);
    st1, a1, m1 := st', AvailAfter(e', avail), SeenAfter(e', avail, met);
    hide Inv, Covered, NewConditional, AvailAfter, SeenAfter;
  }

  /** Why the unconditional calls of `calls` get owned ids: the walk is unconditional, or they can be aliased. */
  ghost predicate Covers(owned: bool, unconditional: bool, calls: set<Expr>, seen: seq<SeenStateful>, avail: set<int>) {
    owned ==> unconditional || Covered(calls, seen, avail)
  }

  lemma CoversLater(owned: bool, unconditional: bool, calls: set<Expr>, part: set<Expr>, seen: seq<SeenStateful>,
                    avail: set<int>, seen': seq<SeenStateful>, avail': set<int>)
    requires Covers(owned, unconditional, calls, seen, avail) && part <= calls && seen <= seen' && avail <= avail'
    ensures Covers(owned, unconditional, part, seen', avail')
  {
    hide Keys;
    if owned && !unconditional { CoveredGrows(part, seen, avail, seen', avail'); }
  }

  function Only(owned: bool, calls: set<Expr>): set<Expr> {
    if owned then calls else {}
  }

  lemma {:induction false} WalkClaims(e: Expr, unconditional: bool, owned: bool, st: AllocState, avail: set<int>,
                                      met: set<int>, bound: nat)
    requires Unallocated(e) && Inv(st, avail, met, bound) && Size(e) <= bound
    requires Covers(owned, unconditional, UncondCalls(e), st.seen, avail)
    ensures Calls(st)
    ensures var (e', st') := Walk(e, unconditional, st);
      ClaimedAfter(st, st', StatefulIn(e'), Only(owned, UncondIn(e')))
    decreases e, 2
  {
    InvFacts(st, avail, met, bound);
    hide KindOf, Inv, Covers, ClaimedAfter;
    match e
    case Unary(_, x) => WalkClaims(x, unconditional, owned, st, avail, met, bound);
    case Binary(_, l, r) => WalkClaimsBinary(e, unconditional, owned, st, avail, met, bound);
    case Cond(c, t, f) => WalkClaimsCond(e, unconditional, owned, st, avail, met, bound);
    case Call(n, args, _) =>
      if IsStatefulOp(n) {
        WalkClaimsStateful(e, unconditional, owned, st, avail, met, bound);
      } else {
        WalkClaimsArgs(args, unconditional, owned, st, avail, met, bound);
      }
    case _ => ClaimedNothing(st);
  }

  lemma {:induction false} WalkClaimsBinary(e: Expr, unconditional: bool, owned: bool, st: AllocState, avail: set<int>,
                                            met: set<int>, bound: nat)
    requires e.Binary? && Unallocated(e) && Inv(st, avail, met, bound) && Size(e) <= bound
    requires Covers(owned, unconditional, UncondCalls(e), st.seen, avail)
    ensures Calls(st)
    ensures var (e', st') := Walk(e, unconditional, st);
      ClaimedAfter(st, st', StatefulIn(e'), Only(owned, UncondIn(e')))
    decreases e, 1
  {
    InvFacts(st, avail, met, bound);
    hide KindOf, Inv, Covers, ClaimedAfter;
    var calls := UncondCalls(e);
    CoversLater(owned, unconditional, calls, UncondCalls(e.left), st.seen, avail, st.seen, avail);
    WalkClaims(e.left, unconditional, owned, st, avail, met, bound);
    var st1, a1, m1 := Onward(e.left, unconditional, st, avail, met, bound);
    CoversLater(owned, unconditional, calls, UncondCalls(e.right), st.seen, avail, st1.seen, a1);
    WalkClaims(e.right, unconditional, owned, st1, a1, m1, bound);
    var (l, r) := (Walk(e.left, unconditional, st).0, Walk(e.right, unconditional, st1).0);
    ClaimedBoth(st, st1, Walk(e.right, unconditional, st1).1, StatefulIn(l), Only(owned, UncondIn(l)), StatefulIn(r),
                Only(owned, UncondIn(r)));
    assert Only(owned, UncondIn(l)) + Only(owned, UncondIn(r)) == Only(owned, UncondIn(l) + UncondIn(r));
  }

  lemma {:induction false} WalkClaimsCond(e: Expr, unconditional: bool, owned: bool, st: AllocState, avail: set<int>,
                                          met: set<int>, bound: nat)
    requires e.Cond? && Unallocated(e) && Inv(st, avail, met, bound) && Size(e) <= bound
    requires Covers(owned, unconditional, UncondCalls(e), st.seen, avail)
    ensures Calls(st)
    ensures var (e', st') := Walk(e, unconditional, st);
      ClaimedAfter(st, st', StatefulIn(e'), Only(owned, UncondIn(e')))
    decreases e, 1
  {
    InvFacts(st, avail, met, bound);
    NoneOwned(UncondCalls(e.thn), st.seen, avail);
    assert UncondCalls(e) == UncondCalls(e.cond);
    hide KindOf, Inv, ClaimedAfter;
    WalkClaims(e.cond, unconditional, owned, st, avail, met, bound);
    var st1, a1, m1 := Onward(e.cond, unconditional, st, avail, met, bound);
    WalkClaims(e.thn, false, false, st1, a1, m1, bound);
    var st2, a2, m2 := Onward(e.thn, false, st1, a1, m1, bound);
    WalkClaims(e.els, false, false, st2, a2, m2, bound);
    var (c, t, f) := (Walk(e.cond, unconditional, st).0, Walk(e.thn, false, st1).0, Walk(e.els, false, st2).0);
    var st3 := Walk(e.els, false, st2).1;
    ClaimedBoth(st, st1, st2, StatefulIn(c), Only(owned, UncondIn(c)), StatefulIn(t), {});
    ClaimedBoth(st, st2, st3, StatefulIn(c) + StatefulIn(t), Only(owned, UncondIn(c)) + {}, StatefulIn(f), {});
    assert Only(owned, UncondIn(c)) + {} + {} == Only(owned, UncondIn(c));
  }

  lemma NoneOwned(calls: set<Expr>, seen: seq<SeenStateful>, avail: set<int>)
    ensures Covers(false, false, calls, seen, avail)
  {
  }

  lemma {:induction false} WalkClaimsStateful(e: Expr, unconditional: bool, owned: bool, st: AllocState,
                                              avail: set<int>, met: set<int>, bound: nat)
    requires e.Call? && IsStatefulOp(e.name) && Unallocated(e) && Inv(st, avail, met, bound) && Size(e) <= bound
    requires Covers(owned, unconditional, UncondCalls(e), st.seen, avail)
    ensures Calls(st)
    ensures var (e', st') := Walk(e, unconditional, st);
      ClaimedAfter(st, st', StatefulIn(e'), Only(owned, UncondIn(e')))
    decreases e, 1
  {
    InvFacts(st, avail, met, bound);
    if TryAliasNodeId(st.seen, e) > 0 {
      AliasIsCached(e, st, avail, met, bound);
      WalkClaimsArgs(e.args, unconditional, true, st, avail, met, bound);
      WalkSoundArgs(e.args, unconditional, st, avail, met, bound);
      assert TryAliasNodeId(st.seen, e) < st.nextId;
      AliasClaims(e, unconditional, owned, st);
    } else {
      NotCovered(e, owned, unconditional, st, avail);
      var id, inner := st.nextId, Size(e) - 1;
      var entry := SeenStateful(e.(nodeId := id), unconditional);
      var st1 := AllocState(id + 1, st.seen + [entry]);
      EntryClone(e, id);
      InvPushed(st, avail, met, bound, entry, inner);
      WalkClaimsArgs(e.args, unconditional, unconditional, st1, avail, met, inner);
      WalkSoundArgs(e.args, unconditional, st1, avail, met, inner);
      FreshClaims(e, unconditional, owned, st, entry, st1);
    }
  }

  /** A call that is not aliased is covered only by being unconditional. */
  lemma NotCovered(e: Expr, owned: bool, unconditional: bool, st: AllocState, avail: set<int>)
    requires e.Call? && IsStatefulOp(e.name) && Ready(st) && TryAliasNodeId(st.seen, e) <= 0
    requires Covers(owned, unconditional, UncondCalls(e), st.seen, avail)
    ensures owned ==> unconditional
  {
    if owned && !unconditional { CoveredAliases(e, st, avail); }
  }

  lemma CoveredAliases(e: Expr, st: AllocState, avail: set<int>)
    requires e.Call? && IsStatefulOp(e.name) && Ready(st) && Covered(UncondCalls(e), st.seen, avail)
    ensures TryAliasNodeId(st.seen, e) > 0
  {
    AliasFound(st.seen, e);
    assert CloneExpr(e) in UncondCalls(e);
    assert CloneExpr(e) in Keys(st.seen, avail);
    var s :| s in st.seen && s.unconditional && s.node.Call? && s.node.nodeId in avail &&
      CloneExpr(e) == CloneExpr(s.node);
  }

  lemma AliasClaims(e: Expr, unconditional: bool, owned: bool, st: AllocState)
    requires e.Call? && IsStatefulOp(e.name) && e.nodeId < 0 && Calls(st) && 0 < TryAliasNodeId(st.seen, e) < st.nextId
    requires var (args', st') := WalkArgs(e.args, unconditional, st);
      CloneArgs(args') == CloneArgs(e.args) && ClaimedAfter(st, st', StatefulInArgs(args'), UncondInArgs(args'))
    ensures var (e', st') := Walk(e, unconditional, st);
      ClaimedAfter(st, st', StatefulIn(e'), Only(owned, UncondIn(e')))
  {
    var (args', st') := WalkArgs(e.args, unconditional, st);
    var e' := Call(e.name, args', TryAliasNodeId(st.seen, e));
    hide KindOf, IsStatefulOp, TryAliasNodeId, StatefulInArgs, UncondInArgs, ClaimedAfter, OwnedCall;
    assert Walk(e, unconditional, st) == (e', st');
    assert StatefulIn(e') == {e'} + StatefulInArgs(args') && UncondIn(e') == {e'} + UncondInArgs(args');
    AliasIsOwned(e, e', st.seen);
    AliasClaim(e', owned, st, st', StatefulInArgs(args'));
  }

  lemma AliasClaim(e': Expr, owned: bool, st: AllocState, st': AllocState, calls: set<Expr>)
    requires e'.Call? && OwnedCall(st.seen, e') && e'.nodeId < st.nextId
    requires ClaimedAfter(st, st', calls, UncondInArgs(e'.args))
    ensures ClaimedAfter(st, st', {e'} + calls, Only(owned, {e'} + UncondInArgs(e'.args)))
  {
    hide OwnedCall, UncondInArgs;
    OwnedKept(st.seen, st'.seen, {e'});
  }

  lemma FreshClaims(e: Expr, unconditional: bool, owned: bool, st: AllocState, entry: SeenStateful, st1: AllocState)
    requires e.Call? && IsStatefulOp(e.name) && e.nodeId < 0 && Ready(st) && TryAliasNodeId(st.seen, e) <= 0
    requires forall s <- st.seen :: s.node.nodeId < st.nextId
    requires entry == SeenStateful(e.(nodeId := st.nextId), unconditional) && (owned ==> unconditional)
    requires st1 == AllocState(st.nextId + 1, st.seen + [entry])
    requires var (args', st') := WalkArgs(e.args, unconditional, st1);
      && CloneArgs(args') == CloneArgs(e.args)
      && ClaimedAfter(st1, st', StatefulInArgs(args'), Only(unconditional, UncondInArgs(args')))
    ensures var (e', st') := Walk(e, unconditional, st);
      ClaimedAfter(st, st', StatefulIn(e'), Only(owned, UncondIn(e')))
  {
    var (args', st') := WalkArgs(e.args, unconditional, st1);
    var e' := Call(e.name, args', st.nextId);
    hide KindOf, IsStatefulOp, TryAliasNodeId, StatefulInArgs, UncondInArgs, ClaimedAfter;
    assert Walk(e, unconditional, st) == (e', st');
    assert StatefulIn(e') == {e'} + StatefulInArgs(args') && UncondIn(e') == {e'} + UncondInArgs(args');
    FreshClaim(e, e', unconditional, owned, st, entry, st1, st', StatefulInArgs(args'));
  }

  lemma FreshClaim(e: Expr, e': Expr, unconditional: bool, owned: bool, st: AllocState, entry: SeenStateful,
                   st1: AllocState, st': AllocState, calls: set<Expr>)
    requires e.Call? && e'.Call? && Ready(st) && TryAliasNodeId(st.seen, e) <= 0
    requires forall s <- st.seen :: s.node.nodeId < st.nextId
    requires entry == SeenStateful(e.(nodeId := st.nextId), unconditional) && (owned ==> unconditional)
    requires st1 == AllocState(st.nextId + 1, st.seen + [entry])
    requires CloneExpr(e') == CloneExpr(e) && e'.nodeId == st.nextId
    requires ClaimedAfter(st1, st', calls, Only(unconditional, UncondInArgs(e'.args)))
    ensures ClaimedAfter(st, st', {e'} + calls, Only(owned, {e'} + UncondInArgs(e'.args)))
  {
    hide TryAliasNodeId, OwnedCall, UncondInArgs;
    assert Grown(st, st1);
    GrownTrans(st, st1, st');
    assert st'.seen[|st.seen|] == st1.seen[|st.seen|] == entry;
    if unconditional {
      FreshAlias(e, e', st, entry, st'.seen);
    } else {
      FreshUnclaimed(st, entry, st1, st');
    }
  }

  /** The id of a call in a branch is claimed by none. */
  lemma FreshUnclaimed(st: AllocState, entry: SeenStateful, st1: AllocState, st': AllocState)
    requires forall s <- st.seen :: s.node.Call? && s.node.nodeId < st.nextId
    requires st1 == AllocState(st.nextId + 1, st.seen + [entry]) && !entry.unconditional && Grown(st1, st')
    ensures !Claimed(st'.seen, st.nextId)
  {
    forall s | s in st'.seen && s.unconditional && s.node.Call? ensures s.node.nodeId != st.nextId {
      var i :| 0 <= i < |st'.seen| && st'.seen[i] == s;
      if i <= |st.seen| { assert s == st1.seen[i]; }
    }
  }

  lemma {:induction false} WalkClaimsArgs(args: seq<Expr>, unconditional: bool, owned: bool, st: AllocState,
                                          avail: set<int>, met: set<int>, bound: nat)
    requires UnallocatedArgs(args) && Inv(st, avail, met, bound) && SizeArgs(args) <= bound
    requires Covers(owned, unconditional, UncondCallsArgs(args), st.seen, avail)
    ensures Calls(st)
    ensures var (args', st') := WalkArgs(args, unconditional, st);
      ClaimedAfter(st, st', StatefulInArgs(args'), Only(owned, UncondInArgs(args')))
    decreases args, 0
  {
    InvFacts(st, avail, met, bound);
    hide KindOf, Inv, Covers, ClaimedAfter;
    if args == [] {
      ClaimedNothing(st);
    } else {
      var calls := UncondCallsArgs(args);
      CoversLater(owned, unconditional, calls, UncondCalls(args[0]), st.seen, avail, st.seen, avail);
      WalkClaims(args[0], unconditional, owned, st, avail, met, bound);
      var st1, a1, m1 := Onward(args[0], unconditional, st, avail, met, bound);
      CoversLater(owned, unconditional, calls, UncondCallsArgs(args[1..]), st.seen, avail, st1.seen, a1);
      WalkClaimsArgs(args[1..], unconditional, owned, st1, a1, m1, bound);
      var (a, rest) := (Walk(args[0], unconditional, st).0, WalkArgs(args[1..], unconditional, st1).0);
      assert ([a] + rest)[1..] == rest;
      ClaimedBoth(st, st1, WalkArgs(args[1..], unconditional, st1).1, StatefulIn(a), Only(owned, UncondIn(a)),
                  StatefulInArgs(rest), Only(owned, UncondInArgs(rest)));
      assert Only(owned, UncondIn(a)) + Only(owned, UncondInArgs(rest)) ==
             Only(owned, UncondIn(a) + UncondInArgs(rest));
    }
  }
}

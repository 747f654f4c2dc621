/** Sources whose branches only repeat earlier unconditional calls get ids under which branches only look up
    what is surely cached; and an id always stands for one structure. */
module AllocSteady {
  import opened Ast
  import opened Evaluation
  import opened Sharing
  import opened NodeIds
  import opened AllocSound
  import opened CodegenCorrect
  import opened Program
  import opened Streams
  import opened StreamsProgram

  /** Every stateful call met inside the branch `e` equals one of the `earlier` unconditional calls. */
  predicate Repeats(e: Expr, earlier: set<Expr>)
    decreases e, 1
  {
    match e
    case Unary(_, x) => Repeats(x, earlier)
    case Binary(_, l, r) => Repeats(l, earlier) && Repeats(r, earlier)
    case Cond(c, t, f) => Repeats(c, earlier) && Repeats(t, earlier) && Repeats(f, earlier)
    case Call(n, args, _) => if IsStatefulOp(n) then CloneExpr(e) in earlier else RepeatsArgs(args, earlier)
    case _ => true
  }

  predicate RepeatsArgs(args: seq<Expr>, earlier: set<Expr>)
    decreases args, 0
  {
    args == [] || (Repeats(args[0], earlier) && RepeatsArgs(args[1..], earlier))
  }

  /** Every branch of `e` repeats unconditional calls that come before it in walk order. */
  predicate Settled(e: Expr, earlier: set<Expr>)
    decreases e, 1
  {
    match e
    case Unary(_, x) => Settled(x, earlier)
    case Binary(_, l, r) => Settled(l, earlier) && Settled(r, earlier + UncondCalls(l))
    case Cond(c, t, f) =>
      Settled(c, earlier) && Repeats(t, earlier + UncondCalls(c)) && Repeats(f, earlier + UncondCalls(c))
    case Call(n, args, _) =>
      if IsStatefulOp(n) then CloneExpr(e) in earlier || SettledArgs(args, earlier + {CloneExpr(e)})
      else SettledArgs(args, earlier)
    case _ => true
  }

  predicate SettledArgs(args: seq<Expr>, earlier: set<Expr>)
    decreases args, 0
  {
    args == [] || (Settled(args[0], earlier) && SettledArgs(args[1..], earlier + UncondCalls(args[0])))
  }

  predicate AllSettled(bodies: seq<Expr>) {
    forall b <- bodies :: Settled(b, {})
  }

  /** The earlier calls can be aliased to, but for those whose arguments are still being walked. */
  ghost predicate Known(earlier: set<Expr>, seen: seq<SeenStateful>, avail: set<int>, bound: nat) {
    forall k <- earlier :: k in Keys(seen, avail) || Size(k) > bound
  }

  lemma KnownGrows(earlier: set<Expr>, seen: seq<SeenStateful>, avail: set<int>, bound: nat,
                   calls: set<Expr>, seen': seq<SeenStateful>, avail': set<int>)
    requires Known(earlier, seen, avail, bound) && seen <= seen' && avail <= avail' && Covered(calls, seen', avail')
    ensures Known(earlier + calls, seen', avail', bound)
  {
    forall k | k in earlier + calls ensures k in Keys(seen', avail') || Size(k) > bound {
      if k in earlier && Size(k) <= bound {
        assert k in Keys(seen, avail);
        CoveredGrows({k}, seen, avail, seen', avail');
      }
    }
  }

  lemma PostFacts(st: AllocState, unconditional: bool, calls: set<Expr>, bound: nat, st': AllocState,
                  avail: set<int>, met: set<int>, avail': set<int>, met': set<int>)
    requires PostState(st, unconditional, calls, bound, st', avail, met, avail', met')
    ensures Inv(st', avail', met', bound) && st.seen <= st'.seen && avail <= avail' && met <= met'
    ensures unconditional ==> Covered(calls, st'.seen, avail')
    ensures st.nextId <= st'.nextId
    ensures forall i <- avail' - avail :: i in met || st.nextId <= i < st'.nextId
  {
  }

  /** A call equal to a known earlier one, and small enough, aliases to a surely cached id. */
  lemma RepeatAliases(e: Expr, st: AllocState, avail: set<int>, met: set<int>, bound: nat, earlier: set<Expr>)
    requires e.Call? && IsStatefulOp(e.name) && Inv(st, avail, met, bound) && Size(e) <= bound
    requires Known(earlier, st.seen, avail, bound) && CloneExpr(e) in earlier
    ensures TryAliasNodeId(st.seen, e) > 0
  {
    assert Size(CloneExpr(e)) == Size(e);
    assert CloneExpr(e) in Keys(st.seen, avail);
    var s :| s in st.seen && s.unconditional && s.node.Call? && s.node.nodeId in avail &&
      CloneExpr(e) == CloneExpr(s.node);
    AliasFound(st.seen, e);
  }

  /** Walking a branch that repeats. */
  lemma {:induction false} WalkHits(e: Expr, st: AllocState, avail: set<int>, met: set<int>, bound: nat,
                                    earlier: set<Expr>)
    requires Unallocated(e) && Inv(st, avail, met, bound) && Size(e) <= bound
    requires Known(earlier, st.seen, avail, bound) && Repeats(e, earlier)
    ensures Calls(st) && Hits(Walk(e, false, st).0, avail)
    decreases e, 1
  {
    InvFacts(st, avail, met, bound);
    hide KindOf, Inv, Known;
    match e
    case Unary(_, x) => WalkHits(x, st, avail, met, bound, earlier);
    case Binary(_, l, r) =>
      WalkHits(l, st, avail, met, bound, earlier);
      var st1, m1 := AfterBranch(l, st, avail, met, bound, earlier);
      WalkHits(r, st1, avail, m1, bound, earlier);
    case Cond(c, t, f) =>
      WalkHits(c, st, avail, met, bound, earlier);
      var st1, m1 := AfterBranch(c, st, avail, met, bound, earlier);
      WalkHits(t, st1, avail, m1, bound, earlier);
      var st2, m2 := AfterBranch(t, st1, avail, m1, bound, earlier);
      WalkHits(f, st2, avail, m2, bound, earlier);
    case Call(n, args, _) =>
      if IsStatefulOp(n) {
        RepeatAliases(e, st, avail, met, bound, earlier);
        AliasIsCached(e, st, avail, met, bound);
      } else {
        WalkHitsArgs(args, st, avail, met, bound, earlier);
      }
    case _ => {}
  }

  lemma AfterBranch(e: Expr, st: AllocState, avail: set<int>, met: set<int>, bound: nat, earlier: set<Expr>)
      returns (st1: AllocState, m1: set<int>)
    requires Unallocated(e) && Inv(st, avail, met, bound) && Size(e) <= bound && Known(earlier, st.seen, avail, bound)
    ensures Calls(st) && st1 == Walk(e, false, st).1 && Calls(st1)
    ensures Inv(st1, avail, m1, bound) && Known(earlier, st1.seen, avail, bound)
  {
    InvFacts(st, avail, met, bound);
    hide KindOf, Inv, PostState, Keys, Size;
    WalkSound(e, false, st, avail, met, bound);
    var (e', st') := Walk(e, false, st);
    st1, m1 := st', SeenAfter(e', avail, met);
    PostFacts(st, false, UncondCalls(e), bound, st', avail, met, AvailAfter(e', avail), m1);
    BranchPost(st, st', UncondCalls(e), false, bound, avail, met, AvailAfter(e', avail), m1);
    KnownGrows(earlier, st.seen, avail, bound, {}, st'.seen, avail);
    assert earlier + {} == earlier;
  }

  lemma {:induction false} WalkHitsArgs(args: seq<Expr>, st: AllocState, avail: set<int>, met: set<int>, bound: nat,
                                        earlier: set<Expr>)
    requires UnallocatedArgs(args) && Inv(st, avail, met, bound) && SizeArgs(args) <= bound
    requires Known(earlier, st.seen, avail, bound) && RepeatsArgs(args, earlier)
    ensures Calls(st) && HitsArgs(WalkArgs(args, false, st).0, avail)
    decreases args, 0
  {
    InvFacts(st, avail, met, bound);
    hide KindOf, Inv, Known;
    if args != [] {
      WalkHits(args[0], st, avail, met, bound, earlier);
      var st1, m1 := AfterBranch(args[0], st, avail, met, bound, earlier);
      WalkHitsArgs(args[1..], st1, avail, m1, bound, earlier);
      var a, rest := Walk(args[0], false, st).0, WalkArgs(args[1..], false, st1).0;
      assert ([a] + rest)[1..] == rest;
    }
  }

  lemma AfterUncond(e: Expr, st: AllocState, avail: set<int>, met: set<int>, bound: nat, earlier: set<Expr>)
      returns (st1: AllocState, a1: set<int>, m1: set<int>)
    requires Unallocated(e) && Inv(st, avail, met, bound) && Size(e) <= bound && Known(earlier, st.seen, avail, bound)
    ensures Calls(st) && st1 == Walk(e, true, st).1 && Calls(st1) && a1 == AvailAfter(Walk(e, true, st).0, avail)
    ensures Inv(st1, a1, m1, bound) && Known(earlier + UncondCalls(e), st1.seen, a1, bound)
  {
    InvFacts(st, avail, met, bound);
    hide KindOf, Inv, PostState, Keys, Size;
    WalkSound(e, true, st, avail, met, bound);
    var (e', st') := Walk(e, true, st);
    st1, a1, m1 := st', AvailAfter(e', avail), SeenAfter(e', avail, met);
    PostFacts(st, true, UncondCalls(e), bound, st', avail, met, a1, m1);
    KnownGrows(earlier, st.seen, avail, bound, UncondCalls(e), st'.seen, a1);
  }

  lemma {:induction false} WalkSteady(e: Expr, st: AllocState, avail: set<int>, met: set<int>, bound: nat,
                                      earlier: set<Expr>)
    requires Unallocated(e) && Inv(st, avail, met, bound) && Size(e) <= bound
    requires Known(earlier, st.seen, avail, bound) && Settled(e, earlier)
    ensures Calls(st) && Steady(Walk(e, true, st).0, avail)
    decreases e, 1
  {
    InvFacts(st, avail, met, bound);
    hide KindOf, Inv, Known;
    match e
    case Unary(_, x) => WalkSteady(x, st, avail, met, bound, earlier);
    case Binary(_, l, r) =>
      WalkSteady(l, st, avail, met, bound, earlier);
      var st1, a1, m1 := AfterUncond(l, st, avail, met, bound, earlier);
      WalkSteady(r, st1, a1, m1, bound, earlier + UncondCalls(l));
    case Cond(c, t, f) =>
      WalkSteady(c, st, avail, met, bound, earlier);
      var st1, a1, m1 := AfterUncond(c, st, avail, met, bound, earlier);
      var E := earlier + UncondCalls(c);
      WalkHits(t, st1, a1, m1, bound, E);
      var st2, m2 := AfterBranch(t, st1, a1, m1, bound, E);
      WalkHits(f, st2, a1, m2, bound, E);
    case Call(n, args, _) =>
      if IsStatefulOp(n) {
        WalkSteadyStateful(e, st, avail, met, bound, earlier);
      } else {
        WalkSteadyArgs(args, st, avail, met, bound, earlier);
      }
    case _ => {}
  }

  lemma {:induction false} WalkSteadyStateful(e: Expr, st: AllocState, avail: set<int>, met: set<int>, bound: nat,
                                              earlier: set<Expr>)
    requires e.Call? && IsStatefulOp(e.name)
    requires Unallocated(e) && Inv(st, avail, met, bound) && Size(e) <= bound
    requires Known(earlier, st.seen, avail, bound) && Settled(e, earlier)
    ensures Calls(st) && Steady(Walk(e, true, st).0, avail)
    decreases e, 0
  {
    InvFacts(st, avail, met, bound);
    if TryAliasNodeId(st.seen, e) > 0 {
      AliasIsCached(e, st, avail, met, bound);
    } else {
      if CloneExpr(e) in earlier { RepeatAliases(e, st, avail, met, bound, earlier); }
      var id, inner, E := st.nextId, Size(e) - 1, earlier + {CloneExpr(e)};
      var entry := SeenStateful(e.(nodeId := id), true);
      var st1 := AllocState(id + 1, st.seen + [entry]);
      EntryClone(e, id);
      InvPushed(st, avail, met, bound, entry, inner);
      PendingKnown(e, st, avail, bound, earlier, entry);
      hide Inv, Known, KindOf;
      WalkSteadyArgs(e.args, st1, avail, met, inner, E);
      assert Assign(e, true, st) == (id, st1);
    }
  }

  lemma PendingKnown(e: Expr, st: AllocState, avail: set<int>, bound: nat, earlier: set<Expr>, entry: SeenStateful)
    requires e.Call? && Size(e) <= bound && Known(earlier, st.seen, avail, bound)
    ensures Known(earlier + {CloneExpr(e)}, st.seen + [entry], avail, Size(e) - 1)
  {
    KnownWithEntry(earlier, st.seen, avail, bound, entry);
    KnownPending(earlier, st.seen + [entry], avail, bound, CloneExpr(e));
  }

  lemma KnownWithEntry(earlier: set<Expr>, seen: seq<SeenStateful>, avail: set<int>, bound: nat, entry: SeenStateful)
    requires Known(earlier, seen, avail, bound)
    ensures Known(earlier, seen + [entry], avail, bound)
  {
    forall k | k in earlier && k in Keys(seen, avail) ensures k in Keys(seen + [entry], avail) {
      CoveredGrows({k}, seen, avail, seen + [entry], avail);
    }
    hide Size;
  }

  lemma KnownPending(earlier: set<Expr>, seen: seq<SeenStateful>, avail: set<int>, bound: nat, k: Expr)
    requires Known(earlier, seen, avail, bound) && Size(k) <= bound
    ensures Known(earlier + {k}, seen, avail, Size(k) - 1)
  {
    hide Keys, Size;
  }

  lemma {:induction false} WalkSteadyArgs(args: seq<Expr>, st: AllocState, avail: set<int>, met: set<int>, bound: nat,
                                          earlier: set<Expr>)
    requires UnallocatedArgs(args) && Inv(st, avail, met, bound) && SizeArgs(args) <= bound
    requires Known(earlier, st.seen, avail, bound) && SettledArgs(args, earlier)
    ensures Calls(st) && SteadyArgs(WalkArgs(args, true, st).0, avail)
    decreases args, 0
  {
    InvFacts(st, avail, met, bound);
    hide KindOf, Inv, Known;
    if args != [] {
      WalkSteady(args[0], st, avail, met, bound, earlier);
      var st1, a1, m1 := AfterUncond(args[0], st, avail, met, bound, earlier);
      WalkSteadyArgs(args[1..], st1, a1, m1, bound, earlier + UncondCalls(args[0]));
      var a, rest := Walk(args[0], true, st).0, WalkArgs(args[1..], true, st1).0;
      assert ([a] + rest)[1..] == rest;
    }
  }

  /** Entries are numbered in order. */
  ghost predicate Numbered(st: AllocState, first: int) {
    && st.nextId == first + |st.seen|
    && (forall j | 0 <= j < |st.seen| :: st.seen[j].node.Call? && st.seen[j].node.nodeId == first + j)
  }

  ghost predicate Keyed(st: AllocState, key: map<int, Expr>) {
    forall s <- st.seen :: s.node.Call? && s.node.nodeId in key && key[s.node.nodeId] == CloneExpr(s.node)
  }

  lemma NumberedCalls(st: AllocState, first: int)
    requires Numbered(st, first) && first > 0
    ensures forall s <- st.seen :: s.node.Call? && s.node.nodeId > 0
  {
    forall s | s in st.seen ensures s.node.Call? && s.node.nodeId > 0 {
      var j :| 0 <= j < |st.seen| && st.seen[j] == s;
    }
  }

  lemma AssignConsistent(e: Expr, unconditional: bool, st: AllocState, first: int, key: map<int, Expr>)
    requires e.Call? && e.nodeId < 0 && Numbered(st, first) && first > 0
    ensures Calls(st)
    ensures var (id, st1) := Assign(e, unconditional, st);
      && Numbered(st1, first) && st.seen <= st1.seen
      && (Keyed(st1, key) && IsStatefulOp(e.name) ==> id in key && key[id] == CloneExpr(e))
  {
    NumberedCalls(st, first);
    AliasFound(st.seen, e);
    var (id, st1) := Assign(e, unconditional, st);
    var entry := SeenStateful(e.(nodeId := id), unconditional);
    assert CloneExpr(entry.node) == CloneExpr(e);
    hide KindOf, CloneExpr, IsStatefulOp;
    if st1.seen != st.seen {
      assert st1.seen == st.seen + [entry];
      assert entry in st1.seen;
    }
  }

  lemma KeyedPrefix(st: AllocState, st': AllocState, key: map<int, Expr>)
    requires Keyed(st', key) && st.seen <= st'.seen
    ensures Keyed(st, key)
  {
    forall s | s in st.seen ensures s in st'.seen {
      var j :| 0 <= j < |st.seen| && st.seen[j] == s;
      assert st'.seen[j] == s;
    }
  }

  lemma {:induction false} WalkConsistent(e: Expr, unconditional: bool, st: AllocState, first: int, key: map<int, Expr>)
    requires Unallocated(e) && Numbered(st, first) && first > 0
    ensures Calls(st)
    ensures var (e', st') := Walk(e, unconditional, st);
      Numbered(st', first) && st.seen <= st'.seen &&
          (Keyed(st', key) ==> Consistent(e', key) && CloneExpr(e') == CloneExpr(e))
    decreases e, 1
  {
    CallsNumbered(st, first);
    hide KindOf, Numbered, Keyed;
    match e
    case Unary(_, x) => WalkConsistent(x, unconditional, st, first, key);
    case Binary(_, l, r) =>
      WalkConsistent(l, unconditional, st, first, key);
      var st1 := Walk(l, unconditional, st).1;
      WalkConsistent(r, unconditional, st1, first, key);
      var st2 := Walk(r, unconditional, st1).1;
      if Keyed(st2, key) { KeyedPrefix(st1, st2, key); }
    case Cond(c, t, f) =>
      WalkConsistent(c, unconditional, st, first, key);
      var st1 := Walk(c, unconditional, st).1;
      WalkConsistent(t, false, st1, first, key);
      var st2 := Walk(t, false, st1).1;
      WalkConsistent(f, false, st2, first, key);
      var st3 := Walk(f, false, st2).1;
      if Keyed(st3, key) { KeyedPrefix(st2, st3, key); KeyedPrefix(st1, st2, key); }
    case Call(n, args, _) =>
      AssignConsistent(e, unconditional, st, first, key);
      var st1 := Assign(e, unconditional, st).1;
      WalkConsistentArgs(args, unconditional, st1, first, key);
      var (args', st2) := WalkArgs(args, unconditional, st1);
      if Keyed(st2, key) { KeyedPrefix(st1, st2, key); }
    case _ => {}
  }

  lemma CallsNumbered(st: AllocState, first: int)
    requires Numbered(st, first)
    ensures Calls(st)
  {
  }

  lemma {:induction false} WalkConsistentArgs(args: seq<Expr>, unconditional: bool, st: AllocState, first: int,
                                              key: map<int, Expr>)
    requires UnallocatedArgs(args) && Numbered(st, first) && first > 0
    ensures Calls(st)
    ensures var (args', st') := WalkArgs(args, unconditional, st);
      && Numbered(st', first) && st.seen <= st'.seen
      && (Keyed(st', key) ==> ConsistentArgs(args', key) && CloneArgs(args') == CloneArgs(args))
    decreases args, 0
  {
    CallsNumbered(st, first);
    hide KindOf, Numbered, Keyed;
    if args != [] {
      WalkConsistent(args[0], unconditional, st, first, key);
      var (a, st1) := Walk(args[0], unconditional, st);
      WalkConsistentArgs(args[1..], unconditional, st1, first, key);
      var (rest, st2) := WalkArgs(args[1..], unconditional, st1);
      assert ([a] + rest)[1..] == rest;
      if Keyed(st2, key) { KeyedPrefix(st1, st2, key); ConsClones(a, rest, args); }
    }
  }

  lemma {:induction false} ConsistentGrows(e: Expr, a: map<int, Expr>, b: map<int, Expr>)
    requires Consistent(e, a) && forall i <- a :: i in b && b[i] == a[i]
    ensures Consistent(e, b)
    decreases e, 1
  {
    match e
    case Unary(_, x) => ConsistentGrows(x, a, b);
    case Binary(_, l, r) => ConsistentGrows(l, a, b); ConsistentGrows(r, a, b);
    case Cond(c, t, f) => ConsistentGrows(c, a, b); ConsistentGrows(t, a, b); ConsistentGrows(f, a, b);
    case Call(_, args, _) => ConsistentArgsGrow(args, a, b);
    case _ => {}
  }

  lemma {:induction false} ConsistentArgsGrow(args: seq<Expr>, a: map<int, Expr>, b: map<int, Expr>)
    requires ConsistentArgs(args, a) && forall i <- a :: i in b && b[i] == a[i]
    ensures ConsistentArgs(args, b)
    decreases args, 0
  {
    if args != [] {
      ConsistentGrows(args[0], a, b);
      ConsistentArgsGrow(args[1..], a, b);
    }
  }

  lemma {:induction false} AllSteadyGrows(bodies: seq<Expr>, a: map<int, Expr>, b: map<int, Expr>)
    requires AllSteady(bodies, a) && forall i <- a :: i in b && b[i] == a[i]
    ensures AllSteady(bodies, b)
    decreases bodies
  {
    if bodies != [] {
      ConsistentGrows(bodies[0], a, b);
      AllSteadyGrows(bodies[1..], a, b);
    }
  }

  function KeyAt(st: AllocState, first: int, id: int): Expr
    requires 0 <= id - first < |st.seen|
  {
    CloneExpr(st.seen[id - first].node)
  }

  lemma KeysOf(st: AllocState, first: int) returns (key: map<int, Expr>)
    requires Numbered(st, first)
    ensures Keyed(st, key) && forall i <- key :: first <= i < st.nextId
  {
    hide CloneExpr;
    key := map i: int | first <= i < first + |st.seen| :: KeyAt(st, first, i);
    forall s | s in st.seen ensures s.node.Call? && s.node.nodeId in key && key[s.node.nodeId] == CloneExpr(s.node) {
      var j :| 0 <= j < |st.seen| && st.seen[j] == s;
      assert key[first + j] == KeyAt(st, first, first + j);
    }
  }

  /** Allocation of one signal. */
  lemma SignalSteady(body: Expr, nextId: int) returns (key: map<int, Expr>)
    requires WellFormed(body) && Settled(body, {}) && nextId > 0
    ensures var (body', st) := Walk(body, true, AllocState(nextId, []));
      && nextId <= st.nextId && Consistent(body', key) && Steady(body', {})
      && (forall i <- AvailAfter(body', {}) :: nextId <= i < st.nextId)
      && (forall i <- key :: nextId <= i < st.nextId)
  {
    var st0, bound := AllocState(nextId, []), Size(body);
    WellFormedUnallocated(body);
    WalkSteady(body, st0, {}, {}, bound, {});
    WalkSound(body, true, st0, {}, {}, bound);
    var (body', st) := Walk(body, true, st0);
    PostFacts(st0, true, UncondCalls(body), bound, st, {}, {}, AvailAfter(body', {}), SeenAfter(body', {}, {}));
    WalkConsistent(body, true, st0, nextId, map[]);
    key := KeysOf(st, nextId);
    WalkConsistent(body, true, st0, nextId, key);
  }

  lemma {:induction false} AllocateSteady(bodies: seq<Expr>, nextId: int) returns (key: map<int, Expr>)
    requires WellFormedArgs(bodies) && AllSettled(bodies) && nextId > 0
    ensures var withIds := AllocateProgram(bodies, nextId).0;
      && AllSteady(withIds, key) && (forall i <- AllLive(withIds) :: nextId <= i)
    ensures forall i <- key :: nextId <= i
    decreases bodies
  {
    hide KindOf, Walk, Consistent, Steady, AvailAfter, WellFormed, Settled;
    if bodies == [] {
      key := map[];
    } else {
      var st0 := AllocState(nextId, []);
      var first := SignalSteady(bodies[0], nextId);
      var (body, st) := Walk(bodies[0], true, st0);
      var rest := AllocateSteady(bodies[1..], st.nextId);
      key := first + rest;
      var bodies' := AllocateProgram(bodies[1..], st.nextId).0;
      ConsistentGrows(body, first, key);
      AllSteadyGrows(bodies', rest, key);
      var whole := [body] + bodies';
      assert AllocateProgram(bodies, nextId).0 == whole;
      assert whole[1..] == bodies';
      assert AllLive(whole) == AvailAfter(body, {}) + AllLive(bodies');
      assert Apart(AvailAfter(body, {}), AllLive(bodies'));
    }
  }
}

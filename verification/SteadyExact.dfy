/** Allocation makes a program steady only if its source is settled, so that the condition of the lane theorem
    can be read off the source. */
module SteadyExact {
  import opened Ast
  import opened Evaluation
  import opened Sharing
  import opened NodeIds
  import opened AllocSound
  import opened CodegenCorrect
  import opened Program
  import opened Streams
  import opened StreamsProgram
  import opened AllocSteady
  import opened VectorProgram

  /** The unconditional calls seen so far are among the `earlier` ones. */
  ghost predicate Listed(seen: seq<SeenStateful>, earlier: set<Expr>) {
    forall s <- seen | s.unconditional :: CloneExpr(s.node) in earlier
  }

  lemma ListedMore(seen: seq<SeenStateful>, earlier: set<Expr>, more: set<Expr>)
    requires Listed(seen, earlier)
    ensures Listed(seen, earlier + more)
  {
  }

  lemma ListedEntry(seen: seq<SeenStateful>, earlier: set<Expr>, entry: SeenStateful)
    requires Listed(seen, earlier)
    ensures Listed(seen + [entry], earlier + {CloneExpr(entry.node)})
    ensures !entry.unconditional ==> Listed(seen + [entry], earlier)
  {
  }

  /** What a walk adds to the list. */
  lemma {:induction false} WalkLists(e: Expr, unconditional: bool, st: AllocState, earlier: set<Expr>)
    requires Calls(st) && Listed(st.seen, earlier)
    ensures Listed(Walk(e, unconditional, st).1.seen, earlier + if unconditional then UncondCalls(e) else {})
    decreases e, 1
  {
    hide KindOf, Listed;
    ListedMore(st.seen, earlier, {});
    match e
    case Unary(_, x) => WalkLists(x, unconditional, st, earlier);
    case Binary(_, l, r) =>
      var E1 := earlier + if unconditional then UncondCalls(l) else {};
      WalkLists(l, unconditional, st, earlier);
      WalkLists(r, unconditional, Walk(l, unconditional, st).1, E1);
      assert earlier + UncondCalls(e) == earlier + UncondCalls(l) + UncondCalls(r);
      assert earlier + {} + {} == earlier + {};
    case Cond(c, t, f) =>
      var E1 := earlier + if unconditional then UncondCalls(c) else {};
      WalkLists(c, unconditional, st, earlier);
      var st1 := Walk(c, unconditional, st).1;
      WalkLists(t, false, st1, E1);
      WalkLists(f, false, Walk(t, false, st1).1, E1 + {});
      assert E1 + {} + {} == E1;
    case Call(_, _, _) => WalkCallLists(e, unconditional, st, earlier);
    case _ => ListedMore(st.seen, earlier, UncondCalls(e));
  }

  lemma {:induction false} WalkCallLists(e: Expr, unconditional: bool, st: AllocState, earlier: set<Expr>)
    requires e.Call? && Calls(st) && Listed(st.seen, earlier)
    ensures Listed(Walk(e, unconditional, st).1.seen, earlier + if unconditional then UncondCalls(e) else {})
    decreases e, 0
  {
    hide KindOf, Listed, IsStatefulOp;
    var (id, st1) := Assign(e, unconditional, st);
    var own := if unconditional && IsStatefulOp(e.name) then {CloneExpr(e)} else {};
    ListedMore(st.seen, earlier, own);
    if st1.seen != st.seen {
      var entry := SeenStateful(e.(nodeId := id), unconditional);
      assert CloneExpr(entry.node) == CloneExpr(e);
      ListedEntry(st.seen, earlier, entry);
      if !unconditional { ListedMore(st.seen + [entry], earlier, {}); }
    }
    assert Listed(st1.seen, earlier + own);
    WalkArgsList(e.args, unconditional, st1, earlier + own);
    assert earlier + own + UncondCallsArgs(e.args) == earlier + (UncondCallsArgs(e.args) + own);
    assert earlier + {} + {} == earlier + {};
  }

  lemma {:induction false} WalkArgsList(args: seq<Expr>, unconditional: bool, st: AllocState, earlier: set<Expr>)
    requires Calls(st) && Listed(st.seen, earlier)
    ensures Listed(WalkArgs(args, unconditional, st).1.seen, earlier + if unconditional
      then UncondCallsArgs(args) else {})
    decreases args, 0
  {
    hide KindOf, Listed;
    ListedMore(st.seen, earlier, {});
    if args != [] {
      var E1 := earlier + if unconditional then UncondCalls(args[0]) else {};
      WalkLists(args[0], unconditional, st, earlier);
      WalkArgsList(args[1..], unconditional, Walk(args[0], unconditional, st).1, E1);
      assert earlier + UncondCallsArgs(args) == earlier + UncondCalls(args[0]) + UncondCallsArgs(args[1..]);
      assert earlier + {} + {} == earlier + {};
    }
  }

  lemma NoneKnown(seen: seq<SeenStateful>, avail: set<int>, bound: nat)
    ensures Known({}, seen, avail, bound)
  {
  }

  /** A call that is surely cached repeats an earlier one. */
  lemma AvailableRepeats(e: Expr, unconditional: bool, st: AllocState, avail: set<int>, met: set<int>, bound: nat,
                         earlier: set<Expr>)
    requires e.Call? && IsStatefulOp(e.name) && e.nodeId < 0 && Inv(st, avail, met, bound) && Listed(st.seen, earlier)
    ensures Calls(st)
    ensures Assign(e, unconditional, st).0 in avail ==> CloneExpr(e) in earlier
    ensures TryAliasNodeId(st.seen, e) > 0 ==> CloneExpr(e) in earlier
  {
    InvFacts(st, avail, met, bound);
    AliasFound(st.seen, e);
  }

  lemma {:induction false} HitsRepeat(e: Expr, st: AllocState, avail: set<int>, met: set<int>, bound: nat,
                                      earlier: set<Expr>)
    requires Unallocated(e) && Inv(st, avail, met, bound) && Size(e) <= bound && Listed(st.seen, earlier)
    requires Calls(st) && Hits(Walk(e, false, st).0, avail)
    ensures Repeats(e, earlier)
    decreases e, 1
  {
    hide KindOf, Inv, Listed;
    match e
    case Unary(_, x) => HitsRepeat(x, st, avail, met, bound, earlier);
    case Binary(_, l, r) =>
      HitsRepeat(l, st, avail, met, bound, earlier);
      var st1, m1 := NextBranch(l, st, avail, met, bound, earlier);
      HitsRepeat(r, st1, avail, m1, bound, earlier);
    case Cond(c, t, f) =>
      HitsRepeat(c, st, avail, met, bound, earlier);
      var st1, m1 := NextBranch(c, st, avail, met, bound, earlier);
      HitsRepeat(t, st1, avail, m1, bound, earlier);
      var st2, m2 := NextBranch(t, st1, avail, m1, bound, earlier);
      HitsRepeat(f, st2, avail, m2, bound, earlier);
    case Call(n, args, _) =>
      if IsStatefulOp(n) {
        AvailableRepeats(e, false, st, avail, met, bound, earlier);
      } else {
        HitsRepeatArgs(args, st, avail, met, bound, earlier);
      }
    case _ => {}
  }

  lemma NextBranch(e: Expr, st: AllocState, avail: set<int>, met: set<int>, bound: nat, earlier: set<Expr>)
      returns (st1: AllocState, m1: set<int>)
    requires Unallocated(e) && Inv(st, avail, met, bound) && Size(e) <= bound && Listed(st.seen, earlier)
    ensures Calls(st) && st1 == Walk(e, false, st).1 && Calls(st1)
    ensures Inv(st1, avail, m1, bound) && Listed(st1.seen, earlier)
  {
    hide Inv, Listed, Known;
    NoneKnown(st.seen, avail, bound);
    st1, m1 := AfterBranch(e, st, avail, met, bound, {});
    WalkLists(e, false, st, earlier);
    assert earlier + {} == earlier;
  }

  lemma {:induction false} HitsRepeatArgs(args: seq<Expr>, st: AllocState, avail: set<int>, met: set<int>, bound: nat,
                                          earlier: set<Expr>)
    requires UnallocatedArgs(args) && Inv(st, avail, met, bound) && SizeArgs(args) <= bound && Listed(st.seen, earlier)
    requires Calls(st) && HitsArgs(WalkArgs(args, false, st).0, avail)
    ensures RepeatsArgs(args, earlier)
    decreases args, 0
  {
    hide KindOf, Inv, Listed;
    if args != [] {
      var a := Walk(args[0], false, st).0;
      var st1, m1 := NextBranch(args[0], st, avail, met, bound, earlier);
      var rest := WalkArgs(args[1..], false, st1).0;
      assert ([a] + rest)[1..] == rest;
      HitsRepeat(args[0], st, avail, met, bound, earlier);
      HitsRepeatArgs(args[1..], st1, avail, m1, bound, earlier);
    }
  }

  lemma NextUncond(e: Expr, st: AllocState, avail: set<int>, met: set<int>, bound: nat, earlier: set<Expr>)
      returns (st1: AllocState, a1: set<int>, m1: set<int>)
    requires Unallocated(e) && Inv(st, avail, met, bound) && Size(e) <= bound && Listed(st.seen, earlier)
    ensures Calls(st) && st1 == Walk(e, true, st).1 && Calls(st1) && a1 == AvailAfter(Walk(e, true, st).0, avail)
    ensures Inv(st1, a1, m1, bound) && Listed(st1.seen, earlier + UncondCalls(e))
  {
    hide Inv, Listed, Known;
    NoneKnown(st.seen, avail, bound);
    st1, a1, m1 := AfterUncond(e, st, avail, met, bound, {});
    WalkLists(e, true, st, earlier);
  }

  lemma {:induction false} SteadySettles(e: Expr, st: AllocState, avail: set<int>, met: set<int>, bound: nat,
                                         earlier: set<Expr>)
    requires Unallocated(e) && Inv(st, avail, met, bound) && Size(e) <= bound && Listed(st.seen, earlier)
    requires Calls(st) && Steady(Walk(e, true, st).0, avail)
    ensures Settled(e, earlier)
    decreases e, 1
  {
    hide KindOf, Inv, Listed;
    match e
    case Unary(_, x) => SteadySettles(x, st, avail, met, bound, earlier);
    case Binary(_, l, r) =>
      SteadySettles(l, st, avail, met, bound, earlier);
      var st1, a1, m1 := NextUncond(l, st, avail, met, bound, earlier);
      SteadySettles(r, st1, a1, m1, bound, earlier + UncondCalls(l));
    case Cond(c, t, f) =>
      SteadySettles(c, st, avail, met, bound, earlier);
      var st1, a1, m1 := NextUncond(c, st, avail, met, bound, earlier);
      var E := earlier + UncondCalls(c);
      HitsRepeat(t, st1, a1, m1, bound, E);
      var st2, m2 := NextBranch(t, st1, a1, m1, bound, E);
      HitsRepeat(f, st2, a1, m2, bound, E);
    case Call(n, args, _) =>
      if IsStatefulOp(n) {
        SteadySettlesStateful(e, st, avail, met, bound, earlier);
      } else {
        SteadySettlesArgs(args, st, avail, met, bound, earlier);
      }
    case _ => {}
  }

  lemma {:induction false} SteadySettlesStateful(e: Expr, st: AllocState, avail: set<int>, met: set<int>, bound: nat,
                                                 earlier: set<Expr>)
    requires e.Call? && IsStatefulOp(e.name)
    requires Unallocated(e) && Inv(st, avail, met, bound) && Size(e) <= bound && Listed(st.seen, earlier)
    requires Calls(st) && Steady(Walk(e, true, st).0, avail)
    ensures Settled(e, earlier)
    decreases e, 0
  {
    InvFacts(st, avail, met, bound);
    AvailableRepeats(e, true, st, avail, met, bound, earlier);
    if TryAliasNodeId(st.seen, e) <= 0 {
      var id, inner, E := st.nextId, Size(e) - 1, earlier + {CloneExpr(e)};
      var entry := SeenStateful(e.(nodeId := id), true);
      var st1 := AllocState(id + 1, st.seen + [entry]);
      EntryClone(e, id);
      InvPushed(st, avail, met, bound, entry, inner);
      ListedEntry(st.seen, earlier, entry);
      hide Inv, Listed, KindOf;
      assert Assign(e, true, st) == (id, st1);
      SteadySettlesArgs(e.args, st1, avail, met, inner, E);
    }
  }

  lemma {:induction false} SteadySettlesArgs(args: seq<Expr>, st: AllocState, avail: set<int>, met: set<int>,
                                             bound: nat, earlier: set<Expr>)
    requires UnallocatedArgs(args) && Inv(st, avail, met, bound) && SizeArgs(args) <= bound && Listed(st.seen, earlier)
    requires Calls(st) && SteadyArgs(WalkArgs(args, true, st).0, avail)
    ensures SettledArgs(args, earlier)
    decreases args, 0
  {
    hide KindOf, Inv, Listed;
    if args != [] {
      var a := Walk(args[0], true, st).0;
      var st1, a1, m1 := NextUncond(args[0], st, avail, met, bound, earlier);
      var rest := WalkArgs(args[1..], true, st1).0;
      assert ([a] + rest)[1..] == rest;
      SteadySettles(args[0], st, avail, met, bound, earlier);
      SteadySettlesArgs(args[1..], st1, a1, m1, bound, earlier + UncondCalls(args[0]));
    }
  }

  /** One signal. */
  lemma SignalSteadyIff(body: Expr, nextId: int)
    requires WellFormed(body) && nextId > 0
    ensures Steady(Walk(body, true, AllocState(nextId, [])).0, {}) <==> Settled(body, {})
  {
    var st0 := AllocState(nextId, []);
    WellFormedUnallocated(body);
    hide Walk, Steady, Settled;
    if Settled(body, {}) {
      WalkSteady(body, st0, {}, {}, Size(body), {});
    }
    if Steady(Walk(body, true, st0).0, {}) {
      SteadySettles(body, st0, {}, {}, Size(body), {});
    }
  }

  /** A program is steady after allocation exactly when every stateful call met in a branch of its source
      equals an unconditional call that comes before it. */
  lemma {:induction false} SteadyIffSettled(bodies: seq<Expr>, nextId: int)
    requires WellFormedArgs(bodies) && nextId > 0
    ensures SteadyAll(AllocateProgram(bodies, nextId).0) <==> AllSettled(bodies)
    decreases bodies
  {
    hide Walk, WellFormed, Settled, Steady;
    if bodies != [] {
      SignalSteadyIff(bodies[0], nextId);
      var (body, st) := Walk(bodies[0], true, AllocState(nextId, []));
      assert st.nextId > 0 by { WalkRunnable(bodies[0], true, AllocState(nextId, [])); }
      SteadyIffSettled(bodies[1..], st.nextId);
      var rest := AllocateProgram(bodies[1..], st.nextId).0;
      assert ([body] + rest)[1..] == rest;
      assert bodies == [bodies[0]] + bodies[1..];
      assert AllSettled(bodies) <==> Settled(bodies[0], {}) && AllSettled(bodies[1..]);
    }
  }
}

/** Allocation leaves no gaps: the ids in an allocated program are all the numbers from the first up to the next
    free one. */
module DenseIds {
  import opened Ast
  import opened Evaluation
  import opened NodeIds
  import opened AllocSound
  import opened Program
  import opened NoiseExchange

  /** The ids handed out so far come from `first` on. */
  ghost predicate From(st: AllocState, first: int) {
    0 < first <= st.nextId && forall s <- st.seen :: s.node.Call? && first <= s.node.nodeId < st.nextId
  }

  /** Between `st` and `st'` every new id went to one of `calls`, and these have no other ids than handed out. */
  ghost predicate Dense(st: AllocState, st': AllocState, first: int, calls: set<Expr>)
    requires forall c <- calls :: c.Call?
  {
    && From(st', first) && st.nextId <= st'.nextId
    && (forall i: int | st.nextId <= i < st'.nextId :: i in Ids(calls))
    && (forall i <- Ids(calls) :: first <= i < st'.nextId)
  }

  lemma DenseBoth(a: AllocState, b: AllocState, c: AllocState, first: int, c1: set<Expr>, c2: set<Expr>)
    requires (forall c <- c1 :: c.Call?) && forall c <- c2 :: c.Call?
    requires Dense(a, b, first, c1) && Dense(b, c, first, c2)
    ensures Dense(a, c, first, c1 + c2)
  {
    assert Ids(c1 + c2) == Ids(c1) + Ids(c2);
    hide Ids;
  }

  lemma DenseNone(st: AllocState, first: int)
    requires From(st, first)
    ensures Dense(st, st, first, {})
  {
  }

  lemma FromCalls(st: AllocState, first: int)
    requires From(st, first)
    ensures Calls(st) && Ready(st)
  {
  }

  lemma DenseFrom(st: AllocState, st': AllocState, first: int, calls: set<Expr>)
    requires (forall c <- calls :: c.Call?) && Dense(st, st', first, calls)
    ensures From(st', first)
  {
  }

  lemma {:induction false} WalkDense(e: Expr, unconditional: bool, st: AllocState, first: int)
    requires Unallocated(e) && From(st, first)
    ensures Calls(st)
    ensures Dense(st, Walk(e, unconditional, st).1, first, StatefulIn(Walk(e, unconditional, st).0))
    decreases e, 1
  {
    FromCalls(st, first);
    hide KindOf, From, Dense;
    match e
    case Unary(_, x) => WalkDense(x, unconditional, st, first);
    case Binary(_, l, r) =>
      WalkDense(l, unconditional, st, first);
      var (l', st1) := Walk(l, unconditional, st);
      DenseFrom(st, st1, first, StatefulIn(l'));
      WalkDense(r, unconditional, st1, first);
      var (r', st2) := Walk(r, unconditional, st1);
      DenseBoth(st, st1, st2, first, StatefulIn(l'), StatefulIn(r'));
    case Cond(c, t, f) =>
      WalkDense(c, unconditional, st, first);
      var (c', st1) := Walk(c, unconditional, st);
      DenseFrom(st, st1, first, StatefulIn(c'));
      WalkDense(t, false, st1, first);
      var (t', st2) := Walk(t, false, st1);
      DenseBoth(st, st1, st2, first, StatefulIn(c'), StatefulIn(t'));
      DenseFrom(st1, st2, first, StatefulIn(t'));
      WalkDense(f, false, st2, first);
      var (f', st3) := Walk(f, false, st2);
      DenseBoth(st, st2, st3, first, StatefulIn(c') + StatefulIn(t'), StatefulIn(f'));
    case Call(_, _, _) => WalkCallDense(e, unconditional, st, first);
    case _ => DenseNone(st, first);
  }

  lemma {:induction false} WalkCallDense(e: Expr, unconditional: bool, st: AllocState, first: int)
    requires e.Call? && Unallocated(e) && From(st, first)
    ensures Calls(st)
    ensures Dense(st, Walk(e, unconditional, st).1, first, StatefulIn(Walk(e, unconditional, st).0))
    decreases e, 0
  {
    FromCalls(st, first);
    AssignDense(e, unconditional, st, first);
    var (id, st1) := Assign(e, unconditional, st);
    WalkArgsDense(e.args, unconditional, st1, first);
    var (args', st2) := WalkArgs(e.args, unconditional, st1);
    var own := if IsStatefulOp(e.name) then {Call(e.name, args', id)} else {};
    hide KindOf, IsStatefulOp, From, Dense, Assign;
    OwnDense(e, unconditional, st, first, args', st2);
    assert StatefulIn(Call(e.name, args', id)) == own + StatefulInArgs(args');
  }

  /** The id of the call itself. */
  lemma AssignDense(e: Expr, unconditional: bool, st: AllocState, first: int)
    requires e.Call? && e.nodeId < 0 && From(st, first)
    ensures Calls(st)
    ensures var (id, st1) := Assign(e, unconditional, st);
      && From(st1, first)
      && (IsStatefulOp(e.name) ==> first <= id < st1.nextId)
      && (st1.nextId == st.nextId || (IsStatefulOp(e.name) && id == st.nextId && st1.nextId == st.nextId + 1))
  {
    FromCalls(st, first);
    AliasFound(st.seen, e);
    var (id, st1) := Assign(e, unconditional, st);
    hide KindOf, IsStatefulOp, TryAliasNodeId;
    if st1 != st {
      var entry := SeenStateful(e.(nodeId := id), unconditional);
      assert st1.seen == st.seen + [entry];
    }
  }

  lemma OwnDense(e: Expr, unconditional: bool, st: AllocState, first: int, args': seq<Expr>, st2: AllocState)
    requires e.Call? && e.nodeId < 0 && From(st, first) && Calls(st)
    requires Dense(Assign(e, unconditional, st).1, st2, first, StatefulInArgs(args'))
    ensures var own := if IsStatefulOp(e.name) then {Call(e.name, args', Assign(e, unconditional, st).0)} else {};
      Dense(st, st2, first, own + StatefulInArgs(args'))
  {
    AssignDense(e, unconditional, st, first);
    var (id, st1) := Assign(e, unconditional, st);
    var own := if IsStatefulOp(e.name) then {Call(e.name, args', id)} else {};
    assert Ids(own + StatefulInArgs(args')) == Ids(own) + Ids(StatefulInArgs(args'));
    if IsStatefulOp(e.name) { OneId(Call(e.name, args', id)); }
    hide StatefulInArgs, KindOf, IsStatefulOp, Assign, Ids;
  }

  lemma OneId(c: Expr)
    requires c.Call?
    ensures Ids({c}) == {c.nodeId}
  {
  }

  lemma {:induction false} WalkArgsDense(args: seq<Expr>, unconditional: bool, st: AllocState, first: int)
    requires UnallocatedArgs(args) && From(st, first)
    ensures Calls(st)
    ensures Dense(st, WalkArgs(args, unconditional, st).1, first, StatefulInArgs(WalkArgs(args, unconditional, st).0))
    decreases args, 0
  {
    FromCalls(st, first);
    hide KindOf, From, Dense;
    if args == [] {
      DenseNone(st, first);
    } else {
      WalkDense(args[0], unconditional, st, first);
      var (a, st1) := Walk(args[0], unconditional, st);
      DenseFrom(st, st1, first, StatefulIn(a));
      WalkArgsDense(args[1..], unconditional, st1, first);
      var (rest, st2) := WalkArgs(args[1..], unconditional, st1);
      assert ([a] + rest)[1..] == rest;
      DenseBoth(st, st1, st2, first, StatefulIn(a), StatefulInArgs(rest));
    }
  }

  /** The ids in a program are exactly the numbers from `nextId` up to the one that is returned as free: there are
      as many slots as ids were handed out, and none is unused. */
  lemma {:induction false} ProgramDense(bodies: seq<Expr>, nextId: int)
    requires WellFormedArgs(bodies) && nextId > 0
    ensures var (withIds, next) := AllocateProgram(bodies, nextId);
      nextId <= next && forall i: int :: i in Ids(StatefulInArgs(withIds)) <==> nextId <= i < next
    decreases bodies
  {
    hide Walk, WellFormed, StatefulIn, Ids;
    if bodies == [] {
      NoIds();
    } else {
      var st0 := AllocState(nextId, []);
      WellFormedUnallocated(bodies[0]);
      WalkDense(bodies[0], true, st0, nextId);
      var (body, st) := Walk(bodies[0], true, st0);
      ProgramDense(bodies[1..], st.nextId);
      var (rest, next) := AllocateProgram(bodies[1..], st.nextId);
      assert ([body] + rest)[1..] == rest;
      BothIds(StatefulIn(body), StatefulInArgs(rest));
    }
  }

  lemma NoIds()
    ensures Ids({}) == {}
  {
  }

  lemma BothIds(a: set<Expr>, b: set<Expr>)
    requires (forall c <- a :: c.Call?) && forall c <- b :: c.Call?
    ensures Ids(a + b) == Ids(a) + Ids(b)
  {
  }
}

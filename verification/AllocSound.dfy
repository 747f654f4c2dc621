/** Allocation is sound: in the tree it returns, every stateful call is either surely cached when it is
    reached, or surely new. */
module AllocSound {
  import opened Ast
  import opened Sharing
  import opened NodeIds

  /** What inlining returns: no stateful call has an id yet. */
  predicate Unallocated(e: Expr)
    decreases e, 1
  {
    match e
    case Unary(_, x) => Unallocated(x)
    case Binary(_, l, r) => Unallocated(l) && Unallocated(r)
    case Cond(c, t, f) => Unallocated(c) && Unallocated(t) && Unallocated(f)
    case Call(_, args, id) => id < 0 && UnallocatedArgs(args)
    case _ => true
  }

  predicate UnallocatedArgs(args: seq<Expr>)
    decreases args, 0
  {
    args == [] || (Unallocated(args[0]) && UnallocatedArgs(args[1..]))
  }

  /** Clones of the stateful calls that stand outside every then/else branch of `e`. */
  function UncondCalls(e: Expr): set<Expr>
    decreases e, 1
  {
    match e
    case Unary(_, x) => UncondCalls(x)
    case Binary(_, l, r) => UncondCalls(l) + UncondCalls(r)
    case Cond(c, _, _) => UncondCalls(c)
    case Call(n, args, _) => UncondCallsArgs(args) + if IsStatefulOp(n) then {CloneExpr(e)} else {}
    case _ => {}
  }

  function UncondCallsArgs(args: seq<Expr>): set<Expr>
    decreases args, 0
  {
    if args == [] then {} else UncondCalls(args[0]) + UncondCallsArgs(args[1..])
  }

  lemma {:induction false} UncondCallsOfClone(e: Expr)
    ensures UncondCalls(CloneExpr(e)) == UncondCalls(e)
    decreases e, 1
  {
    match e
    case Unary(_, x) => UncondCallsOfClone(x);
    case Binary(_, l, r) => UncondCallsOfClone(l); UncondCallsOfClone(r);
    case Cond(c, _, _) => UncondCallsOfClone(c);
    case Call(n, args, _) => CloneIdempotent(e); UncondCallsOfClones(args);
    case _ => {}
  }

  lemma {:induction false} UncondCallsOfClones(args: seq<Expr>)
    ensures UncondCallsArgs(CloneArgs(args)) == UncondCallsArgs(args)
    decreases args, 0
  {
    if args != [] {
      UncondCallsOfClone(args[0]);
      UncondCallsOfClones(args[1..]);
      assert CloneArgs(args)[1..] == CloneArgs(args[1..]);
    }
  }

  /** The calls that a later equal call may alias to, and that are surely cached. */
  ghost function Keys(seen: seq<SeenStateful>, avail: set<int>): iset<Expr> {
    iset s: SeenStateful | s in seen && s.unconditional && s.node.Call? && s.node.nodeId in avail :: CloneExpr(s.node)
  }

  ghost predicate Covered(calls: set<Expr>, seen: seq<SeenStateful>, avail: set<int>) {
    forall k <- calls :: k in Keys(seen, avail)
  }

  lemma CoveredGrows(calls: set<Expr>, seen: seq<SeenStateful>, avail: set<int>, seen': seq<SeenStateful>,
                     avail': set<int>)
    requires Covered(calls, seen, avail)
    requires seen <= seen' && avail <= avail'
    ensures Covered(calls, seen', avail')
  {
    forall k | k in calls ensures k in Keys(seen', avail') {
      assert k in Keys(seen, avail);
      var s :| s in seen && s.unconditional && s.node.Call? && s.node.nodeId in avail && k == CloneExpr(s.node);
      assert s in seen';
    }
  }

  /** The allocator's invariant between two steps of the walk.  An unconditional entry is either surely
      cached or a call whose arguments are still being walked; the latter are larger than `bound`, so no
      expression of size at most `bound` equals one of them. */
  ghost predicate Inv(st: AllocState, avail: set<int>, met: set<int>, bound: nat) {
    && st.nextId > 0
    && (forall s <- st.seen :: s.node.Call? && 0 < s.node.nodeId < st.nextId)
    && avail <= met
    && (forall i <- met :: 0 < i < st.nextId)
    && (forall s <- st.seen | s.unconditional :: s.node.nodeId in avail || Size(s.node) > bound)
    && (forall s <- st.seen | s.unconditional && s.node.nodeId in avail :: Covered(UncondCalls(s.node), st.seen, avail))
  }

  /** How a walk changes the state: new entries only, with new ids. */
  ghost predicate Grown(st: AllocState, st': AllocState) {
    && st.seen <= st'.seen
    && st.nextId <= st'.nextId
    && (forall i | |st.seen| <= i < |st'.seen| ::
          st'.seen[i].node.Call? && st.nextId <= st'.seen[i].node.nodeId < st'.nextId)
  }

  ghost predicate NewConditional(st: AllocState, st': AllocState) {
    forall i | |st.seen| <= i < |st'.seen| :: !st'.seen[i].unconditional
  }

  /** Conditional entries are never aliased, so they do not disturb the invariant. */
  lemma InvWithConditionals(st: AllocState, st': AllocState, avail: set<int>, met: set<int>, met': set<int>, bound: nat)
    requires Inv(st, avail, met, bound) && Grown(st, st') && NewConditional(st, st')
    requires met <= met' && forall i <- met' :: 0 < i < st'.nextId
    ensures Inv(st', avail, met', bound)
  {
    forall s | s in st'.seen
      ensures s.node.Call? && 0 < s.node.nodeId < st'.nextId
      ensures s.unconditional ==> s in st.seen
    {
      var i :| 0 <= i < |st'.seen| && st'.seen[i] == s;
      if i < |st.seen| { assert st.seen[i] == s; }
    }
    forall s | s in st'.seen && s.unconditional && s.node.nodeId in avail
      ensures Covered(UncondCalls(s.node), st'.seen, avail)
    {
      CoveredGrows(UncondCalls(s.node), st.seen, avail, st'.seen, avail);
    }
  }

  lemma {:induction false} AliasFound(seen: seq<SeenStateful>, call: Expr)
    requires call.Call?
    requires forall s <- seen :: s.node.Call? && s.node.nodeId > 0
    ensures var id := TryAliasNodeId(seen, call);
      if id > 0 then exists s <- seen :: s.unconditional && CloneExpr(s.node) == CloneExpr(call) && s.node.nodeId == id
      else id == 0 && forall s <- seen | s.unconditional :: CloneExpr(s.node) != CloneExpr(call)
  {
    if seen != [] {
      AstEqualsIsEqualClones(seen[0].node, call);
      AliasFound(seen[1..], call);
      assert seen == [seen[0]] + seen[1..];
      if !(seen[0].unconditional && AstEquals(seen[0].node, call)) && TryAliasNodeId(seen[1..], call) > 0 {
        var s :| s in seen[1..] && s.unconditional && CloneExpr(s.node) == CloneExpr(call) &&
          s.node.nodeId == TryAliasNodeId(seen[1..], call);
        assert s in seen;
      }
    }
  }

  ghost predicate Ready(st: AllocState) {
    st.nextId > 0 && forall s <- st.seen :: s.node.Call? && 0 < s.node.nodeId
  }

  /** A step that adds conditional entries only, and keeps covered what was. */
  ghost predicate Quiet(st: AllocState, st': AllocState) {
    Ready(st') && Grown(st, st') && NewConditional(st, st')
  }

  lemma QuietStep(st: AllocState, st': AllocState)
    requires Ready(st) && Grown(st, st') && NewConditional(st, st')
    ensures Quiet(st, st')
  {
    GrownEntries(st, st');
  }

  lemma QuietTrans(st0: AllocState, st1: AllocState, st2: AllocState)
    requires Quiet(st0, st1) && Quiet(st1, st2)
    ensures Quiet(st0, st2)
  {
    forall i | |st0.seen| <= i < |st2.seen|
      ensures st2.seen[i].node.Call? && st0.nextId <= st2.seen[i].node.nodeId < st2.nextId && !st2.seen[i].unconditional
    {
      if i < |st1.seen| { assert st1.seen[i] == st2.seen[i]; }
    }
  }

  /** Under a call that is already cached, every unconditional call aliases: only conditional entries
      can be added, and none of those is ever evaluated. */
  lemma {:induction false} WalkCovered(e: Expr, unconditional: bool, st: AllocState, avail: set<int>)
    requires Unallocated(e) && Ready(st)
    requires unconditional ==> Covered(UncondCalls(e), st.seen, avail)
    ensures CloneExpr(Walk(e, unconditional, st).0) == CloneExpr(e)
    ensures Quiet(st, Walk(e, unconditional, st).1)
    decreases e, 1
  {
    hide KindOf, Keys, Size;
    match e
    case Unary(_, x) => WalkCovered(x, unconditional, st, avail);
    case Binary(_, l, r) =>
      WalkCovered(l, unconditional, st, avail);
      var st1 := Walk(l, unconditional, st).1;
      if unconditional { CoveredGrows(UncondCalls(r), st.seen, avail, st1.seen, avail); }
      WalkCovered(r, unconditional, st1, avail);
      QuietTrans(st, st1, Walk(r, unconditional, st1).1);
    case Cond(c, t, f) =>
      WalkCovered(c, unconditional, st, avail);
      var st1 := Walk(c, unconditional, st).1;
      WalkCovered(t, false, st1, avail);
      var st2 := Walk(t, false, st1).1;
      WalkCovered(f, false, st2, avail);
      QuietTrans(st, st1, st2);
      QuietTrans(st, st2, Walk(f, false, st2).1);
    case Call(_, args, _) => WalkCoveredCall(e, unconditional, st, avail);
    case _ => {}
  }

  lemma {:induction false} WalkCoveredCall(e: Expr, unconditional: bool, st: AllocState, avail: set<int>)
    requires e.Call? && Unallocated(e) && Ready(st)
    requires unconditional ==> Covered(UncondCalls(e), st.seen, avail)
    ensures CloneExpr(Walk(e, unconditional, st).0) == CloneExpr(e)
    ensures Quiet(st, Walk(e, unconditional, st).1)
    decreases e, 0
  {
    AssignCovered(e, unconditional, st, avail);
    var st1 := Assign(e, unconditional, st).1;
    WalkCoveredArgs(e.args, unconditional, st1, avail);
    QuietTrans(st, st1, WalkArgs(e.args, unconditional, st1).1);
  }

  lemma AssignCovered(e: Expr, unconditional: bool, st: AllocState, avail: set<int>)
    requires e.Call? && Unallocated(e) && Ready(st)
    requires unconditional ==> Covered(UncondCalls(e), st.seen, avail)
    ensures var st1 := Assign(e, unconditional, st).1;
      Quiet(st, st1) && (unconditional ==> Covered(UncondCallsArgs(e.args), st1.seen, avail))
  {
    AliasFound(st.seen, e);
    if IsStatefulOp(e.name) && unconditional {
      assert CloneExpr(e) in UncondCalls(e);
      assert CloneExpr(e) in Keys(st.seen, avail);
      var s :| s in st.seen && s.unconditional && s.node.Call? && s.node.nodeId in avail &&
        CloneExpr(s.node) == CloneExpr(e);
      assert TryAliasNodeId(st.seen, e) > 0;
    }
    var st1 := Assign(e, unconditional, st).1;
    QuietStep(st, st1);
    if unconditional {
      assert Covered(UncondCallsArgs(e.args), st.seen, avail);
      CoveredGrows(UncondCallsArgs(e.args), st.seen, avail, st1.seen, avail);
    }
  }

  lemma {:induction false} WalkCoveredArgs(args: seq<Expr>, unconditional: bool, st: AllocState, avail: set<int>)
    requires UnallocatedArgs(args) && Ready(st)
    requires unconditional ==> Covered(UncondCallsArgs(args), st.seen, avail)
    ensures CloneArgs(WalkArgs(args, unconditional, st).0) == CloneArgs(args)
    ensures Quiet(st, WalkArgs(args, unconditional, st).1)
    decreases args, 0
  {
    if args != [] {
      WalkCovered(args[0], unconditional, st, avail);
      var (a, st1) := Walk(args[0], unconditional, st);
      if unconditional { CoveredGrows(UncondCallsArgs(args[1..]), st.seen, avail, st1.seen, avail); }
      WalkCoveredArgs(args[1..], unconditional, st1, avail);
      var (rest, st2) := WalkArgs(args[1..], unconditional, st1);
      QuietTrans(st, st1, st2);
      ConsClones(a, rest, args);
    }
  }

  lemma ConsClones(a: Expr, rest: seq<Expr>, args: seq<Expr>)
    requires args != [] && CloneExpr(a) == CloneExpr(args[0]) && CloneArgs(rest) == CloneArgs(args[1..])
    ensures CloneArgs([a] + rest) == CloneArgs(args)
  {
    assert ([a] + rest)[1..] == rest;
  }

  lemma GrownEntries(st: AllocState, st': AllocState)
    requires Grown(st, st') && st.nextId > 0
    requires forall s <- st.seen :: s.node.Call? && 0 < s.node.nodeId
    ensures forall s <- st'.seen :: s.node.Call? && 0 < s.node.nodeId
  {
    forall s | s in st'.seen ensures s.node.Call? && 0 < s.node.nodeId {
      var i :| 0 <= i < |st'.seen| && st'.seen[i] == s;
      if i < |st.seen| { assert st.seen[i] == s; }
    }
  }

  /** Everything the walk guarantees about one expression. */
  ghost predicate WalkPost(e: Expr, unconditional: bool, st: AllocState, avail: set<int>, met: set<int>, bound: nat,
                           e': Expr, st': AllocState)
  {
    var avail', met' := AvailAfter(e', avail), SeenAfter(e', avail, met);
    && CloneExpr(e') == CloneExpr(e)
    && SoundlyShared(e', avail, met)
    && PostState(st, unconditional, UncondCalls(e), bound, st', avail, met, avail', met')
  }

  ghost predicate PostState(st: AllocState, unconditional: bool, calls: set<Expr>, bound: nat, st': AllocState,
                            avail: set<int>, met: set<int>, avail': set<int>, met': set<int>)
  {
    && Grown(st, st')
    && avail <= avail' && met <= met'
    && (forall i <- met' :: i in met || st.nextId <= i < st'.nextId)
    && Inv(st', avail', met', bound)
    && (forall i | |st.seen| <= i < |st'.seen| && st'.seen[i].unconditional :: st'.seen[i].node.nodeId in avail')
    && (if unconditional then Covered(calls, st'.seen, avail') else NewConditional(st, st'))
  }

  lemma PostStateCompose(st0: AllocState, st1: AllocState, st2: AllocState, unconditional: bool, bound: nat,
                         calls1: set<Expr>, calls2: set<Expr>, a0: set<int>, m0: set<int>,
                         a1: set<int>, m1: set<int>, a2: set<int>, m2: set<int>)
    requires PostState(st0, unconditional, calls1, bound, st1, a0, m0, a1, m1)
    requires PostState(st1, unconditional, calls2, bound, st2, a1, m1, a2, m2)
    ensures PostState(st0, unconditional, calls1 + calls2, bound, st2, a0, m0, a2, m2)
  {
    assert st1.seen <= st2.seen;
    forall i | |st0.seen| <= i < |st2.seen|
      ensures st2.seen[i].node.Call? && st0.nextId <= st2.seen[i].node.nodeId < st2.nextId
      ensures st2.seen[i].unconditional ==> st2.seen[i].node.nodeId in a2
      ensures !unconditional ==> !st2.seen[i].unconditional
    {
      if i < |st1.seen| { assert st1.seen[i] == st2.seen[i]; }
    }
    if unconditional {
      CoveredGrows(calls1, st1.seen, a1, st2.seen, a2);
    }
  }

  lemma InvFacts(st: AllocState, avail: set<int>, met: set<int>, bound: nat)
    requires Inv(st, avail, met, bound)
    ensures Calls(st) && avail <= met && st.nextId !in met && st.nextId !in avail
  {
  }

  lemma PostStateRefl(st: AllocState, unconditional: bool, bound: nat, avail: set<int>, met: set<int>)
    requires Inv(st, avail, met, bound)
    ensures PostState(st, unconditional, {}, bound, st, avail, met, avail, met)
  {
  }

  lemma PostStateInv(st: AllocState, unconditional: bool, calls: set<Expr>, bound: nat, st': AllocState,
                     avail: set<int>, met: set<int>, avail': set<int>, met': set<int>)
    requires PostState(st, unconditional, calls, bound, st', avail, met, avail', met')
    ensures Inv(st', avail', met', bound)
    ensures forall i <- met' :: i in met || st.nextId <= i
  {
  }

  lemma {:induction false} WalkSound(e: Expr, unconditional: bool, st: AllocState, avail: set<int>, met: set<int>,
                                     bound: nat)
    requires Unallocated(e) && Inv(st, avail, met, bound) && Size(e) <= bound
    ensures var (e', st') := Walk(e, unconditional, st);
      WalkPost(e, unconditional, st, avail, met, bound, e', st')
    decreases e, 1
  {
    InvFacts(st, avail, met, bound);
    hide KindOf, Inv, PostState, Covered, Grown, NewConditional, Keys;
    match e
    case Unary(_, x) => WalkSound(x, unconditional, st, avail, met, bound);
    case Binary(_, _, _) => WalkSoundBinary(e, unconditional, st, avail, met, bound);
    case Cond(c, t, f) => WalkSoundCond(e, unconditional, st, avail, met, bound);
    case Call(n, args, _) =>
      if IsStatefulOp(n) {
        WalkSoundStateful(e, unconditional, st, avail, met, bound);
      } else {
        WalkSoundStateless(e, unconditional, st, avail, met, bound);
      }
    case _ => PostStateRefl(st, unconditional, bound, avail, met);
  }

  lemma {:induction false} WalkSoundStateless(e: Expr, unconditional: bool, st: AllocState, avail: set<int>,
                                              met: set<int>, bound: nat)
    requires e.Call? && !IsStatefulOp(e.name) && Unallocated(e) && Inv(st, avail, met, bound) && Size(e) <= bound
    ensures Calls(st)
    ensures var (e', st') := Walk(e, unconditional, st);
      WalkPost(e, unconditional, st, avail, met, bound, e', st')
    decreases e, 0
  {
    InvFacts(st, avail, met, bound);
    hide KindOf, Inv, PostState, Covered, Grown, NewConditional, Keys;
    WalkSoundArgs(e.args, unconditional, st, avail, met, bound);
    assert UncondCalls(e) == UncondCallsArgs(e.args) + {} == UncondCallsArgs(e.args);
  }

  lemma {:induction false} WalkSoundBinary(e: Expr, unconditional: bool, st: AllocState, avail: set<int>, met: set<int>,
                                           bound: nat)
    requires e.Binary? && Unallocated(e) && Inv(st, avail, met, bound) && Size(e) <= bound
    ensures Calls(st)
    ensures var (e', st') := Walk(e, unconditional, st);
      WalkPost(e, unconditional, st, avail, met, bound, e', st')
    decreases e, 0
  {
    InvFacts(st, avail, met, bound);
    hide KindOf, Inv, PostState, Covered, Grown, NewConditional, Keys;
    var l, r := e.left, e.right;
    WalkSound(l, unconditional, st, avail, met, bound);
    var (l', st1) := Walk(l, unconditional, st);
    var a1, m1 := AvailAfter(l', avail), SeenAfter(l', avail, met);
    PostStateInv(st, unconditional, UncondCalls(l), bound, st1, avail, met, a1, m1);
    WalkSound(r, unconditional, st1, a1, m1, bound);
    var (r', st2) := Walk(r, unconditional, st1);
    PostStateCompose(st, st1, st2, unconditional, bound, UncondCalls(l), UncondCalls(r),
                     avail, met, a1, m1, AvailAfter(r', a1), SeenAfter(r', a1, m1));
  }

  lemma {:induction false} WalkSoundArgs(args: seq<Expr>, unconditional: bool, st: AllocState, avail: set<int>,
                                         met: set<int>, bound: nat)
    requires UnallocatedArgs(args) && Inv(st, avail, met, bound) && SizeArgs(args) <= bound
    ensures var (args', st') := WalkArgs(args, unconditional, st);
      && CloneArgs(args') == CloneArgs(args)
      && SoundlySharedArgs(args', avail, met)
      && PostState(st, unconditional, UncondCallsArgs(args), bound, st', avail, met,
                   AvailAfterArgs(args', avail), SeenAfterArgs(args', avail, met))
    decreases args, 0
  {
    InvFacts(st, avail, met, bound);
    hide KindOf, Inv, PostState, Covered, Grown, NewConditional, Keys;
    if args == [] {
      PostStateRefl(st, unconditional, bound, avail, met);
    } else {
      WalkSound(args[0], unconditional, st, avail, met, bound);
      var (a, st1) := Walk(args[0], unconditional, st);
      var a1, m1 := AvailAfter(a, avail), SeenAfter(a, avail, met);
      PostStateInv(st, unconditional, UncondCalls(args[0]), bound, st1, avail, met, a1, m1);
      WalkSoundArgs(args[1..], unconditional, st1, a1, m1, bound);
      var (rest, st2) := WalkArgs(args[1..], unconditional, st1);
      PostStateCompose(st, st1, st2, unconditional, bound, UncondCalls(args[0]), UncondCallsArgs(args[1..]),
                       avail, met, a1, m1, AvailAfterArgs(rest, a1), SeenAfterArgs(rest, a1, m1));
      ConsClones(a, rest, args);
      assert ([a] + rest)[1..] == rest;
    }
  }

  lemma {:induction false} WalkSoundCond(e: Expr, unconditional: bool, st: AllocState, avail: set<int>, met: set<int>,
                                         bound: nat)
    requires e.Cond? && Unallocated(e) && Inv(st, avail, met, bound) && Size(e) <= bound
    ensures var (e', st') := Walk(e, unconditional, st);
      WalkPost(e, unconditional, st, avail, met, bound, e', st')
    decreases e, 0
  {
    InvFacts(st, avail, met, bound);
    hide KindOf, Inv, PostState, Covered, Grown, NewConditional, Keys;
    var c, t, f := e.cond, e.thn, e.els;
    WalkSound(c, unconditional, st, avail, met, bound);
    var (c', st1) := Walk(c, unconditional, st);
    var a1, m1 := AvailAfter(c', avail), SeenAfter(c', avail, met);
    PostStateInv(st, unconditional, UncondCalls(c), bound, st1, avail, met, a1, m1);
    WalkSound(t, false, st1, a1, m1, bound);
    var (t', st2) := Walk(t, false, st1);
    var m2 := SeenAfter(t', a1, m1);
    BranchPost(st1, st2, UncondCalls(t), unconditional, bound, a1, m1, AvailAfter(t', a1), m2);
    WalkSound(f, false, st2, a1, m2, bound);
    var (f', st3) := Walk(f, false, st2);
    var m3 := SeenAfter(f', a1, m2);
    BranchPost(st2, st3, UncondCalls(f), unconditional, bound, a1, m2, AvailAfter(f', a1), m3);
    PostStateCompose(st1, st2, st3, unconditional, bound, {}, {}, a1, m1, a1, m2, a1, m3);
    PostStateCompose(st, st1, st3, unconditional, bound, UncondCalls(c), {} + {}, avail, met, a1, m1, a1, m3);
    assert UncondCalls(c) + ({} + {}) == UncondCalls(e);
  }

  /** Seen from outside, a branch adds possible ids and conditional entries, and nothing sure. */
  lemma BranchPost(st: AllocState, st': AllocState, calls: set<Expr>, unconditional: bool, bound: nat,
                   avail: set<int>, met: set<int>, avail': set<int>, met': set<int>)
    requires Inv(st, avail, met, bound)
    requires PostState(st, false, calls, bound, st', avail, met, avail', met')
    ensures Inv(st', avail, met', bound)
    ensures PostState(st, unconditional, {}, bound, st', avail, met, avail, met')
  {
    InvWithConditionals(st, st', avail, met, met', bound);
  }

  lemma {:induction false} WalkSoundStateful(e: Expr, unconditional: bool, st: AllocState, avail: set<int>,
                                             met: set<int>, bound: nat)
    requires e.Call? && IsStatefulOp(e.name) && Unallocated(e) && Inv(st, avail, met, bound) && Size(e) <= bound
    ensures var (e', st') := Walk(e, unconditional, st);
      WalkPost(e, unconditional, st, avail, met, bound, e', st')
    decreases e, 0
  {
    if TryAliasNodeId(st.seen, e) > 0 {
      WalkSoundAliased(e, unconditional, st, avail, met, bound);
    } else {
      WalkSoundFresh(e, unconditional, st, avail, met, bound);
    }
  }

  lemma AliasIsCached(e: Expr, st: AllocState, avail: set<int>, met: set<int>, bound: nat)
    requires e.Call? && IsStatefulOp(e.name) && Inv(st, avail, met, bound) && Size(e) <= bound
    requires TryAliasNodeId(st.seen, e) > 0
    ensures TryAliasNodeId(st.seen, e) in avail
    ensures Covered(UncondCalls(e), st.seen, avail)
    ensures Covered(UncondCallsArgs(e.args), st.seen, avail)
  {
    AliasFound(st.seen, e);
    var s :| s in st.seen && s.unconditional && CloneExpr(s.node) == CloneExpr(e) &&
      s.node.nodeId == TryAliasNodeId(st.seen, e);
    assert Size(s.node) == Size(CloneExpr(s.node));
    UncondCallsOfClone(s.node);
    UncondCallsOfClone(e);
    assert UncondCallsArgs(e.args) <= UncondCalls(e);
  }

  lemma {:induction false} WalkSoundAliased(e: Expr, unconditional: bool, st: AllocState, avail: set<int>,
                                            met: set<int>, bound: nat)
    requires e.Call? && IsStatefulOp(e.name) && Unallocated(e) && Inv(st, avail, met, bound) && Size(e) <= bound
    requires TryAliasNodeId(st.seen, e) > 0
    ensures var (e', st') := Walk(e, unconditional, st);
      WalkPost(e, unconditional, st, avail, met, bound, e', st')
    decreases e, -1
  {
    InvFacts(st, avail, met, bound);
    hide KindOf, Inv, PostState, Covered, Grown, NewConditional, Keys;
    AliasIsCached(e, st, avail, met, bound);
    AliasedPost(e, unconditional, st, avail, met, bound);
    var (args', st2) := WalkArgs(e.args, unconditional, st);
    var e' := Call(e.name, args', TryAliasNodeId(st.seen, e));
    assert Walk(e, unconditional, st) == (e', st2);
    assert AvailAfter(e', avail) == avail && SeenAfter(e', avail, met) == met;
  }

  lemma AliasedPost(e: Expr, unconditional: bool, st: AllocState, avail: set<int>, met: set<int>, bound: nat)
    requires e.Call? && Unallocated(e) && Inv(st, avail, met, bound)
    requires Covered(UncondCalls(e), st.seen, avail) && Covered(UncondCallsArgs(e.args), st.seen, avail)
    ensures var (args', st2) := WalkArgs(e.args, unconditional, st);
      && CloneArgs(args') == CloneArgs(e.args)
      && PostState(st, unconditional, UncondCalls(e), bound, st2, avail, met, avail, met)
  {
    hide KindOf, UncondCalls, UncondCallsArgs, WalkArgs, Keys, Covered;
    assert Ready(st);
    WalkCoveredArgs(e.args, unconditional, st, avail);
    var st2 := WalkArgs(e.args, unconditional, st).1;
    InvWithConditionals(st, st2, avail, met, met, bound);
    if unconditional { CoveredGrows(UncondCalls(e), st.seen, avail, st2.seen, avail); }
  }

  lemma EntryClone(e: Expr, id: int)
    requires e.Call?
    ensures var node := e.(nodeId := id);
      CloneExpr(node) == CloneExpr(e) && UncondCalls(node) == UncondCalls(e) && Size(node) == Size(e)
  {
    hide KindOf;
    var node := e.(nodeId := id);
    assert CloneExpr(node) == CloneExpr(e);
    assert Size(node) == Size(CloneExpr(node));
    UncondCallsOfClone(e);
    UncondCallsOfClone(node);
  }

  /** Entering a new call: its entry is pending while its arguments are walked. */
  lemma InvPushed(st: AllocState, avail: set<int>, met: set<int>, bound: nat, entry: SeenStateful, inner: nat)
    requires Inv(st, avail, met, bound) && inner < bound
    requires entry.node.Call? && entry.node.nodeId == st.nextId && Size(entry.node) > inner
    ensures Inv(AllocState(st.nextId + 1, st.seen + [entry]), avail, met, inner)
  {
    hide Covered, Size, UncondCalls;
    var st1 := AllocState(st.nextId + 1, st.seen + [entry]);
    forall s | s in st1.seen
      ensures s.node.Call? && 0 < s.node.nodeId < st1.nextId
      ensures s.unconditional ==> s.node.nodeId in avail || Size(s.node) > inner
      ensures s.unconditional && s.node.nodeId in avail ==> Covered(UncondCalls(s.node), st1.seen, avail)
    {
      if s in st.seen {
        if s.unconditional && s.node.nodeId in avail {
          CoveredGrows(UncondCalls(s.node), st.seen, avail, st1.seen, avail);
        }
      } else {
        assert s == entry;
      }
    }
  }

  /** Leaving a new call: its id becomes surely cached. */
  lemma PostPopped(e: Expr, unconditional: bool, st: AllocState, st2: AllocState, avail: set<int>, met: set<int>,
                   bound: nat, entry: SeenStateful, a2: set<int>, m2: set<int>)
    requires e.Call? && Inv(st, avail, met, bound) && Size(e) <= bound
    requires entry.node.Call? && entry.node.nodeId == st.nextId && entry.unconditional == unconditional
    requires CloneExpr(entry.node) == CloneExpr(e) && UncondCalls(entry.node) == UncondCalls(e)
    requires UncondCalls(e) <= UncondCallsArgs(e.args) + {CloneExpr(e)}
    requires PostState(AllocState(st.nextId + 1, st.seen + [entry]), unconditional, UncondCallsArgs(e.args),
                       Size(e) - 1,
                       st2, avail, met, a2, m2)
    ensures PostState(st, unconditional, UncondCalls(e), bound, st2, avail, met, a2 + {st.nextId}, m2 + {st.nextId})
  {
    hide KindOf, UncondCalls, UncondCallsArgs, CloneExpr, Size, Keys, Covered;
    var a3 := a2 + {st.nextId};
    EntriesPopped(st, st2, unconditional, bound, Size(e) - 1, avail, met, entry, a2, m2, UncondCallsArgs(e.args));
    if unconditional {
      CallsPopped(st2, entry, a2, st.nextId, UncondCalls(e), UncondCallsArgs(e.args));
    }
    ClosedPopped(st, st2, unconditional, bound, entry, a2);
    InvPopped(st, st2, unconditional, bound, a3, m2 + {st.nextId});
    forall i | |st.seen| <= i < |st2.seen|
      ensures st2.seen[i].node.Call? && st.nextId <= st2.seen[i].node.nodeId < st2.nextId
      ensures st2.seen[i].unconditional ==> st2.seen[i].node.nodeId in a3
      ensures !unconditional ==> !st2.seen[i].unconditional
    {
      assert EntryPopped(st, unconditional, bound, st2, a3, i);
    }
  }

  lemma EntriesPopped(st: AllocState, st2: AllocState, unconditional: bool, bound: nat, inner: nat, avail: set<int>,
                      met: set<int>, entry: SeenStateful, a2: set<int>, m2: set<int>, calls: set<Expr>)
    requires Inv(st, avail, met, bound)
    requires entry.node.Call? && entry.node.nodeId == st.nextId && entry.unconditional == unconditional
    requires PostState(AllocState(st.nextId + 1, st.seen + [entry]), unconditional, calls, inner, st2, avail, met, a2,
                       m2)
    ensures st.seen <= st2.seen && |st.seen| < |st2.seen| && st2.seen[|st.seen|] == entry
    ensures forall i | 0 <= i < |st2.seen| :: EntryPopped(st, unconditional, bound, st2, a2 + {st.nextId}, i)
  {
    assert st2.seen[|st.seen|] == (st.seen + [entry])[|st.seen|] == entry;
    forall i | 0 <= i < |st2.seen|
      ensures EntryPopped(st, unconditional, bound, st2, a2 + {st.nextId}, i)
    {
      if i < |st.seen| {
        assert st2.seen[i] == (st.seen + [entry])[i] == st.seen[i];
        assert st.seen[i] in st.seen;
      }
    }
  }

  lemma CallsPopped(st2: AllocState, entry: SeenStateful, a2: set<int>, id: int, calls: set<Expr>, argCalls: set<Expr>)
    requires entry in st2.seen && entry.unconditional && entry.node.Call? && entry.node.nodeId == id
    requires Covered(argCalls, st2.seen, a2) && calls <= argCalls + {CloneExpr(entry.node)}
    ensures Covered(calls, st2.seen, a2 + {id})
  {
    CoveredGrows(argCalls, st2.seen, a2, st2.seen, a2 + {id});
    assert CloneExpr(entry.node) in Keys(st2.seen, a2 + {id});
  }

  ghost predicate EntryPopped(st: AllocState, unconditional: bool, bound: nat, st2: AllocState, a3: set<int>, i: nat)
    requires i < |st2.seen|
  {
    var s := st2.seen[i];
    && s.node.Call? && 0 < s.node.nodeId < st2.nextId
    && (s.unconditional ==> s.node.nodeId in a3 || Size(s.node) > bound)
    && (i >= |st.seen| ==> st.nextId <= s.node.nodeId)
    && (i >= |st.seen| && s.unconditional ==> s.node.nodeId in a3)
    && (s.node.nodeId == st.nextId ==> i == |st.seen|)
    && (!unconditional && i >= |st.seen| ==> !s.unconditional)
  }

  lemma ClosedPopped(st: AllocState, st2: AllocState, unconditional: bool, bound: nat, entry: SeenStateful,
                     a2: set<int>)
    requires |st.seen| < |st2.seen| && st2.seen[|st.seen|] == entry
    requires forall i | 0 <= i < |st2.seen| :: EntryPopped(st, unconditional, bound, st2, a2 + {st.nextId}, i)
    requires forall s <- st2.seen | s.unconditional && s.node.Call? &&
             s.node.nodeId in a2 :: Covered(UncondCalls(s.node), st2.seen, a2)
    requires entry.unconditional ==> Covered(UncondCalls(entry.node), st2.seen, a2 + {st.nextId})
    ensures forall s <- st2.seen | s.unconditional && s.node.Call? && s.node.nodeId in a2 + {st.nextId} ::
              Covered(UncondCalls(s.node), st2.seen, a2 + {st.nextId})
  {
    forall s | s in st2.seen && s.unconditional && s.node.Call? && s.node.nodeId in a2 + {st.nextId}
      ensures Covered(UncondCalls(s.node), st2.seen, a2 + {st.nextId})
    {
      var i :| 0 <= i < |st2.seen| && st2.seen[i] == s;
      assert EntryPopped(st, unconditional, bound, st2, a2 + {st.nextId}, i);
      if s.node.nodeId in a2 {
        CoveredGrows(UncondCalls(s.node), st2.seen, a2, st2.seen, a2 + {st.nextId});
      } else {
        assert i == |st.seen| && s == entry;
      }
    }
  }

  lemma InvPopped(st: AllocState, st2: AllocState, unconditional: bool, bound: nat, a3: set<int>, m3: set<int>)
    requires st2.nextId > 0 && a3 <= m3 && forall i <- m3 :: 0 < i < st2.nextId
    requires forall i | 0 <= i < |st2.seen| :: EntryPopped(st, unconditional, bound, st2, a3, i)
    requires forall s <- st2.seen | s.unconditional && s.node.Call? &&
             s.node.nodeId in a3 :: Covered(UncondCalls(s.node), st2.seen, a3)
    ensures Inv(st2, a3, m3, bound)
  {
    forall s | s in st2.seen
      ensures s.node.Call? && 0 < s.node.nodeId < st2.nextId
      ensures s.unconditional ==> s.node.nodeId in a3 || Size(s.node) > bound
    {
      var i :| 0 <= i < |st2.seen| && st2.seen[i] == s;
      assert EntryPopped(st, unconditional, bound, st2, a3, i);
    }
  }

  lemma FreshShared(e: Expr, avail: set<int>, met: set<int>)
    requires e.Call? && IsStatefulOp(e.name) && e.nodeId !in avail
    ensures AvailAfter(e, avail) == AvailAfterArgs(e.args, avail) + {e.nodeId}
    ensures SeenAfter(e, avail, met) == SeenAfterArgs(e.args, avail, met) + {e.nodeId}
    ensures SoundlyShared(e, avail, met) <==>
            SoundlySharedArgs(e.args, avail, met) && e.nodeId !in SeenAfterArgs(e.args, avail, met)
  {
  }

  lemma FreshWalk(e: Expr, unconditional: bool, st: AllocState)
    requires Calls(st) && e.Call? && e.nodeId < 0 && IsStatefulOp(e.name) && TryAliasNodeId(st.seen, e) <= 0
    ensures var id := st.nextId;
      var st1 := AllocState(id + 1, st.seen + [SeenStateful(e.(nodeId := id), unconditional)]);
      var (args', st2) := WalkArgs(e.args, unconditional, st1);
      Walk(e, unconditional, st) == (Call(e.name, args', id), st2)
    ensures UncondCalls(e) <= UncondCallsArgs(e.args) + {CloneExpr(e)}
  {
    hide KindOf, TryAliasNodeId;
  }

  lemma SameClones(e: Expr, args': seq<Expr>, id: int)
    requires e.Call? && CloneArgs(args') == CloneArgs(e.args)
    ensures CloneExpr(Call(e.name, args', id)) == CloneExpr(e)
  {
  }

  lemma {:induction false} WalkSoundFresh(e: Expr, unconditional: bool, st: AllocState, avail: set<int>, met: set<int>,
                                          bound: nat)
    requires e.Call? && IsStatefulOp(e.name) && Unallocated(e) && Inv(st, avail, met, bound) && Size(e) <= bound
    requires TryAliasNodeId(st.seen, e) <= 0
    ensures var (e', st') := Walk(e, unconditional, st);
      WalkPost(e, unconditional, st, avail, met, bound, e', st')
    decreases e, -1
  {
    InvFacts(st, avail, met, bound);
    FreshWalk(e, unconditional, st);
    hide KindOf, Inv, PostState, Covered, Grown, NewConditional, Keys, CloneExpr, Walk, TryAliasNodeId, UncondCalls,
      SoundlyShared, AvailAfter, SeenAfter;
    var id := st.nextId;
    var entry := SeenStateful(e.(nodeId := id), unconditional);
    var st1 := AllocState(id + 1, st.seen + [entry]);
    EntryClone(e, id);
    InvPushed(st, avail, met, bound, entry, Size(e) - 1);
    WalkSoundArgs(e.args, unconditional, st1, avail, met, Size(e) - 1);
    var (args', st2) := WalkArgs(e.args, unconditional, st1);
    PostStateInv(st1, unconditional, UncondCallsArgs(e.args), Size(e) - 1, st2, avail, met,
                 AvailAfterArgs(args', avail), SeenAfterArgs(args', avail, met));
    var e' := Call(e.name, args', id);
    SameClones(e, args', id);
    var a2, m2 := AvailAfterArgs(args', avail), SeenAfterArgs(args', avail, met);
    PostPopped(e, unconditional, st, st2, avail, met, bound, entry, a2, m2);
    FreshShared(e', avail, met);
  }
}

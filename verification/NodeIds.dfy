/** Allocation of state slots: structurally equal stateful calls of one body share the id of their
    first occurrence when that occurrence is unconditional. */
module NodeIds {
  import opened Ast
  import opened Sharing

  datatype SeenStateful = SeenStateful(node: Expr, unconditional: bool)

  datatype AllocState = AllocState(nextId: int, seen: seq<SeenStateful>)

  /** The id of the first unconditional entry equal to `candidate`, or 0. */
  function TryAliasNodeId(seen: seq<SeenStateful>, candidate: Expr): int
    requires forall s <- seen :: s.node.Call?
  {
    if seen == [] then 0
    else if seen[0].unconditional && AstEquals(seen[0].node, candidate) then seen[0].node.nodeId
    else TryAliasNodeId(seen[1..], candidate)
  }

  ghost predicate Calls(st: AllocState) {
    forall s <- st.seen :: s.node.Call?
  }

  /** The id a call receives, and the state after it; a call that has an id keeps it. */
  function Assign(call: Expr, unconditional: bool, st: AllocState): (r: (int, AllocState))
    requires call.Call? && Calls(st)
    ensures Calls(r.1)
  {
    if !IsStatefulOp(call.name) || call.nodeId >= 0 then (call.nodeId, st)
    else
      var aliased := TryAliasNodeId(st.seen, call);
      if aliased > 0 then (aliased, st)
      else (st.nextId, AllocState(st.nextId + 1, st.seen + [SeenStateful(call.(nodeId := st.nextId), unconditional)]))
  }

  /** The walk of one expression: the tree with its ids, and the state it leaves. */
  function Walk(e: Expr, unconditional: bool, st: AllocState): (r: (Expr, AllocState))
    requires Calls(st)
    ensures Calls(r.1)
    decreases e, 1
  {
    match e
    case Unary(op, x) =>
      var (x', st1) := Walk(x, unconditional, st);
      (Unary(op, x'), st1)
    case Binary(op, l, r) =>
      var (l', st1) := Walk(l, unconditional, st);
      var (r', st2) := Walk(r, unconditional, st1);
      (Binary(op, l', r'), st2)
    case Cond(c, t, f) =>
      var (c', st1) := Walk(c, unconditional, st);
      var (t', st2) := Walk(t, false, st1);
      var (f', st3) := Walk(f, false, st2);
      (Cond(c', t', f'), st3)
    case Call(n, args, _) =>
      var (id, st1) := Assign(e, unconditional, st);
      var (args', st2) := WalkArgs(args, unconditional, st1);
      (Call(n, args', id), st2)
    case _ => (e, st)
  }

  function WalkArgs(args: seq<Expr>, unconditional: bool, st: AllocState): (r: (seq<Expr>, AllocState))
    requires Calls(st)
    ensures |r.0| == |args| && Calls(r.1)
    decreases args, 0
  {
    if args == [] then ([], st)
    else
      var (a, st1) := Walk(args[0], unconditional, st);
      var (rest, st2) := WalkArgs(args[1..], unconditional, st1);
      ([a] + rest, st2)
  }

  /** The whole program: the list of seen calls restarts with every signal, the ids do not. */
  function AllocateProgram(bodies: seq<Expr>, nextId: int): (r: (seq<Expr>, int))
    ensures |r.0| == |bodies|
  {
    if bodies == [] then ([], nextId)
    else
      var (body, st) := Walk(bodies[0], true, AllocState(nextId, []));
      var (rest, n) := AllocateProgram(bodies[1..], st.nextId);
      ([body] + rest, n)
  }

  /** The allocator in its own form: one counter and one list, updated as the walk goes. */
  class NodeIdAllocator {
    var nextId: int
    var seen: seq<SeenStateful>

    ghost function State(): AllocState
      reads this
    {
      AllocState(nextId, seen)
    }

    constructor ()
      ensures nextId == 1 && seen == []
    {
      nextId := 1;
      seen := [];
    }

    method Search(candidate: Expr) returns (id: int)
      requires candidate.Call? && Calls(State())
      ensures id == TryAliasNodeId(seen, candidate)
    {
      for i := 0 to |seen|
        invariant TryAliasNodeId(seen, candidate) == TryAliasNodeId(seen[i..], candidate)
      {
        if seen[i].unconditional && seen[i].node.name == candidate.name &&
           |seen[i].node.args| == |candidate.args| && AstEquals(seen[i].node, candidate)
        {
          return seen[i].node.nodeId;
        }
      }
      id := 0;
    }

    method WalkExpr(e: Expr, unconditional: bool) returns (r: Expr)
      requires Calls(State())
      modifies this
      ensures (r, State()) == Walk(e, unconditional, old(State()))
      decreases e, 1
    {
      match e
      case Unary(op, x) =>
        var x' := WalkExpr(x, unconditional);
        r := Unary(op, x');
      case Binary(op, l, rt) =>
        var l' := WalkExpr(l, unconditional);
        var r' := WalkExpr(rt, unconditional);
        r := Binary(op, l', r');
      case Cond(c, t, f) =>
        var c' := WalkExpr(c, unconditional);
        var t' := WalkExpr(t, false);
        var f' := WalkExpr(f, false);
        r := Cond(c', t', f');
      case Call(n, args, id) =>
        var newId := id;
        if IsStatefulOp(n) && id < 0 {
          var aliased := Search(e);
          if aliased > 0 {
            newId := aliased;
          } else {
            newId := nextId;
            nextId := nextId + 1;
            seen := seen + [SeenStateful(e.(nodeId := newId), unconditional)];
          }
        }
        var args' := WalkEach(args, unconditional);
        r := Call(n, args', newId);
      case _ => r := e;
    }

    method WalkEach(args: seq<Expr>, unconditional: bool) returns (r: seq<Expr>)
      requires Calls(State())
      modifies this
      ensures (r, State()) == WalkArgs(args, unconditional, old(State()))
      decreases args, 0
    {
      if args == [] {
        r := [];
      } else {
        var a := WalkExpr(args[0], unconditional);
        var rest := WalkEach(args[1..], unconditional);
        r := [a] + rest;
      }
    }

    method AllocateProgramNodeIds(bodies: seq<Expr>) returns (r: seq<Expr>)
      modifies this
      ensures (r, nextId) == AllocateProgram(bodies, old(nextId))
    {
      r := [];
      assert bodies[0..] == bodies;
      ghost var whole := AllocateProgram(bodies, nextId);
      for i := 0 to |bodies|
        invariant whole.0 == r + AllocateProgram(bodies[i..], nextId).0
        invariant whole.1 == AllocateProgram(bodies[i..], nextId).1
      {
        seen := [];
        var body := WalkExpr(bodies[i], true);
        assert bodies[i..][1..] == bodies[i + 1..];
        r := r + [body];
      }
      assert bodies[|bodies|..] == [] && r + [] == r;
    }
  }
}

/** When node ids are shared soundly inside one body.

    `avail` are the ids surely evaluated before a point (their value is cached on every path that
    reaches it), `seen` the ids that may have been evaluated on some path.  Arguments are taken from left to
    right, as the allocator walks and the emitter emits. */
module Sharing {
  import opened Ast

  /** Ids surely evaluated once `e` has been: a branch contributes nothing, a hit adds nothing. */
  function AvailAfter(e: Expr, avail: set<int>): (r: set<int>)
    ensures avail <= r
    decreases e, 1
  {
    match e
    case Unary(_, x) => AvailAfter(x, avail)
    case Binary(_, l, r) => AvailAfter(r, AvailAfter(l, avail))
    case Cond(c, _, _) => AvailAfter(c, avail)
    case Call(n, args, id) =>
      if !IsStatefulOp(n) then AvailAfterArgs(args, avail)
      else if id in avail then avail
      else AvailAfterArgs(args, avail) + {id}
    case _ => avail
  }

  function AvailAfterArgs(args: seq<Expr>, avail: set<int>): (r: set<int>)
    ensures avail <= r
    decreases args, 0
  {
    if args == [] then avail else AvailAfterArgs(args[1..], AvailAfter(args[0], avail))
  }

  /** Ids possibly evaluated once `e` has been, walking both branches in order. */
  function SeenAfter(e: Expr, avail: set<int>, seen: set<int>): (r: set<int>)
    ensures seen <= r
    decreases e, 1
  {
    match e
    case Unary(_, x) => SeenAfter(x, avail, seen)
    case Binary(_, l, r) => SeenAfter(r, AvailAfter(l, avail), SeenAfter(l, avail, seen))
    case Cond(c, t, f) =>
      var a := AvailAfter(c, avail);
      SeenAfter(f, a, SeenAfter(t, a, SeenAfter(c, avail, seen)))
    case Call(n, args, id) =>
      if !IsStatefulOp(n) then SeenAfterArgs(args, avail, seen)
      else if id in avail then seen
      else SeenAfterArgs(args, avail, seen) + {id}
    case _ => seen
  }

  function SeenAfterArgs(args: seq<Expr>, avail: set<int>, seen: set<int>): (r: set<int>)
    ensures seen <= r
    decreases args, 0
  {
    if args == [] then seen
    else SeenAfterArgs(args[1..], AvailAfter(args[0], avail), SeenAfter(args[0], avail, seen))
  }

  /** Every stateful call met from left to right is either surely cached already or surely new. */
  predicate SoundlyShared(e: Expr, avail: set<int>, seen: set<int>)
    decreases e, 1
  {
    match e
    case Unary(_, x) => SoundlyShared(x, avail, seen)
    case Binary(_, l, r) =>
      SoundlyShared(l, avail, seen) && SoundlyShared(r, AvailAfter(l, avail), SeenAfter(l, avail, seen))
    case Cond(c, t, f) =>
      var a, s := AvailAfter(c, avail), SeenAfter(c, avail, seen);
      SoundlyShared(c, avail, seen) && SoundlyShared(t, a, s) && SoundlyShared(f, a, SeenAfter(t, a, s))
    case Call(n, args, id) =>
      if !IsStatefulOp(n) then SoundlySharedArgs(args, avail, seen)
      else id in avail || (SoundlySharedArgs(args, avail, seen) && id !in SeenAfterArgs(args, avail, seen))
    case _ => true
  }

  predicate SoundlySharedArgs(args: seq<Expr>, avail: set<int>, seen: set<int>)
    decreases args, 0
  {
    args == [] ||
    (SoundlyShared(args[0], avail, seen) &&
     SoundlySharedArgs(args[1..], AvailAfter(args[0], avail), SeenAfter(args[0], avail, seen)))
  }
}

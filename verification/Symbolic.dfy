/** Symbolic evaluation.  Operators build terms instead of computing, and a condition is looked up in a table of
    outcomes; evaluation stops at the first condition the table does not list.  A run that does not stop stands
    for every evaluation, under any operators, in which the conditions come out as listed. */
module Symbolic {
  import opened Ast
  import opened Evaluation

  type CallExpr = c: Expr | c.Call? witness Call("", [], NO_NODE)

  datatype SymTerm =
    | Literal(bits: Bits64)
    | Parameter(id: int)
    | Negated(operand: SymTerm)
    | Applied(op: BinaryOpKind, left: SymTerm, right: SymTerm)
    | Quoted(fn: string, ticker: string)
    | Mapped(fn: string, arg: SymTerm)
    | Out(call: CallExpr, inputs: seq<SymTerm>, before: Machine)

  /** The state of a slot: where the evaluation found it, or after a step. */
  datatype Machine = Start(id: int) | After(call: CallExpr, inputs: seq<SymTerm>, before: Machine)

  /** `slots` lists the slots stepped so far; `asked` counts the conditions met. */
  datatype SymState = SymState(slots: map<int, Machine>, cache: map<int, SymTerm>, asked: nat)

  datatype Traced<T> = Reached(value: T, st: SymState) | Stopped(cond: SymTerm, asked: nat) {

    predicate IsFailure() {
      Stopped?
    }

    function PropagateFailure<U>(): Traced<U>
      requires Stopped?
    {
      Stopped(cond, asked)
    }

    function Extract(): (T, SymState)
      requires Reached?
    {
      (value, st)
    }

    /** Between `from` and `from + size` conditions met, and it stopped only at one that is not listed. */
    predicate Fits(known: map<SymTerm, bool>, from: nat, size: nat) {
      if Reached? then from <= st.asked <= from + size else from <= asked <= from + size && cond !in known
    }
  }

  function MarketTerm(n: string, args: seq<Expr>): seq<SymTerm> {
    if IsTickerFn(n) && |args| > 0 && args[0].Ident? then [Quoted(n, args[0].name)] else []
  }

  function FireTerm(call: Expr, vs: seq<SymTerm>, st: SymState): Traced<SymTerm>
    requires call.Call?
  {
    var id, clone := call.nodeId, CloneExpr(call);
    var before := if id in st.slots then st.slots[id] else Start(id);
    var out := Out(clone, vs, before);
    Reached(out, SymState(st.slots[id := After(clone, vs, before)], st.cache[id := out], st.asked))
  }

  function Trace(known: map<SymTerm, bool>, noiseFirst: bool, e: Expr, st: SymState): (r: Traced<SymTerm>)
    requires Runnable(e)
    ensures r.Fits(known, st.asked, Size(e))
    decreases Size(e), 1
  {
    match e
    case Num(b) => Reached(Literal(b), st)
    case Param(_, id) => Reached(Parameter(id), st)
    case Unary(op, x) =>
      var (v, st1) :- Trace(known, noiseFirst, x, st);
      Reached(if op == Plus then v else Negated(v), st1)
    case Binary(op, l, r) =>
      var (lv, st1) :- Trace(known, noiseFirst, l, st);
      var (rv, st2) :- Trace(known, noiseFirst, r, st1);
      Reached(Applied(op, lv, rv), st2)
    case Cond(_, _, _) => TraceCond(known, noiseFirst, e, st)
    case Call(_, _, _) => TraceCall(known, noiseFirst, e, st)
  }

  function TraceCond(known: map<SymTerm, bool>, noiseFirst: bool, e: Expr, st: SymState): (r: Traced<SymTerm>)
    requires Runnable(e) && e.Cond?
    ensures r.Fits(known, st.asked, Size(e))
    decreases Size(e), 0
  {
    var (cv, st1) :- Trace(known, noiseFirst, e.cond, st);
    if cv !in known then Stopped(cv, st1.asked)
    else Trace(known, noiseFirst, if known[cv] then e.thn else e.els, st1.(asked := st1.asked + 1))
  }

  function TraceCall(known: map<SymTerm, bool>, noiseFirst: bool, e: Expr, st: SymState): (r: Traced<SymTerm>)
    requires Runnable(e) && e.Call?
    ensures r.Fits(known, st.asked, Size(e))
    decreases Size(e), 0
  {
    var n, args, id := e.name, e.args, e.nodeId;
    if id > 0 && id in st.cache then Reached(st.cache[id], st)
    else if IsMarketFn(n) then Reached(MarketTerm(n, args)[0], st)
    else if IsMathFn(n) then
      SingleArg(args);
      var (v, st1) :- Trace(known, noiseFirst, args[0], st);
      Reached(Mapped(n, v), st1)
    else
      OrderRunnable(noiseFirst, e);
      var (vs, st1) :- TraceArgs(known, noiseFirst, ArgOrder(noiseFirst, n, args), st);
      FireTerm(e, MarketTerm(n, args) + SourceOrder(noiseFirst, n, vs), st1)
  }

  function TraceArgs(known: map<SymTerm, bool>, noiseFirst: bool, args: seq<Expr>, st: SymState)
      : (r: Traced<seq<SymTerm>>)
    requires RunnableArgs(args)
    ensures r.Fits(known, st.asked, SizeArgs(args))
    ensures r.Reached? ==> |r.value| == |args|
    decreases SizeArgs(args), 2, |args|
  {
    if args == [] then Reached([], st)
    else
      var (v, st1) :- Trace(known, noiseFirst, args[0], st);
      var (vs, st2) :- TraceArgs(known, noiseFirst, args[1..], st1);
      Reached([v] + vs, st2)
  }

  /** Every signal in order, the cache cleared between them. */
  function TraceProgram(known: map<SymTerm, bool>, noiseFirst: bool, bodies: seq<Expr>, st: SymState)
      : (r: Traced<seq<SymTerm>>)
    requires RunnableArgs(bodies)
    ensures r.Fits(known, st.asked, SizeArgs(bodies))
    ensures r.Reached? ==> |r.value| == |bodies|
  {
    if bodies == [] then Reached([], st)
    else
      var (v, st1) :- Trace(known, noiseFirst, bodies[0], st.(cache := map[]));
      var (vs, st2) :- TraceProgram(known, noiseFirst, bodies[1..], st1);
      Reached([v] + vs, st2)
  }

  const NOTHING := SymState(map[], map[], 0)

  // ---- One more outcome listed, and the run gets further ----

  /** `b` is the run `a` with the outcome of `t` listed. */
  ghost predicate Further<T(!new)>(a: Traced<T>, b: Traced<T>, t: SymTerm) {
    if a.Stopped? && a.cond == t then (if b.Reached? then b.st.asked else b.asked) > a.asked else b == a
  }

  lemma {:induction false} TraceFurther(known: map<SymTerm, bool>, t: SymTerm, b: bool, noiseFirst: bool, e: Expr,
                                        st: SymState)
    requires Runnable(e) && t !in known
    ensures Further(Trace(known, noiseFirst, e, st), Trace(known[t := b], noiseFirst, e, st), t)
    decreases Size(e), 1
  {
    hide KindOf, TraceCall, TraceCond;
    match e
    case Unary(_, x) => TraceFurther(known, t, b, noiseFirst, x, st);
    case Binary(_, l, r) =>
      TraceFurther(known, t, b, noiseFirst, l, st);
      var left := Trace(known, noiseFirst, l, st);
      if left.Reached? { TraceFurther(known, t, b, noiseFirst, r, left.st); }
    case Cond(_, _, _) => TraceCondFurther(known, t, b, noiseFirst, e, st);
    case Call(_, _, _) => TraceCallFurther(known, t, b, noiseFirst, e, st);
    case _ => {}
  }

  lemma {:induction false} TraceCondFurther(known: map<SymTerm, bool>, t: SymTerm, b: bool, noiseFirst: bool, e: Expr,
                                            st: SymState)
    requires Runnable(e) && t !in known && e.Cond?
    ensures Further(TraceCond(known, noiseFirst, e, st), TraceCond(known[t := b], noiseFirst, e, st), t)
    decreases Size(e), 0
  {
    TraceFurther(known, t, b, noiseFirst, e.cond, st);
    var p := Trace(known, noiseFirst, e.cond, st);
    if p.Reached? && p.value in known {
      TraceFurther(known, t, b, noiseFirst, if known[p.value] then e.thn else e.els, p.st.(asked := p.st.asked + 1));
    }
  }

  lemma {:induction false} TraceCallFurther(known: map<SymTerm, bool>, t: SymTerm, b: bool, noiseFirst: bool, e: Expr,
                                            st: SymState)
    requires Runnable(e) && t !in known && e.Call?
    ensures Further(TraceCall(known, noiseFirst, e, st), TraceCall(known[t := b], noiseFirst, e, st), t)
    decreases Size(e), 0
  {
    hide KindOf;
    if e.nodeId > 0 && e.nodeId in st.cache {
    } else if IsMathFn(e.name) {
      SingleArg(e.args);
      TraceFurther(known, t, b, noiseFirst, e.args[0], st);
    } else if !IsMarketFn(e.name) {
      OrderRunnable(noiseFirst, e);
      TraceArgsFurther(known, t, b, noiseFirst, ArgOrder(noiseFirst, e.name, e.args), st);
    }
  }

  lemma {:induction false} TraceArgsFurther(known: map<SymTerm, bool>, t: SymTerm, b: bool, noiseFirst: bool,
                                            args: seq<Expr>, st: SymState)
    requires RunnableArgs(args) && t !in known
    ensures Further(TraceArgs(known, noiseFirst, args, st), TraceArgs(known[t := b], noiseFirst, args, st), t)
    decreases SizeArgs(args), 2, |args|
  {
    if args != [] {
      TraceFurther(known, t, b, noiseFirst, args[0], st);
      var first := Trace(known, noiseFirst, args[0], st);
      if first.Reached? { TraceArgsFurther(known, t, b, noiseFirst, args[1..], first.st); }
    }
  }

  lemma {:induction false} ProgramFurther(known: map<SymTerm, bool>, t: SymTerm, b: bool, noiseFirst: bool,
                                          bodies: seq<Expr>, st: SymState)
    requires RunnableArgs(bodies) && t !in known
    ensures Further(TraceProgram(known, noiseFirst, bodies, st), TraceProgram(known[t := b], noiseFirst, bodies, st), t)
  {
    if bodies != [] {
      TraceFurther(known, t, b, noiseFirst, bodies[0], st.(cache := map[]));
      var first := Trace(known, noiseFirst, bodies[0], st.(cache := map[]));
      if first.Reached? { ProgramFurther(known, t, b, noiseFirst, bodies[1..], first.st); }
    }
  }

  /** How far a run got: a complete one is further than any that stopped. */
  function Progress(known: map<SymTerm, bool>, noiseFirst: bool, bodies: seq<Expr>): (n: nat)
    requires RunnableArgs(bodies)
    ensures n <= SizeArgs(bodies) + 1
  {
    var r := TraceProgram(known, noiseFirst, bodies, NOTHING);
    if r.Reached? then SizeArgs(bodies) + 1 else r.asked
  }

  predicate BothReached(known: map<SymTerm, bool>, bodies: seq<Expr>)
    requires RunnableArgs(bodies)
  {
    TraceProgram(known, false, bodies, NOTHING).Reached? && TraceProgram(known, true, bodies, NOTHING).Reached?
  }

  /** A condition that has to be listed before both runs are complete. */
  function Unlisted(known: map<SymTerm, bool>, bodies: seq<Expr>): (t: SymTerm)
    requires RunnableArgs(bodies) && !BothReached(known, bodies)
    ensures t !in known
  {
    var a := TraceProgram(known, false, bodies, NOTHING);
    if a.Stopped? then a.cond else TraceProgram(known, true, bodies, NOTHING).cond
  }

  /** How far both runs still are from the end. */
  function Distance(known: map<SymTerm, bool>, bodies: seq<Expr>): nat
    requires RunnableArgs(bodies)
  {
    2 * (SizeArgs(bodies) + 1) - Progress(known, false, bodies) - Progress(known, true, bodies)
  }

  lemma Closer(known: map<SymTerm, bool>, b: bool, bodies: seq<Expr>)
    requires RunnableArgs(bodies) && !BothReached(known, bodies)
    ensures Distance(known[Unlisted(known, bodies) := b], bodies) < Distance(known, bodies)
  {
    var t := Unlisted(known, bodies);
    hide TraceProgram;
    ProgramFurther(known, t, b, false, bodies, NOTHING);
    ProgramFurther(known, t, b, true, bodies, NOTHING);
  }

  /** However the conditions not listed come out, both orders end in the same terms: the same outputs and the
      same states of the slots. */
  function AlikeFrom(known: map<SymTerm, bool>, bodies: seq<Expr>): bool
    requires RunnableArgs(bodies)
    decreases Distance(known, bodies)
  {
    if BothReached(known, bodies) then
      var a, b := TraceProgram(known, false, bodies, NOTHING), TraceProgram(known, true, bodies, NOTHING);
      a.value == b.value && a.st.slots == b.st.slots
    else
      var t := Unlisted(known, bodies);
      Closer(known, true, bodies);
      Closer(known, false, bodies);
      AlikeFrom(known[t := true], bodies) && AlikeFrom(known[t := false], bodies)
  }

  /** The order of kalman1d's arguments does not matter to the program: decided by running it symbolically,
      both ways, once for each way its conditions can come out. */
  predicate OrderIrrelevant(bodies: seq<Expr>)
    requires RunnableArgs(bodies)
  {
    AlikeFrom(map[], bodies)
  }
}

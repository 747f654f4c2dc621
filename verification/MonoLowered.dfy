/** The inline rolling minimum: the basic blocks the code generator emits do what the runtime's update does,
    and the gradient ring beside it is read where the extremum's own sample was written. */
module MonoLowered {
  import opened Options
  import opened Remainders
  import opened Windows
  import opened MonoDeque

  /** The blocks, with the count loaded in a header that its check block still uses. */
  datatype Pc = PopBackHdr | PopBackChk(count: nat) | PopBackBody | PushBlock
    | PopFrontHdr | PopFrontChk | PopFrontBody | DoneBlock

  /** A block goes to another or returns its result, `None` for NaN. */
  datatype Next<V> = Goto(pc: Pc, m: Mono<V>) | Returned(out: Option<V>, m: Mono<V>)

  predicate Enterable<V>(pc: Pc, m: Mono<V>) {
    && WellShaped(m)
    && (pc.PopBackChk? ==> 0 < pc.count)
    && (pc.PushBlock? ==> m.count < m.cap)
    && (pc.PopBackBody? || pc.PopFrontBody? ==> m.count > 0)
  }

  function RunBlock<V>(le: (V, V) -> bool, period: nat, x: V, pc: Pc, m: Mono<V>): Next<V>
    requires Enterable(pc, m)
  {
    match pc
    case PopBackHdr => Goto(if m.count > 0 then PopBackChk(m.count) else PushBlock, m)
    case PopBackChk(c) =>
      var tail := (m.head + c - 1) % m.cap;
      Goto(if le(x, m.buf[tail].value) then PopBackBody else PushBlock, m)
    case PopBackBody => Goto(PopBackHdr, m.(count := m.count - 1))
    case PushBlock =>
      var write := (m.head + m.count) % m.cap;
      Goto(PopFrontHdr, m.(buf := m.buf[write := Entry(m.idx, x)], count := m.count + 1))
    case PopFrontHdr => Goto(if m.count > 0 then PopFrontChk else DoneBlock, m)
    case PopFrontChk =>
      var age := m.idx + 1 - m.buf[m.head].tick;
      Goto(if age > period then PopFrontBody else DoneBlock, m)
    case PopFrontBody => Goto(PopFrontHdr, m.(head := (m.head + 1) % m.cap, count := m.count - 1))
    case DoneBlock =>
      var m' := m.(idx := m.idx + 1);
      Returned(if m'.idx >= period then Some(m.buf[m.head].value) else None, m')
  }

  /** Run `n` blocks; a block that may not be entered ends the run where it stands. */
  function RunBlocks<V>(le: (V, V) -> bool, period: nat, x: V, n: nat, pc: Pc, m: Mono<V>): Next<V>
    decreases n
  {
    if n == 0 || !Enterable(pc, m) then Goto(pc, m)
    else
      match RunBlock(le, period, x, pc, m)
      case Goto(pc', m') => RunBlocks(le, period, x, n - 1, pc', m')
      case Returned(out, m') => Returned(out, m')
  }

  lemma {:induction false} RunBlocksCompose<V>(le: (V, V) -> bool, period: nat, x: V, a: nat, b: nat, pc: Pc,
                                               m: Mono<V>, pc1: Pc, m1: Mono<V>)
    requires RunBlocks(le, period, x, a, pc, m) == Goto(pc1, m1) && (a > 0 ==> Enterable(pc1, m1))
    ensures RunBlocks(le, period, x, a + b, pc, m) == RunBlocks(le, period, x, b, pc1, m1)
    decreases a
  {
    hide RunBlock, Enterable;
    if a > 0 && Enterable(pc, m) {
      var next := RunBlock(le, period, x, pc, m);
      RunBlocksCompose(le, period, x, a - 1, b, next.pc, next.m, pc1, m1);
    }
  }

  /** The first loop. */
  lemma {:induction false} PopBackBlocks<V>(le: (V, V) -> bool, period: nat, x: V, m: Mono<V>) returns (n: nat)
    requires WellShaped(m) && m.count < m.cap
    ensures n > 0 && RunBlocks(le, period, x, n, PopBackHdr, m) == Goto(PushBlock, PopBackLoop(le, m, x))
    ensures n <= 3 * m.count + 2
    decreases m.count
  {
    if m.count == 0 {
      n := 1;
      assert RunBlocks(le, period, x, 0, PushBlock, m) == Goto(PushBlock, m);
    } else if le(x, m.buf[TailIndex(m)].value) {
      var m1 := m.(count := m.count - 1);
      var rest := PopBackBlocks(le, period, x, m1);
      n := rest + 3;
      assert RunBlocks(le, period, x, rest + 1, PopBackBody, m) == RunBlocks(le, period, x, rest, PopBackHdr, m1);
      assert RunBlocks(le, period, x, rest + 2, PopBackChk(m.count), m) ==
             RunBlocks(le, period, x, rest + 1, PopBackBody, m);
    } else {
      n := 2;
      assert RunBlocks(le, period, x, 0, PushBlock, m) == Goto(PushBlock, m);
      assert RunBlocks(le, period, x, 1, PopBackChk(m.count), m) == Goto(PushBlock, m);
    }
  }

  /** The second loop and the return. */
  lemma {:induction false} PopFrontBlocks<V>(le: (V, V) -> bool, period: nat, x: V, m: Mono<V>) returns (n: nat)
    requires WellShaped(m) && m.cap == period + 1
    ensures var r := PopFrontLoop(m);
      RunBlocks(le, period, x, n, PopFrontHdr, m) ==
        Returned(if m.idx + 1 >= period then Some(r.buf[r.head].value) else None, r.(idx := r.idx + 1))
    ensures n <= 3 * m.count + 3
    decreases m.count
  {
    if m.count == 0 {
      n := 2;
      assert RunBlocks(le, period, x, 1, DoneBlock, m) == RunBlock(le, period, x, DoneBlock, m);
    } else if m.idx + 1 - m.buf[m.head].tick > period {
      var m1 := PopFront(m);
      var rest := PopFrontBlocks(le, period, x, m1);
      n := rest + 3;
      assert RunBlocks(le, period, x, rest + 1, PopFrontBody, m) == RunBlocks(le, period, x, rest, PopFrontHdr, m1);
      assert RunBlocks(le, period, x, rest + 2, PopFrontChk, m) == RunBlocks(le, period, x, rest + 1, PopFrontBody, m);
    } else {
      n := 3;
      assert RunBlocks(le, period, x, 1, DoneBlock, m) == RunBlock(le, period, x, DoneBlock, m);
      assert RunBlocks(le, period, x, 2, PopFrontChk, m) == RunBlocks(le, period, x, 1, DoneBlock, m);
    }
  }

  /** The emitted graph, from its first block to its return: the runtime's update, and NaN until the window
      is full. */
  lemma GraphIsUpdate<V>(le: (V, V) -> bool, period: nat, x: V, m: Mono<V>) returns (n: nat)
    requires WellShaped(m) && m.count < m.cap && m.cap == period + 1
    ensures var r := Update(le, m, x);
      RunBlocks(le, period, x, n, PopBackHdr, m) ==
        Returned(if r.idx >= period then Some(r.buf[r.head].value) else None, r)
    ensures n <= 6 * m.count + 9
  {
    var m1 := PopBackLoop(le, m, x);
    var a := PopBackBlocks(le, period, x, m);
    var m2 := PushBack(m1, Entry(m.idx, x));
    var b := PopFrontBlocks(le, period, x, m2);
    n := a + (b + 1);
    RunBlocksCompose(le, period, x, a, b + 1, PopBackHdr, m, PushBlock, m1);
    assert RunBlocks(le, period, x, b + 1, PushBlock, m1) == RunBlocks(le, period, x, b, PopFrontHdr, m2);
  }

  /** The gradient ring beside a deque: the input gradients of the last `period` ticks, by `tick % period`. */
  datatype GradState<V, G> = GradState(mono: Mono<V>, ring: seq<G>)

  /** `jit_rt_rolling_min_grad`: the value and the gradient read, `None` until the window is full. */
  function GradStep<V, G>(le: (V, V) -> bool, period: nat, s: GradState<V, G>, x: V, g: G)
      : (r: (Option<(V, G)>, GradState<V, G>))
    requires period > 0 && WellShaped(s.mono) && s.mono.count < s.mono.cap && |s.ring| == period
    ensures WellShaped(r.1.mono) && |r.1.ring| == period
  {
    var before := s.mono.idx;
    var mono := Update(le, s.mono, x);
    var ring := s.ring[before % period := g];
    var front := mono.buf[mono.head];
    (if mono.idx < period then None else Some((front.value, ring[front.tick % period])), GradState(mono, ring))
  }

  /** The ring after the gradients `gs`. */
  ghost predicate RingHolds<G>(ring: seq<G>, gs: seq<G>, period: nat) {
    period > 0 && |ring| == period && forall t | WindowStart(|gs|, period) <= t < |gs| :: ring[t % period] == gs[t]
  }

  lemma RingWrite<G>(ring: seq<G>, gs: seq<G>, period: nat, g: G)
    requires RingHolds(ring, gs, period)
    ensures RingHolds(ring[|gs| % period := g], gs + [g], period)
  {
    var n, ring' := |gs|, ring[|gs| % period := g];
    forall t | WindowStart(n + 1, period) <= t < n + 1 ensures ring'[t % period] == (gs + [g])[t] {
      if t < n {
        PlacesApart(period, t, n);
        assert ring[t % period] == gs[t];
      }
    }
  }

  /** The state after samples `xs` with gradients `gs`. */
  function GradAfter<V, G>(le: (V, V) -> bool, period: nat, any: V, zero: G, xs: seq<V>, gs: seq<G>)
      : (s: GradState<V, G>)
    requires period > 0 && |xs| == |gs|
    ensures WellShaped(s.mono) && |s.ring| == period
    decreases |xs|
  {
    if xs == [] then GradState(MonoDeque.Prepared(period, any), seq(period, _ => zero))
    else
      var n := |xs| - 1;
      assert |xs[..n]| == |gs[..n]|;
      var s := GradAfter(le, period, any, zero, xs[..n], gs[..n]);
      if s.mono.count < s.mono.cap then GradStep(le, period, s, xs[n], gs[n]).1 else s
  }

  lemma {:induction false} GradMono<V, G>(le: (V, V) -> bool, period: nat, any: V, zero: G, xs: seq<V>, gs: seq<G>)
    requires period > 0 && |xs| == |gs|
    ensures GradAfter(le, period, any, zero, xs, gs).mono == After(le, period, any, xs)
    decreases |xs|
  {
    hide Update;
    if xs != [] { GradMono(le, period, any, zero, xs[..|xs| - 1], gs[..|xs| - 1]); }
  }

  lemma GradStepParts<V, G>(le: (V, V) -> bool, period: nat, any: V, zero: G, xs: seq<V>, gs: seq<G>)
    requires period > 0 && |xs| == |gs| > 0
    requires After(le, period, any, xs[..|xs| - 1]).count < period + 1 &&
             After(le, period, any, xs[..|xs| - 1]).idx == |xs| - 1
    ensures var n := |xs| - 1;
      GradAfter(le, period, any, zero, xs, gs).ring ==
          GradAfter(le, period, any, zero, xs[..n], gs[..n]).ring[n % period := gs[n]]
  {
    hide Update;
    GradMono(le, period, any, zero, xs[..|xs| - 1], gs[..|xs| - 1]);
  }

  lemma {:induction false} GradRing<V(!new), G>(le: (V, V) -> bool, period: nat, any: V, zero: G, xs: seq<V>,
                                                gs: seq<G>)
    requires TotalPreorder(le) && period > 0 && |xs| == |gs|
    ensures RingHolds(GradAfter(le, period, any, zero, xs, gs).ring, gs, period)
    decreases |xs|
  {
    hide Update, TotalPreorder, Tracks, GradAfter, After;
    if xs == [] {
      GradNone(le, period, any, zero);
    } else {
      var n := |xs| - 1;
      GradRing(le, period, any, zero, xs[..n], gs[..n]);
      AfterTracks(le, period, any, xs[..n]);
      GradStepParts(le, period, any, zero, xs, gs);
      RingWrite(GradAfter(le, period, any, zero, xs[..n], gs[..n]).ring, gs[..n], period, gs[n]);
      assert gs[..n] + [gs[n]] == gs;
    }
  }

  lemma GradNone<V, G>(le: (V, V) -> bool, period: nat, any: V, zero: G)
    requires period > 0
    ensures RingHolds(GradAfter(le, period, any, zero, [], []).ring, [], period)
  {
  }

  /** Every run with a fixed period: the gradient returned is the one that came in at the tick of the
      window's most recent extremum, and nothing is returned before the window is full. */
  lemma GradientOfExtremum<V(!new), G>(le: (V, V) -> bool, period: nat, any: V, zero: G, xs: seq<V>, gs: seq<G>, x: V,
                                       g: G) returns (tick: nat)
    requires TotalPreorder(le) && period > 0 && |xs| == |gs|
    ensures var s := GradAfter(le, period, any, zero, xs, gs);
      && s.mono.count < s.mono.cap
      && IsLatestMin(le, xs + [x], WindowStart(|xs| + 1, period), tick)
      && GradStep(le, period, s, x, g).0 ==
           if |xs| + 1 < period then None else Some(((xs + [x])[tick], (gs + [g])[tick]))
  {
    var s := GradAfter(le, period, any, zero, xs, gs);
    var xs', gs' := xs + [x], gs + [g];
    AfterTracks(le, period, any, xs);
    GradMono(le, period, any, zero, xs, gs);
    GradRing(le, period, any, zero, xs, gs);
    RingWrite(s.ring, gs, period, g);
    assert xs'[..|xs|] == xs;
    assert After(le, period, any, xs') == Update(le, s.mono, x);
    hide Update, TotalPreorder, After, GradAfter;
    RollingMinimum(le, period, any, xs');
    var front := Update(le, s.mono, x).buf[Update(le, s.mono, x).head];
    tick := front.tick;
  }

  /** The gradient operator in its own form: a deque and the ring beside it, updated in place. */
  class RollingGradient<V, G> {
    const deque: MonoDequeState<V>
    const ring: array<G>

    ghost function State(): GradState<V, G>
      reads this, deque, deque.buf, ring
    {
      GradState(deque.State(), ring[..])
    }

    ghost predicate Valid()
      reads this, deque, deque.buf, ring
    {
      deque.Valid() && deque.cap == ring.Length + 1 && deque.count < deque.cap && ring.Length > 0
    }

    constructor (period: nat, any: V, zero: G)
      requires period > 0
      ensures Valid() && fresh(deque) && fresh(deque.buf) && fresh(ring)
      ensures State() == GradAfter((a: V, b: V) => true, period, any, zero, [], [])
    {
      deque := new MonoDequeState(any);
      ring := new G[period](_ => zero);
      new;
      deque.MonoInit(period, any);
      assert ring[..] == seq(period, _ => zero);
    }

    method Step(le: (V, V) -> bool, x: V, g: G) returns (out: Option<(V, G)>)
      requires Valid()
      modifies deque, deque.buf, ring
      ensures WellShaped(deque.State()) && deque.buf == old(deque.buf)
      ensures (out, State()) == GradStep(le, ring.Length, old(State()), x, g)
    {
      var period, before := ring.Length, deque.idx;
      var value := deque.UpdatePrepared(le, x);
      ring[before % period] := g;
      if deque.idx < period { return None; }
      var activeTick := deque.buf[deque.head].tick;
      out := Some((value, ring[activeTick % period]));
    }
  }

  /** `v` is the minimum of the `period` samples up to sample `n`, at its most recent place. */
  ghost predicate MinAt<V>(le: (V, V) -> bool, period: nat, xs: seq<V>, n: nat, v: V)
    requires n < |xs|
  {
    exists tick: nat :: IsLatestMin(le, xs[..n + 1], WindowStart(n + 1, period), tick) && v == xs[tick]
  }

  /** The state after the first `n` samples. */
  ghost function AfterFirst<V>(le: (V, V) -> bool, period: nat, any: V, xs: seq<V>, n: nat): (m: Mono<V>)
    requires n <= |xs|
    ensures WellShaped(m) && m.cap == period + 1
  {
    After(le, period, any, xs[..n])
  }

  lemma NextMin<V(!new)>(le: (V, V) -> bool, period: nat, any: V, xs: seq<V>, n: nat)
    requires TotalPreorder(le) && period > 0 && n < |xs|
    ensures var m, next := AfterFirst(le, period, any, xs, n), AfterFirst(le, period, any, xs, n + 1);
      && m.count < m.cap && next == Update(le, m, xs[n]) && next.count < next.cap && next.idx == n + 1
      && MinAt(le, period, xs, n, next.buf[next.head].value)
  {
    var now := xs[..n + 1];
    assert now[..n] == xs[..n] && now[n] == xs[n];
    AfterTracks(le, period, any, xs[..n]);
    AfterTracks(le, period, any, now);
    RollingMinimum(le, period, any, now);
    hide Update, Tracks, TotalPreorder;
    var next := After(le, period, any, now);
    assert IsLatestMin(le, now, WindowStart(n + 1, period), next.buf[next.head].tick);
  }

  method FeedOne<V(!new)>(st: MonoDequeState<V>, le: (V, V) -> bool, period: nat, any: V, xs: seq<V>, n: nat)
      returns (v: V)
    requires TotalPreorder(le) && period > 0 && n < |xs|
    requires st.Valid() && st.cap == period + 1 && st.count < st.cap && st.State() == AfterFirst(le, period, any, xs, n)
    modifies st, st.buf
    ensures st.Valid() && st.cap == period + 1 && st.count < st.cap &&
            st.State() == AfterFirst(le, period, any, xs, n + 1)
    ensures st.buf == old(st.buf) || fresh(st.buf)
    ensures MinAt(le, period, xs, n, v) && st.idx == n + 1 && st.pops <= st.idx
  {
    NextMin(le, period, any, xs, n);
    hide TotalPreorder, MinAt, Update, WellShaped, AfterFirst;
    v := st.UpdateRolling(le, period, any, xs[n]);
  }

  method Prewarmed<V(!new)>(le: (V, V) -> bool, period: nat, any: V, xs: seq<V>) returns (st: MonoDequeState<V>)
    requires period > 0
    ensures fresh(st) && fresh(st.buf)
    ensures st.Valid() && st.cap == period + 1 && st.count < st.cap && st.State() == AfterFirst(le, period, any, xs, 0)
    ensures st.idx == 0 == st.pops
  {
    st := new MonoDequeState(any);
    st.MonoInit(period, any);
    assert xs[..0] == [];
  }

  /** A whole run of the runtime's operator on a fresh state: every value returned is the minimum of the last
      min(n, period) samples, and both loops together run at most once per sample. */
  method RollingMin<V(!new)>(le: (V, V) -> bool, period: nat, any: V, xs: seq<V>)
      returns (mins: seq<V>, ghost iterations: nat)
    requires TotalPreorder(le) && period > 0
    ensures |mins| == |xs| && iterations <= |xs|
    ensures forall n | 0 <= n < |xs| :: MinAt(le, period, xs, n, mins[n])
  {
    var st := Prewarmed(le, period, any, xs);
    mins := [];
    hide TotalPreorder, MinAt, WellShaped, AfterFirst, MonoDequeState.State, MonoDequeState.Valid;
    for n := 0 to |xs|
      invariant fresh(st) && fresh(st.buf)
      invariant st.Valid() && st.cap == period + 1 && st.count < st.cap &&
        st.State() == AfterFirst(le, period, any, xs, n)
      invariant |mins| == n == st.idx && st.pops <= n
      invariant forall k | 0 <= k < n :: MinAt(le, period, xs, k, mins[k])
    {
      var v := FeedOne(st, le, period, any, xs, n);
      mins := mins + [v];
    }
    iterations := st.pops;
  }
}

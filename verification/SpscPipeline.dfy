/** The ingest pipeline over the ring: a producer that spins on `try_push` for each event and then raises
    `producer_done`, and a consumer that spins on `try_pop`, leaving its loop early only when it sees the
    flag and then an empty ring. */
module SpscPipeline {
  import opened Spsc
  import opened SpscWrap

  datatype ConsumerLoop = AtLoop | Popping | CheckDone | LoadHead | LoadTail(h: nat) | Finished(broke: bool)

  datatype Pipeline<T> = Pipeline(ring: Ring<T>, sent: nat, done: bool, loop: ConsumerLoop, handled: seq<T>)

  datatype Thread = Producer | Consumer

  function Start<T>(ix: Indexing, zero: T): Pipeline<T> {
    Pipeline(Fresh(ix, zero), 0, false, AtLoop, [])
  }

  function ProducerTurn<T>(ix: Indexing, events: seq<T>, s: Pipeline<T>): (s': Pipeline<T>)
    requires |s.ring.slots| == Capacity(ix) > 0
    ensures |s'.ring.slots| == Capacity(ix)
  {
    if !s.ring.prod.PIdle? then
      var (r, es) := Next(ix, s.ring, StepProducer);
      s.(ring := r, sent := s.sent + if es != [] && es[0].Pushed? then 1 else 0)
    else if s.sent < |events| then s.(ring := Next(ix, s.ring, StartPush(events[s.sent])).0)
    else s.(done := true)
  }

  function ConsumerTurn<T>(ix: Indexing, events: seq<T>, s: Pipeline<T>): (s': Pipeline<T>)
    requires |s.ring.slots| == Capacity(ix) > 0
    ensures |s'.ring.slots| == Capacity(ix)
  {
    match s.loop
    case AtLoop =>
      if |s.handled| < |events| then s.(ring := Next(ix, s.ring, StartPop).0, loop := Popping)
      else s.(loop := Finished(false))
    case Popping =>
      var (r, es) := Next(ix, s.ring, StepConsumer);
      if es == [] then s.(ring := r)
      else if es[0].Popped? then s.(ring := r, handled := s.handled + [es[0].value], loop := AtLoop)
      else s.(ring := r, loop := CheckDone)
    case CheckDone => s.(loop := if s.done then LoadHead else AtLoop)
    case LoadHead => s.(loop := LoadTail(s.ring.head))
    case LoadTail(h) => s.(loop := if Distance(ix, h, s.ring.tail) == 0 then Finished(true) else AtLoop)
    case Finished(_) => s
  }

  function Turn<T>(ix: Indexing, events: seq<T>, s: Pipeline<T>, who: Thread): (s': Pipeline<T>)
    requires |s.ring.slots| == Capacity(ix) > 0
    ensures |s'.ring.slots| == Capacity(ix)
  {
    if who.Producer? then ProducerTurn(ix, events, s) else ConsumerTurn(ix, events, s)
  }

  function Schedule<T>(ix: Indexing, events: seq<T>, s: Pipeline<T>, turns: seq<Thread>): (s': Pipeline<T>)
    requires |s.ring.slots| == Capacity(ix) > 0
    ensures |s'.ring.slots| == Capacity(ix)
    decreases |turns|
  {
    if turns == [] then s else Schedule(ix, events, Turn(ix, events, s, turns[0]), turns[1..])
  }

  ghost predicate Sound<T>(n: nat, events: seq<T>, s: Pipeline<T>) {
    && s.sent <= |events|
    && Inv(n, s.ring, events[..s.sent], s.handled)
    && (!s.ring.prod.PIdle? ==> s.sent < |events| && s.ring.prod.value == events[s.sent])
    && (s.done ==> s.sent == |events|)
    && (s.ring.cons.CIdle? <==> !s.loop.Popping?)
    && (!s.loop.AtLoop? && !s.loop.Finished? ==> |s.handled| < |events|)
    && (s.loop.LoadHead? || s.loop.LoadTail? ==> s.done)
    && (s.loop.LoadTail? ==> s.loop.h == s.ring.head)
    && (s.loop.Finished? ==> !s.loop.broke && s.handled == events)
  }

  lemma OneEventHistory<T>(es: seq<Event<T>>)
    requires |es| <= 1
    ensures PushedIn(es) == if es != [] && es[0].Pushed? then [es[0].value] else []
    ensures PoppedIn(es) == if es != [] && es[0].Popped? then [es[0].value] else []
  {
    if es != [] { assert es[..0] == []; }
  }

  /** What a step of the producer's call shows besides the ring invariant. */
  lemma ProducerStep<T>(n: nat, r: Ring<T>, pushed: seq<T>, popped: seq<T>)
    requires Inv(n, r, pushed, popped) && !r.prod.PIdle?
    ensures var (r', es) := Next(Counters(n), r, StepProducer);
      && |es| <= 1 && r'.cons == r.cons
      && r'.head == r.head + (if es != [] && es[0].Pushed? then 1 else 0)
      && (!r'.prod.PIdle? ==> es == [] && r'.prod.value == r.prod.value)
      && (es != [] && es[0].Pushed? ==> es[0].value == r.prod.value)
      && Inv(n, r', pushed + (if es != [] && es[0].Pushed? then [r.prod.value] else []), popped)
  {
    StepKeepsInv(n, r, StepProducer, pushed, popped);
    var es := Next(Counters(n), r, StepProducer).1;
    OneEventHistory(es);
    assert popped + [] == popped;
  }

  lemma ConsumerStep<T>(n: nat, r: Ring<T>, pushed: seq<T>, popped: seq<T>)
    requires Inv(n, r, pushed, popped) && !r.cons.CIdle?
    ensures var (r', es) := Next(Counters(n), r, StepConsumer);
      && |es| <= 1 && r'.prod == r.prod && r'.head == r.head
      && (r'.cons.CIdle? <==> es != [])
      && Inv(n, r', pushed, popped + (if es != [] && es[0].Popped? then [es[0].value] else []))
  {
    StepKeepsInv(n, r, StepConsumer, pushed, popped);
    OneEventHistory(Next(Counters(n), r, StepConsumer).1);
    assert pushed + [] == pushed;
  }

  lemma CallStarts<T>(n: nat, r: Ring<T>, a: Action<T>, pushed: seq<T>, popped: seq<T>)
    requires Inv(n, r, pushed, popped)
    requires if a.StartPush? then r.prod.PIdle? else a.StartPop? && r.cons.CIdle?
    ensures var (r', es) := Next(Counters(n), r, a);
      && Inv(n, r', pushed, popped) && r'.head == r.head
      && (if a.StartPush? then !r'.prod.PIdle? && r'.prod.value == a.value && r'.cons == r.cons
          else !r'.cons.CIdle? && r'.prod == r.prod)
  {
    StepKeepsInv(n, r, a, pushed, popped);
    assert pushed + [] == pushed && popped + [] == popped;
  }

  lemma ProducerSound<T>(n: nat, events: seq<T>, s: Pipeline<T>)
    requires Sound(n, events, s)
    ensures Sound(n, events, ProducerTurn(Counters(n), events, s))
  {
    var r, pushed := s.ring, events[..s.sent];
    InvSize(n, r, pushed, s.handled);
    assert s.loop.LoadTail? ==> s.done;
    if !r.prod.PIdle? {
      ProducerStep(n, r, pushed, s.handled);
      assert pushed + [events[s.sent]] == events[..s.sent + 1];
      assert pushed + [] == pushed;
    } else if s.sent < |events| {
      CallStarts(n, r, StartPush(events[s.sent]), pushed, s.handled);
    }
    hide Inv, Next;
  }

  lemma ConsumerSound<T>(n: nat, events: seq<T>, s: Pipeline<T>)
    requires Sound(n, events, s)
    ensures Sound(n, events, ConsumerTurn(Counters(n), events, s))
  {
    var r, pushed := s.ring, events[..s.sent];
    InvSize(n, r, pushed, s.handled);
    InvCounts(n, r, pushed, s.handled);
    if s.loop.Popping? {
      ConsumerStep(n, r, pushed, s.handled);
      assert s.handled + [] == s.handled;
    } else if s.loop.AtLoop? && |s.handled| < |events| {
      CallStarts<T>(n, r, StartPop, pushed, s.handled);
    }
    hide Inv, Next;
  }

  lemma InvCounts<T>(n: nat, r: Ring<T>, pushed: seq<T>, popped: seq<T>)
    requires Inv(n, r, pushed, popped)
    ensures r.head == |pushed| && r.tail == |popped| && popped <= pushed
    ensures r.tail <= r.head <= r.tail + n
  {
  }

  /** Every schedule: the consumer has handled a prefix of the events, in order, each once; when it stops it
      has handled all of them, and never through the early exit. */
  lemma {:induction false} EverySchedule<T>(n: nat, events: seq<T>, s: Pipeline<T>, turns: seq<Thread>)
    requires Sound(n, events, s)
    ensures Inv(n, s.ring, events[..s.sent], s.handled)
    ensures Sound(n, events, Schedule(Counters(n), events, s, turns))
    decreases |turns|
  {
    if turns != [] {
      if turns[0].Producer? { ProducerSound(n, events, s); } else { ConsumerSound(n, events, s); }
      EverySchedule(n, events, Turn(Counters(n), events, s, turns[0]), turns[1..]);
    }
  }

  /** The same pipeline over 64-bit indices. */
  ghost predicate WrapsPipeline<T>(s: Pipeline<T>, w: Pipeline<T>) {
    && Wraps(s.ring, w.ring) && w.sent == s.sent && w.done == s.done && w.handled == s.handled
    && w.loop == if s.loop.LoadTail? then LoadTail(s.loop.h % WORD) else s.loop
  }

  lemma ProducerTurnSimulates<T>(log2: nat, events: seq<T>, s: Pipeline<T>, w: Pipeline<T>)
    requires 1 <= log2 <= 63 && Sound(Pow2(log2), events, s) && WrapsPipeline(s, w)
    ensures WrapsPipeline(ProducerTurn(Counters(Pow2(log2)), events, s), ProducerTurn(Words(log2), events, w))
  {
    InvSize(Pow2(log2), s.ring, events[..s.sent], s.handled);
    StepSimulates(log2, s.ring, w.ring, StepProducer, events[..s.sent], s.handled);
    if s.sent < |events| { StepSimulates(log2, s.ring, w.ring, StartPush(events[s.sent]), events[..s.sent],
                                         s.handled); }
    hide Next, Pow2, Inv;
  }

  lemma EmptyTestAgrees<T>(log2: nat, r: Ring<T>, w: Ring<T>, pushed: seq<T>, popped: seq<T>)
    requires 1 <= log2 <= 63 && Inv(Pow2(log2), r, pushed, popped) && Wraps(r, w)
    ensures Distance(Words(log2), r.head % WORD, w.tail) == Distance(Counters(Pow2(log2)), r.head, r.tail)
  {
    CapacityDividesWord(log2);
    hide Pow2;
    DistancesAgree(r.head, r.tail);
  }

  lemma ConsumerTurnSimulates<T>(log2: nat, events: seq<T>, s: Pipeline<T>, w: Pipeline<T>)
    requires 1 <= log2 <= 63 && Sound(Pow2(log2), events, s) && WrapsPipeline(s, w)
    ensures WrapsPipeline(ConsumerTurn(Counters(Pow2(log2)), events, s), ConsumerTurn(Words(log2), events, w))
  {
    var n, pushed := Pow2(log2), events[..s.sent];
    InvSize(n, s.ring, pushed, s.handled);
    hide Next;
    if s.loop.Popping? {
      StepSimulates(log2, s.ring, w.ring, StepConsumer, pushed, s.handled);
      hide Inv, Pow2;
    } else if s.loop.LoadTail? {
      EmptyTestAgrees(log2, s.ring, w.ring, pushed, s.handled);
      hide Inv, Pow2, Distance;
    } else {
      StepSimulates<T>(log2, s.ring, w.ring, StartPop, pushed, s.handled);
      hide Inv, Pow2;
    }
  }

  lemma TurnSimulates<T>(log2: nat, events: seq<T>, s: Pipeline<T>, w: Pipeline<T>, who: Thread)
    requires 1 <= log2 <= 63 && Sound(Pow2(log2), events, s) && WrapsPipeline(s, w)
    ensures |s.ring.slots| == |w.ring.slots| == Pow2(log2)
    ensures WrapsPipeline(Turn(Counters(Pow2(log2)), events, s, who), Turn(Words(log2), events, w, who))
  {
    InvSize(Pow2(log2), s.ring, events[..s.sent], s.handled);
    ProducerTurnSimulates(log2, events, s, w);
    ConsumerTurnSimulates(log2, events, s, w);
    hide Pow2, Sound, ProducerTurn, ConsumerTurn;
  }

  lemma {:induction false} ScheduleSimulates<T>(log2: nat, events: seq<T>, s: Pipeline<T>, w: Pipeline<T>,
                                                turns: seq<Thread>)
    requires 1 <= log2 <= 63 && Sound(Pow2(log2), events, s) && WrapsPipeline(s, w)
    ensures WrapsPipeline(Schedule(Counters(Pow2(log2)), events, s, turns), Schedule(Words(log2), events, w, turns))
    decreases |turns|
  {
    if turns != [] {
      var n := Pow2(log2);
      TurnSimulates(log2, events, s, w, turns[0]);
      EverySchedule(n, events, s, [turns[0]]);
      assert Schedule(Counters(n), events, s, [turns[0]]) == Turn(Counters(n), events, s, turns[0]);
      ScheduleSimulates(log2, events, Turn(Counters(n), events, s, turns[0]), Turn(Words(log2), events, w, turns[0]),
                        turns[1..]);
    }
  }

  /** The benchmark's pipeline as compiled, on every schedule of its two threads: nothing is lost,
      duplicated or reordered, also past 2^64 events, and the early `break` is never the way out. */
  lemma PipelineDeliversAll<T>(log2: nat, zero: T, events: seq<T>, turns: seq<Thread>)
    requires 1 <= log2 <= 63
    ensures var w := Schedule(Words(log2), events, Start(Words(log2), zero), turns);
      && w.handled <= events
      && (w.loop.Finished? ==> w.handled == events && !w.loop.broke)
  {
    var n := Pow2(log2);
    var s, w := Start(Counters(n), zero), Start(Words(log2), zero);
    assert s.ring.slots == w.ring.slots;
    assert Sound(n, events, s);
    EverySchedule(n, events, s, turns);
    ScheduleSimulates(log2, events, s, w, turns);
  }

  /** Turns a thread needs at most before its current attempt succeeds, if the ring lets it. */
  function ConsumerRank<T>(s: Pipeline<T>): nat {
    match s.loop
    case CheckDone => 7 case LoadHead => 6 case LoadTail(_) => 5 case AtLoop => 4 case Finished(_) => 0
    case Popping => match s.ring.cons case CRefresh => 3 case CRead => 2 case _ => 1
  }

  function ProducerRank<T>(s: Pipeline<T>): nat {
    match s.ring.prod case PIdle => 4 case PRefresh(_) => 3 case PWrite(_) => 2 case PPublish(_) => 1
  }

  lemma ConsumerAdvances<T>(n: nat, events: seq<T>, s: Pipeline<T>)
    requires Sound(n, events, s) && s.ring.tail < s.ring.head
    ensures var s' := ConsumerTurn(Counters(n), events, s);
      && s'.sent == s.sent
      && (|s'.handled| == |s.handled| + 1 ||
          (s'.handled == s.handled && s'.ring.tail == s.ring.tail && s'.ring.head == s.ring.head &&
           ConsumerRank(s') < ConsumerRank(s)))
  {
  }

  lemma ProducerAdvances<T>(n: nat, events: seq<T>, s: Pipeline<T>)
    requires Sound(n, events, s) && s.ring.head < s.ring.tail + n && s.sent < |events|
    ensures var s' := ProducerTurn(Counters(n), events, s);
      && s'.handled == s.handled
      && (s'.sent == s.sent + 1 ||
          (s'.sent == s.sent && s'.ring.tail == s.ring.tail && s'.ring.head == s.ring.head &&
           ProducerRank(s') < ProducerRank(s)))
  {
  }

  /** No schedule leads to a dead end: from every reachable state the pipeline can still run to the end. */
  lemma {:induction false} CanAlwaysFinish<T>(n: nat, events: seq<T>, s: Pipeline<T>) returns (turns: seq<Thread>)
    requires Sound(n, events, s)
    ensures Schedule(Counters(n), events, s, turns).loop.Finished?
    decreases 2 * |events| - s.sent - |s.handled|,
      if s.ring.tail < s.ring.head then ConsumerRank(s) else ProducerRank(s)
  {
    hide ConsumerRank, ProducerRank, Next;
    if s.loop.Finished? {
      turns := [];
    } else if s.ring.head == s.ring.tail && s.sent == |events| {
      assert s.handled == events;
      turns := [Consumer];
      assert Schedule(Counters(n), events, s, turns) == Turn(Counters(n), events, s, Consumer);
    } else {
      var who := if s.ring.tail < s.ring.head then Consumer else Producer;
      if who.Consumer? { ConsumerAdvances(n, events, s); ConsumerSound(n, events, s); }
      else { ProducerAdvances(n, events, s); ProducerSound(n, events, s); }
      var rest := CanAlwaysFinish(n, events, Turn(Counters(n), events, s, who));
      turns := [who] + rest;
      assert turns[1..] == rest;
    }
  }

  lemma {:induction false} ScheduleAppend<T>(ix: Indexing, events: seq<T>, s: Pipeline<T>, a: seq<Thread>,
                                             b: seq<Thread>)
    requires |s.ring.slots| == Capacity(ix) > 0
    ensures Schedule(ix, events, s, a + b) == Schedule(ix, events, Schedule(ix, events, s, a), b)
    decreases |a|
  {
    if a == [] {
      assert a + b == b;
    } else {
      ScheduleAppend(ix, events, Turn(ix, events, s, a[0]), a[1..], b);
      assert (a + b)[1..] == a[1..] + b;
    }
  }

  /** The same for the compiled pipeline, after any schedule at all. */
  lemma PipelineCanFinish<T>(log2: nat, zero: T, events: seq<T>, turns: seq<Thread>) returns (more: seq<Thread>)
    requires 1 <= log2 <= 63
    ensures Schedule(Words(log2), events, Start(Words(log2), zero), turns + more).loop == Finished(false)
  {
    var n := Pow2(log2);
    var s, w := Start(Counters(n), zero), Start(Words(log2), zero);
    assert s.ring.slots == w.ring.slots;
    EverySchedule(n, events, s, turns);
    more := CanAlwaysFinish(n, events, Schedule(Counters(n), events, s, turns));
    ScheduleAppend(Counters(n), events, s, turns, more);
    EverySchedule(n, events, s, turns + more);
    ScheduleSimulates(log2, events, s, w, turns + more);
  }
}

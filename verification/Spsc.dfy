/** The single-producer single-consumer ring as a two-thread protocol of atomic steps.

    Each call is split where another thread can observe it: the check against the cached opposing index,
    the load of the live one, the access to the slot, and the store that publishes.  Loads and stores of
    the indices are sequentially consistent steps here; what acquire and release add on weaker memory is
    that a published slot is visible with its index, which this model takes for granted. */
module Spsc {
  import opened Remainders

  /** How indices are kept: unbounded counters with `mod`, or 64-bit words that wrap, with a mask. */
  datatype Indexing = Counters(capacity: nat) | Words(log2: nat)

  const WORD := 0x1_0000_0000_0000_0000

  function Pow2(k: nat): (p: nat)
    ensures p >= 1
  {
    if k == 0 then 1 else 2 * Pow2(k - 1)
  }

  /** Bitwise conjunction of two words. */
  function BitAnd(a: nat, b: nat): nat {
    if a == 0 || b == 0 then 0 else 2 * BitAnd(a / 2, b / 2) + if a % 2 == 1 && b % 2 == 1 then 1 else 0
  }

  function Capacity(ix: Indexing): nat {
    match ix case Counters(n) => n case Words(k) => Pow2(k)
  }

  function Succ(ix: Indexing, i: nat): nat {
    match ix case Counters(_) => i + 1 case Words(_) => (i + 1) % WORD
  }

  function Distance(ix: Indexing, h: nat, t: nat): int {
    match ix case Counters(_) => h - t case Words(_) => (h - t) % WORD
  }

  lemma HalfRemainder(a: nat, p: nat)
    requires p > 0
    ensures a % (2 * p) == 2 * ((a / 2) % p) + a % 2
  {
    var q, r := (a / 2) / p, (a / 2) % p;
    assert a / 2 == p * q + r;
    assert (2 * p) * q == 2 * (p * q);
    RemainderIs(a, 2 * p, q, 2 * r + a % 2);
  }

  lemma AndWithOdd(a: nat, m: nat)
    ensures BitAnd(a, 2 * m + 1) == 2 * BitAnd(a / 2, m) + a % 2
  {
    assert (2 * m + 1) / 2 == m && (2 * m + 1) % 2 == 1;
  }

  lemma MaskStep(a: nat, p: nat)
    requires p > 0 && BitAnd(a / 2, p - 1) == (a / 2) % p
    ensures BitAnd(a, 2 * p - 1) == a % (2 * p)
  {
    hide BitAnd;
    HalfRemainder(a, p);
    AndWithOdd(a, p - 1);
    assert 2 * (p - 1) + 1 == 2 * p - 1;
  }

  /** The mask is the remainder: why the capacity has to be a power of two. */
  lemma {:induction false} MaskIsRemainder(a: nat, k: nat)
    ensures BitAnd(a, Pow2(k) - 1) == a % Pow2(k)
    decreases k
  {
    hide BitAnd;
    if k == 0 {
      AndWithZero(a);
    } else {
      MaskIsRemainder(a / 2, k - 1);
      MaskStep(a, Pow2(k - 1));
    }
  }

  lemma AndWithZero(a: nat)
    ensures BitAnd(a, 0) == 0 == a % 1
  {
  }

  function Slot(ix: Indexing, i: nat): (s: nat)
    requires Capacity(ix) > 0
    ensures s < Capacity(ix)
  {
    match ix
    case Counters(n) => i % n
    case Words(k) => MaskIsRemainder(i, k); BitAnd(i, Pow2(k) - 1)
  }

  /** Where a thread stands inside its call. */
  datatype ProducerPc<T> = PIdle | PRefresh(value: T) | PWrite(value: T) | PPublish(value: T)
  datatype ConsumerPc<T> = CIdle | CRefresh | CRead | CPublish(out: T)

  datatype Ring<T> = Ring(
    head: nat, tail: nat, cachedTail: nat, cachedHead: nat, slots: seq<T>,
    prod: ProducerPc<T>, cons: ConsumerPc<T>)

  /** What a finished call reports. */
  datatype Event<T> = Pushed(value: T) | PushFailed | Popped(value: T) | PopFailed

  /** The scheduler's choice: a thread starts a call, or takes the next step of the one it is in. */
  datatype Action<T> = StartPush(value: T) | StepProducer | StartPop | StepConsumer

  function Fresh<T>(ix: Indexing, zero: T): Ring<T> {
    Ring(0, 0, 0, 0, seq(Capacity(ix), _ => zero), PIdle, CIdle)
  }

  /** One atomic step; an action the thread is not ready for changes nothing. */
  function Next<T>(ix: Indexing, r: Ring<T>, a: Action<T>): (res: (Ring<T>, seq<Event<T>>))
    requires |r.slots| == Capacity(ix) > 0
    ensures |res.0.slots| == Capacity(ix)
  {
    match a
    case StartPush(v) =>
      if !r.prod.PIdle? then (r, [])
      else if Distance(ix, r.head, r.cachedTail) == Capacity(ix) then (r.(prod := PRefresh(v)), [])
      else (r.(prod := PWrite(v)), [])
    case StartPop =>
      if !r.cons.CIdle? then (r, [])
      else if r.tail == r.cachedHead then (r.(cons := CRefresh), [])
      else (r.(cons := CRead), [])
    case StepProducer => StepPush(ix, r)
    case StepConsumer => StepPop(ix, r)
  }

  function StepPush<T>(ix: Indexing, r: Ring<T>): (Ring<T>, seq<Event<T>>)
    requires |r.slots| == Capacity(ix) > 0
  {
    match r.prod
    case PIdle => (r, [])
    case PRefresh(v) =>
      var r' := r.(cachedTail := r.tail);
      if Distance(ix, r'.head, r'.cachedTail) == Capacity(ix) then (r'.(prod := PIdle), [PushFailed])
      else (r'.(prod := PWrite(v)), [])
    case PWrite(v) => (r.(slots := r.slots[Slot(ix, r.head) := v], prod := PPublish(v)), [])
    case PPublish(v) => (r.(head := Succ(ix, r.head), prod := PIdle), [Pushed(v)])
  }

  function StepPop<T>(ix: Indexing, r: Ring<T>): (Ring<T>, seq<Event<T>>)
    requires |r.slots| == Capacity(ix) > 0
  {
    match r.cons
    case CIdle => (r, [])
    case CRefresh =>
      var r' := r.(cachedHead := r.head);
      if r'.tail == r'.cachedHead then (r'.(cons := CIdle), [PopFailed])
      else (r'.(cons := CRead), [])
    case CRead => (r.(cons := CPublish(r.slots[Slot(ix, r.tail)])), [])
    case CPublish(out) => (r.(tail := Succ(ix, r.tail), cons := CIdle), [Popped(out)])
  }

  /** An interleaving: the ring after it and everything the calls reported, in order. */
  function Exec<T>(ix: Indexing, r: Ring<T>, acts: seq<Action<T>>): (res: (Ring<T>, seq<Event<T>>))
    requires |r.slots| == Capacity(ix) > 0
    ensures |res.0.slots| == Capacity(ix)
  {
    if acts == [] then (r, [])
    else
      var n := |acts| - 1;
      var (r1, t1) := Exec(ix, r, acts[..n]);
      var (r2, t2) := Next(ix, r1, acts[n]);
      (r2, t1 + t2)
  }

  function PushedIn<T>(trace: seq<Event<T>>): seq<T> {
    if trace == [] then []
    else
      var n := |trace| - 1;
      PushedIn(trace[..n]) + if trace[n].Pushed? then [trace[n].value] else []
  }

  function PoppedIn<T>(trace: seq<Event<T>>): seq<T> {
    if trace == [] then []
    else
      var n := |trace| - 1;
      PoppedIn(trace[..n]) + if trace[n].Popped? then [trace[n].value] else []
  }

  /** The protocol's invariant, over unbounded counters. */
  ghost predicate Inv<T>(n: nat, r: Ring<T>, pushed: seq<T>, popped: seq<T>) {
    && |r.slots| == n > 0
    && |pushed| == r.head && |popped| == r.tail
    && r.tail <= r.head <= r.tail + n
    && r.cachedTail <= r.tail && r.head <= r.cachedTail + n
    && r.tail <= r.cachedHead <= r.head
    && popped <= pushed
    && (forall k | r.tail <= k < r.head :: r.slots[k % n] == pushed[k])
    && (r.prod.PWrite? ==> r.head < r.cachedTail + n)
    && (r.prod.PPublish? ==> r.head < r.cachedTail + n && r.slots[r.head % n] == r.prod.value)
    && (r.cons.CRead? ==> r.tail < r.cachedHead)
    && (r.cons.CPublish? ==> r.tail < r.cachedHead && r.cons.out == pushed[r.tail])
  }

  /** What a call reports is true of the ring at the step that decides it: a failed push saw a full ring,
      a failed pop an empty one, a successful pop took the oldest item. */
  ghost predicate Truthful<T>(n: nat, r: Ring<T>, pushed: seq<T>, e: Event<T>) {
    match e
    case Pushed(_) => r.head < r.tail + n
    case PushFailed => r.head == r.tail + n
    case Popped(v) => r.tail < r.head == |pushed| && v == pushed[r.tail]
    case PopFailed => r.head == r.tail
  }

  ghost predicate StepOk<T>(n: nat, r: Ring<T>, pushed: seq<T>, popped: seq<T>, r': Ring<T>, es: seq<Event<T>>) {
    && |es| <= 1
    && Inv(n, r', pushed + PushedIn(es), popped + PoppedIn(es))
    && (es != [] ==> Truthful(n, r, pushed, es[0]))
  }

  lemma ProducerKeepsInv<T>(n: nat, r: Ring<T>, a: Action<T>, pushed: seq<T>, popped: seq<T>)
    requires Inv(n, r, pushed, popped) && (a.StartPush? || a.StepProducer?)
    ensures var (r', es) := Next(Counters(n), r, a); StepOk(n, r, pushed, popped, r', es)
  {
    var (r', es) := Next(Counters(n), r, a);
    if es != [] { assert es[..0] == []; }
    assert pushed + [] == pushed && popped + [] == popped;
    if a.StepProducer? && r.prod.PWrite? {
      forall k | r.tail <= k < r.head ensures r'.slots[k % n] == pushed[k] {
        PlacesApart(n, k, r.head);
      }
    }
  }

  lemma ConsumerKeepsInv<T>(n: nat, r: Ring<T>, a: Action<T>, pushed: seq<T>, popped: seq<T>)
    requires Inv(n, r, pushed, popped) && (a.StartPop? || a.StepConsumer?)
    ensures var (r', es) := Next(Counters(n), r, a); StepOk(n, r, pushed, popped, r', es)
  {
    var (r', es) := Next(Counters(n), r, a);
    if es != [] { assert es[..0] == []; }
    assert pushed + [] == pushed && popped + [] == popped;
    if a.StepConsumer? && r.cons.CPublish? {
      assert popped + [r.cons.out] == pushed[..r.tail + 1];
    }
  }

  lemma StepKeepsInv<T>(n: nat, r: Ring<T>, a: Action<T>, pushed: seq<T>, popped: seq<T>)
    requires Inv(n, r, pushed, popped)
    ensures var (r', es) := Next(Counters(n), r, a); StepOk(n, r, pushed, popped, r', es)
  {
    hide Inv, StepOk, Next;
    if a.StartPush? || a.StepProducer? {
      ProducerKeepsInv(n, r, a, pushed, popped);
    } else {
      ConsumerKeepsInv(n, r, a, pushed, popped);
    }
  }

  lemma InvSize<T>(n: nat, r: Ring<T>, pushed: seq<T>, popped: seq<T>)
    requires Inv(n, r, pushed, popped)
    ensures |r.slots| == n > 0
  {
  }

  lemma HistoriesAppend<T>(t1: seq<Event<T>>, t2: seq<Event<T>>)
    requires |t2| <= 1
    ensures PushedIn(t1 + t2) == PushedIn(t1) + PushedIn(t2)
    ensures PoppedIn(t1 + t2) == PoppedIn(t1) + PoppedIn(t2)
  {
    if t2 == [] {
      assert t1 + t2 == t1;
    } else {
      assert (t1 + t2)[..|t1|] == t1 && t2[..0] == [];
    }
  }

  lemma {:induction false} ExecKeepsInv<T>(n: nat, r0: Ring<T>, acts: seq<Action<T>>, pushed: seq<T>, popped: seq<T>)
    requires Inv(n, r0, pushed, popped)
    ensures var (r, trace) := Exec(Counters(n), r0, acts);
      Inv(n, r, pushed + PushedIn(trace), popped + PoppedIn(trace))
  {
    InvSize(n, r0, pushed, popped);
    hide Inv;
    if acts == [] {
      assert pushed + [] == pushed && popped + [] == popped;
    } else {
      var k := |acts| - 1;
      ExecKeepsInv(n, r0, acts[..k], pushed, popped);
      var (r, trace) := Exec(Counters(n), r0, acts[..k]);
      StepKeepsInv(n, r, acts[k], pushed + PushedIn(trace), popped + PoppedIn(trace));
      var es := Next(Counters(n), r, acts[k]).1;
      HistoriesAppend(trace, es);
      assert pushed + PushedIn(trace) + PushedIn(es) == pushed + (PushedIn(trace) + PushedIn(es));
      assert popped + PoppedIn(trace) + PoppedIn(es) == popped + (PoppedIn(trace) + PoppedIn(es));
    }
  }

  /** Step `i` of an interleaving reports only what is true of the ring at that step. */
  ghost predicate TruthfulAt<T>(n: nat, zero: T, acts: seq<Action<T>>, i: nat)
    requires n > 0 && i < |acts|
  {
    var (r, trace) := Exec(Counters(n), Fresh(Counters(n), zero), acts[..i]);
    forall e <- Next(Counters(n), r, acts[i]).1 :: Truthful(n, r, PushedIn(trace), e)
  }

  lemma StepTruthful<T>(n: nat, zero: T, acts: seq<Action<T>>, i: nat)
    requires n > 0 && i < |acts|
    ensures TruthfulAt(n, zero, acts, i)
  {
    hide Inv, Truthful, Next, Exec, Fresh, PushedIn, PoppedIn;
    FreshInv(n, zero);
    ExecKeepsInv(n, Fresh(Counters(n), zero), acts[..i], [], []);
    var (r, trace) := Exec(Counters(n), Fresh(Counters(n), zero), acts[..i]);
    assert [] + PushedIn(trace) == PushedIn(trace) && [] + PoppedIn(trace) == PoppedIn(trace);
    StepKeepsInv(n, r, acts[i], PushedIn(trace), PoppedIn(trace));
  }

  lemma FreshInv<T>(n: nat, zero: T)
    requires n > 0
    ensures Inv(n, Fresh(Counters(n), zero), [], [])
  {
  }

  /** Both threads are between their bounds check and their publishing store, at the same slot. */
  predicate Conflict<T>(ix: Indexing, r: Ring<T>)
    requires Capacity(ix) > 0
  {
    && (r.prod.PWrite? || r.prod.PPublish?) && (r.cons.CRead? || r.cons.CPublish?)
    && Slot(ix, r.head) == Slot(ix, r.tail)
  }

  /** Every interleaving delivers in order and loses nothing: the popped values are a prefix of the pushed
      ones, the rest lie in slots tail..head-1, the two sides never touch one slot at once, and every report is
      true at the step that makes it: a failed push saw a full ring, a failed pop an empty one. */
  lemma EveryInterleaving<T>(n: nat, zero: T, acts: seq<Action<T>>)
    requires n > 0
    ensures var (r, trace) := Exec(Counters(n), Fresh(Counters(n), zero), acts);
      var pushed := PushedIn(trace);
      && |pushed| == r.head && r.tail <= r.head <= r.tail + n && PoppedIn(trace) == pushed[..r.tail]
      && (forall k | r.tail <= k < r.head :: r.slots[k % n] == pushed[k])
      && !Conflict(Counters(n), r)
    ensures forall i | 0 <= i < |acts| :: TruthfulAt(n, zero, acts, i)
  {
    hide Inv, Conflict, Truthful, TruthfulAt, Next, Exec, PushedIn, PoppedIn;
    forall i | 0 <= i < |acts| ensures TruthfulAt(n, zero, acts, i) {
      StepTruthful(n, zero, acts, i);
    }
    FreshInv(n, zero);
    ExecKeepsInv(n, Fresh(Counters(n), zero), acts, [], []);
    var (r, trace) := Exec(Counters(n), Fresh(Counters(n), zero), acts);
    assert [] + PushedIn(trace) == PushedIn(trace) && [] + PoppedIn(trace) == PoppedIn(trace);
    InvDelivers(n, r, PushedIn(trace), PoppedIn(trace));
  }

  lemma InvDelivers<T>(n: nat, r: Ring<T>, pushed: seq<T>, popped: seq<T>)
    requires Inv(n, r, pushed, popped)
    ensures n > 0 && |r.slots| == n && |pushed| == r.head && r.tail <= r.head <= r.tail + n &&
            popped == pushed[..r.tail]
    ensures forall k | r.tail <= k < r.head :: r.slots[k % n] == pushed[k]
    ensures !Conflict(Counters(n), r)
  {
    if r.tail < r.head < r.tail + n { PlacesApart(n, r.tail, r.head); }
  }
}

/** Rolling minimum and maximum: a monotonic deque in a circular buffer.

    Values are ordered by any total preorder `le`, which is what doubles without NaN have (the two zeros are
    equal in it); the maximum is the minimum for the reversed order. */
module MonoDeque {
  import opened Windows

  ghost predicate TotalPreorder<V(!new)>(le: (V, V) -> bool) {
    && (forall a: V, b: V :: le(a, b) || le(b, a))
    && (forall a: V, b: V, c: V :: le(a, b) && le(b, c) ==> le(a, c))
  }

  function Reversed<V>(le: (V, V) -> bool): (V, V) -> bool {
    (a, b) => le(b, a)
  }

  datatype Entry<V> = Entry(tick: nat, value: V)

  /** The deque's memory; `cap` is zero until the state is prepared for its period. */
  datatype Mono<V> = Mono(buf: seq<Entry<V>>, head: nat, count: nat, cap: nat, idx: nat)

  predicate WellShaped<V>(m: Mono<V>) {
    m.cap > 0 && |m.buf| == m.cap && m.head < m.cap && m.count <= m.cap
  }

  function TailIndex<V>(m: Mono<V>): (i: nat)
    requires WellShaped(m) && m.count > 0
    ensures i < m.cap
  {
    (m.head + m.count - 1) % m.cap
  }

  /** `while (!MonoEmpty && MonoBack().second >= sample) MonoPopBack()` */
  function PopBackLoop<V>(le: (V, V) -> bool, m: Mono<V>, x: V): (r: Mono<V>)
    requires WellShaped(m)
    ensures WellShaped(r) && r.count <= m.count && r == m.(count := r.count)
    decreases m.count
  {
    if m.count > 0 && le(x, m.buf[TailIndex(m)].value) then PopBackLoop(le, m.(count := m.count - 1), x) else m
  }

  function PushBack<V>(m: Mono<V>, e: Entry<V>): (r: Mono<V>)
    requires WellShaped(m) && m.count < m.cap
    ensures WellShaped(r)
  {
    m.(buf := m.buf[(m.head + m.count) % m.cap := e], count := m.count + 1)
  }

  function PopFront<V>(m: Mono<V>): (r: Mono<V>)
    requires WellShaped(m) && m.count > 0
    ensures WellShaped(r)
  {
    m.(head := (m.head + 1) % m.cap, count := m.count - 1)
  }

  /** `while (!MonoEmpty && idx + 1 - MonoFront().first > period) MonoPopFront()` */
  function PopFrontLoop<V>(m: Mono<V>): (r: Mono<V>)
    requires WellShaped(m)
    ensures WellShaped(r) && r.count <= m.count && r == m.(head := r.head, count := r.count)
    decreases m.count
  {
    if m.count > 0 && m.idx + 1 - m.buf[m.head].tick > m.cap - 1 then PopFrontLoop(PopFront(m)) else m
  }

  /** One update.  The buffer has one place more than the period, because the new sample is pushed before
      the oldest is dropped. */
  function Update<V>(le: (V, V) -> bool, m: Mono<V>, x: V): (r: Mono<V>)
    requires WellShaped(m) && m.count < m.cap
    ensures WellShaped(r) && r.cap == m.cap && r.idx == m.idx + 1
  {
    var m1 := PushBack(PopBackLoop(le, m, x), Entry(m.idx, x));
    var m2 := PopFrontLoop(m1);
    m2.(idx := m2.idx + 1)
  }

  function Prepared<V>(period: nat, any: V): Mono<V> {
    Mono(seq(period + 1, _ => Entry(0, any)), 0, 0, period + 1, 0)
  }

  /** Place `i` of the circular buffer, counted from the head: `(head + i) % cap` without a division. */
  function At(head: nat, i: nat, cap: nat): (k: nat)
    requires head < cap && i < cap
    ensures k < cap
  {
    if head + i < cap then head + i else head + i - cap
  }

  lemma AtIsRemainder(head: nat, i: nat, cap: nat)
    requires head < cap && i < cap
    ensures At(head, i, cap) == (head + i) % cap
  {
    if head + i >= cap { Wraps(head + i, cap); }
  }

  lemma Wraps(a: nat, cap: nat)
    requires cap <= a < 2 * cap
    ensures a % cap == a - cap
  {
  }

  /** The deque's contents from front to back. */
  function Entries<V>(m: Mono<V>): (es: seq<Entry<V>>)
    requires WellShaped(m)
    ensures |es| == m.count
  {
    seq(m.count, i requires 0 <= i < m.count => m.buf[At(m.head, i, m.cap)])
  }

  function TrimBack<V>(le: (V, V) -> bool, es: seq<Entry<V>>, x: V): seq<Entry<V>> {
    if es != [] && le(x, es[|es| - 1].value) then TrimBack(le, es[..|es| - 1], x) else es
  }

  function TrimFront<V>(es: seq<Entry<V>>, lo: int): seq<Entry<V>> {
    if es != [] && es[0].tick < lo then TrimFront(es[1..], lo) else es
  }

  lemma {:induction false} PopBackEntries<V>(le: (V, V) -> bool, m: Mono<V>, x: V)
    requires WellShaped(m)
    ensures Entries(PopBackLoop(le, m, x)) == TrimBack(le, Entries(m), x)
    decreases m.count
  {
    if m.count > 0 {
      AtIsRemainder(m.head, m.count - 1, m.cap);
      if le(x, m.buf[TailIndex(m)].value) {
        var m1 := m.(count := m.count - 1);
        assert Entries(m1) == Entries(m)[..m.count - 1];
        PopBackEntries(le, m1, x);
      }
    }
  }

  lemma PushEntries<V>(m: Mono<V>, e: Entry<V>)
    requires WellShaped(m) && m.count < m.cap
    ensures Entries(PushBack(m, e)) == Entries(m) + [e]
  {
    var r := PushBack(m, e);
    AtIsRemainder(m.head, m.count, m.cap);
    forall i | 0 <= i < m.count ensures r.buf[At(m.head, i, m.cap)] == m.buf[At(m.head, i, m.cap)] {
    }
  }

  lemma NextAt(head: nat, i: nat, cap: nat)
    requires head < cap && i + 1 < cap
    ensures (head + 1) % cap < cap && At((head + 1) % cap, i, cap) == At(head, i + 1, cap)
  {
    AtIsRemainder(head, 1, cap);
  }

  lemma FrontDropped<V>(m: Mono<V>)
    requires WellShaped(m) && m.count > 0
    ensures Entries(PopFront(m)) == Entries(m)[1..] && Entries(m)[0] == m.buf[m.head]
  {
    var m1 := PopFront(m);
    forall i | 0 <= i < m1.count ensures Entries(m1)[i] == Entries(m)[1..][i] {
      NextAt(m.head, i, m.cap);
    }
  }

  lemma {:induction false} PopFrontEntries<V>(m: Mono<V>)
    requires WellShaped(m)
    ensures Entries(PopFrontLoop(m)) == TrimFront(Entries(m), m.idx + 2 - m.cap)
    decreases m.count
  {
    hide Entries, PopFront;
    if m.count > 0 {
      FrontDropped(m);
      PopFrontKeeps(m);
      if m.buf[m.head].tick < m.idx + 2 - m.cap {
        PopFrontEntries(PopFront(m));
      }
    }
  }

  lemma PopFrontKeeps<V>(m: Mono<V>)
    requires WellShaped(m) && m.count > 0
    ensures var r := PopFront(m); r.idx == m.idx && r.cap == m.cap && r.count == m.count - 1
  {
  }

  ghost predicate FromWindow<V>(es: seq<Entry<V>>, xs: seq<V>, lo: nat) {
    forall i | 0 <= i < |es| :: lo <= es[i].tick < |xs| && es[i].value == xs[es[i].tick]
  }

  /** Strictly monotone in ticks and in values. */
  ghost predicate Rising<V>(le: (V, V) -> bool, es: seq<Entry<V>>) {
    forall i, j | 0 <= i < j < |es| :: es[i].tick < es[j].tick && !le(es[j].value, es[i].value)
  }

  /** An entry that is not older than tick `t` and not above the sample of `t`. */
  ghost predicate Dominated<V>(le: (V, V) -> bool, es: seq<Entry<V>>, t: nat, v: V) {
    exists i :: 0 <= i < |es| && es[i].tick >= t && le(es[i].value, v)
  }

  ghost predicate Dominates<V>(le: (V, V) -> bool, es: seq<Entry<V>>, xs: seq<V>, lo: nat) {
    forall t: nat | lo <= t < |xs| :: Dominated(le, es, t, xs[t])
  }

  /** What the entries are with respect to the samples so far. */
  ghost predicate Tracks<V>(le: (V, V) -> bool, es: seq<Entry<V>>, xs: seq<V>, lo: nat) {
    FromWindow(es, xs, lo) && Rising(le, es) && Dominates(le, es, xs, lo)
  }

  lemma {:induction false} TrimBackTrims<V(!new)>(le: (V, V) -> bool, es: seq<Entry<V>>, x: V)
    requires TotalPreorder(le) && Rising(le, es)
    ensures var r := TrimBack(le, es, x);
      && r <= es
      && (forall i | 0 <= i < |r| :: !le(x, r[i].value))
      && (forall i | |r| <= i < |es| :: le(x, es[i].value))
    decreases |es|
  {
    if es != [] {
      var n := |es| - 1;
      if le(x, es[n].value) {
        TrimBackTrims(le, es[..n], x);
      } else {
        assert le(es[n].value, x);
        forall i | 0 <= i < n ensures !le(x, es[i].value) {
          assert !le(es[n].value, es[i].value);
        }
      }
    }
  }

  lemma PushDominates<V(!new)>(le: (V, V) -> bool, es: seq<Entry<V>>, r: seq<Entry<V>>, xs: seq<V>, lo: nat, x: V)
    requires TotalPreorder(le) && Dominates(le, es, xs, lo)
    requires r <= es && forall i | |r| <= i < |es| :: le(x, es[i].value)
    ensures Dominates(le, r + [Entry(|xs|, x)], xs + [x], lo)
  {
    var es', xs' := r + [Entry(|xs|, x)], xs + [x];
    assert es'[|r|] == Entry(|xs|, x);
    forall t: nat | lo <= t < |xs'| ensures Dominated(le, es', t, xs'[t]) {
      if t < |xs| {
        assert Dominated(le, es, t, xs[t]);
        var i :| 0 <= i < |es| && es[i].tick >= t && le(es[i].value, xs[t]);
        if i < |r| { assert es'[i] == es[i]; } else { assert le(x, xs[t]); }
      }
    }
  }

  lemma PushRising<V(!new)>(le: (V, V) -> bool, es: seq<Entry<V>>, r: seq<Entry<V>>, xs: seq<V>, lo: nat, x: V)
    requires Rising(le, es) && FromWindow(es, xs, lo) && lo <= |xs| && r <= es
    requires forall i | 0 <= i < |r| :: !le(x, r[i].value)
    ensures Rising(le, r + [Entry(|xs|, x)]) && FromWindow(r + [Entry(|xs|, x)], xs + [x], lo)
  {
    var es' := r + [Entry(|xs|, x)];
    forall i, j | 0 <= i < j < |es'| ensures es'[i].tick < es'[j].tick && !le(es'[j].value, es'[i].value) {
      assert es'[i] == es[i];
      if j < |r| { assert es'[j] == es[j]; }
    }
  }

  lemma PushTracks<V(!new)>(le: (V, V) -> bool, es: seq<Entry<V>>, xs: seq<V>, lo: nat, x: V)
    requires TotalPreorder(le) && Tracks(le, es, xs, lo) && lo <= |xs|
    ensures Tracks(le, TrimBack(le, es, x) + [Entry(|xs|, x)], xs + [x], lo)
  {
    TrimBackTrims(le, es, x);
    var r := TrimBack(le, es, x);
    PushDominates(le, es, r, xs, lo, x);
    PushRising(le, es, r, xs, lo, x);
    hide Dominates, TrimBack, Rising, FromWindow;
  }

  /** Dropping old entries leaves a suffix. */
  lemma {:induction false} TrimFrontTrims<V>(es: seq<Entry<V>>, lo: int) returns (k: nat)
    ensures k <= |es| && TrimFront(es, lo) == es[k..] && forall i | 0 <= i < k :: es[i].tick < lo
    ensures k < |es| ==> es[k].tick >= lo
    decreases |es|
  {
    k := 0;
    if es != [] && es[0].tick < lo {
      var k' := TrimFrontTrims(es[1..], lo);
      k := k' + 1;
      assert es[1..][k'..] == es[k..];
      forall i | 0 <= i < k ensures es[i].tick < lo {
        if i > 0 { assert es[1..][i - 1] == es[i]; }
      }
      if k < |es| { assert es[1..][k'] == es[k]; }
    }
  }

  lemma SuffixFromWindow<V>(le: (V, V) -> bool, es: seq<Entry<V>>, k: nat, xs: seq<V>, lo: nat, lo': nat)
    requires k <= |es| && FromWindow(es, xs, lo) && Rising(le, es) && (k < |es| ==> es[k].tick >= lo')
    ensures FromWindow(es[k..], xs, lo')
  {
    var r := es[k..];
    forall i | 0 <= i < |r| ensures lo' <= r[i].tick < |xs| && r[i].value == xs[r[i].tick] {
      var e := es[k + i];
      if i > 0 { assert es[k].tick < e.tick; }
    }
  }

  lemma SuffixRising<V>(le: (V, V) -> bool, es: seq<Entry<V>>, k: nat)
    requires k <= |es| && Rising(le, es)
    ensures Rising(le, es[k..])
  {
    var r := es[k..];
    forall i, j | 0 <= i < j < |r| ensures r[i].tick < r[j].tick && !le(r[j].value, r[i].value) {
      var a, b := es[k + i], es[k + j];
      assert r[i] == a && r[j] == b;
    }
  }

  lemma SuffixDominates<V>(le: (V, V) -> bool, es: seq<Entry<V>>, k: nat, xs: seq<V>, lo: nat, lo': nat)
    requires k <= |es| && Dominates(le, es, xs, lo) && lo <= lo' && forall i | 0 <= i < k :: es[i].tick < lo'
    ensures Dominates(le, es[k..], xs, lo')
  {
    var r := es[k..];
    forall t: nat | lo' <= t < |xs| ensures Dominated(le, r, t, xs[t]) {
      assert Dominated(le, es, t, xs[t]);
      var i :| 0 <= i < |es| && es[i].tick >= t && le(es[i].value, xs[t]);
      assert i >= k;
      assert r[i - k] == es[i];
    }
  }

  lemma TrimFrontTracks<V(!new)>(le: (V, V) -> bool, es: seq<Entry<V>>, xs: seq<V>, lo: nat, lo': nat)
    requires Tracks(le, es, xs, lo) && lo <= lo'
    ensures Tracks(le, TrimFront(es, lo'), xs, lo')
  {
    var k := TrimFrontTrims(es, lo');
    SuffixFromWindow(le, es, k, xs, lo, lo');
    SuffixRising(le, es, k);
    SuffixDominates(le, es, k, xs, lo, lo');
  }

  /** The state after the samples `xs`. */
  function After<V>(le: (V, V) -> bool, period: nat, any: V, xs: seq<V>): (m: Mono<V>)
    ensures WellShaped(m) && m.cap == period + 1
    decreases |xs|
  {
    if xs == [] then Prepared(period, any)
    else
      var n := |xs| - 1;
      var m := After(le, period, any, xs[..n]);
      if m.count < m.cap then Update(le, m, xs[n]) else m
  }

  /** Ticks lie in a window, so there are at most `period` entries. */
  lemma {:induction false} RisingFits<V>(le: (V, V) -> bool, es: seq<Entry<V>>, lo: nat, hi: nat)
    requires Rising(le, es) && lo <= hi && forall i | 0 <= i < |es| :: lo <= es[i].tick < hi
    ensures |es| <= hi - lo
    decreases |es|
  {
    if es != [] {
      var n := |es| - 1;
      RisingFits(le, es[..n], lo, es[n].tick);
    }
  }

  lemma UpdateTracks<V(!new)>(le: (V, V) -> bool, m: Mono<V>, xs: seq<V>, x: V)
    requires TotalPreorder(le) && WellShaped(m) && m.cap >= 2 && m.idx == |xs|
    requires Tracks(le, Entries(m), xs, WindowStart(|xs|, m.cap - 1))
    ensures m.count < m.cap
    ensures var r := Update(le, m, x); Tracks(le, Entries(r), xs + [x], WindowStart(|xs| + 1, m.cap - 1))
  {
    var lo, lo' := WindowStart(|xs|, m.cap - 1), WindowStart(|xs| + 1, m.cap - 1);
    RisingFits(le, Entries(m), lo, |xs|);
    var m1 := PopBackLoop(le, m, x);
    var m2 := PushBack(m1, Entry(m.idx, x));
    var m3 := PopFrontLoop(m2);
    PopBackEntries(le, m, x);
    PushEntries(m1, Entry(m.idx, x));
    PopFrontEntries(m2);
    hide Entries, PopBackLoop, PushBack, PopFrontLoop, Tracks;
    PushTracks(le, Entries(m), xs, lo, x);
    TrimFrontTracks(le, Entries(m2), xs + [x], lo, lo');
    TrimFrontFrom(Entries(m2), m.idx + 2 - m.cap, lo');
    SameEntries(m3, m3.(idx := m3.idx + 1));
  }

  lemma SameEntries<V>(a: Mono<V>, b: Mono<V>)
    requires WellShaped(a) && b == a.(idx := b.idx)
    ensures WellShaped(b) && Entries(b) == Entries(a)
  {
  }

  /** A negative window start drops nothing more than zero does. */
  lemma {:induction false} TrimFrontFrom<V>(es: seq<Entry<V>>, lo: int, lo': nat)
    requires lo' == if lo < 0 then 0 else lo
    ensures TrimFront(es, lo) == TrimFront(es, lo')
    decreases |es|
  {
    if es != [] && es[0].tick < lo { TrimFrontFrom(es[1..], lo, lo'); }
  }

  lemma PreparedTracks<V(!new)>(le: (V, V) -> bool, period: nat, any: V)
    ensures Tracks(le, Entries(Prepared(period, any)), [], WindowStart(0, period))
  {
    assert Entries(Prepared(period, any)) == [];
  }

  lemma {:induction false} AfterTracks<V(!new)>(le: (V, V) -> bool, period: nat, any: V, xs: seq<V>)
    requires TotalPreorder(le) && period >= 1
    ensures var m := After(le, period, any, xs);
      m.idx == |xs| && m.count < m.cap && Tracks(le, Entries(m), xs, WindowStart(|xs|, period))
    decreases |xs|
  {
    hide Tracks, Update, Entries, TotalPreorder;
    if xs == [] {
      PreparedTracks(le, period, any);
    } else {
      var n := |xs| - 1;
      AfterTracks(le, period, any, xs[..n]);
      var m := After(le, period, any, xs[..n]);
      UpdateTracks(le, m, xs[..n], xs[n]);
      assert xs[..n] + [xs[n]] == xs;
      TracksFit(le, Update(le, m, xs[n]), xs, period);
    }
  }

  lemma TracksFit<V>(le: (V, V) -> bool, m: Mono<V>, xs: seq<V>, period: nat)
    requires WellShaped(m) && Tracks(le, Entries(m), xs, WindowStart(|xs|, period))
    ensures m.count <= period
  {
    RisingFits(le, Entries(m), WindowStart(|xs|, period), |xs|);
  }

  /** The front of the deque is the minimum of the last min(n, period) samples, and the most recent one. */
  ghost predicate IsLatestMin<V>(le: (V, V) -> bool, xs: seq<V>, lo: nat, tick: nat) {
    && lo <= tick < |xs|
    && (forall t | lo <= t < |xs| :: le(xs[tick], xs[t]))
    && (forall t | tick < t < |xs| :: !le(xs[t], xs[tick]))
  }

  lemma FrontIsMin<V(!new)>(le: (V, V) -> bool, es: seq<Entry<V>>, xs: seq<V>, lo: nat)
    requires TotalPreorder(le) && Tracks(le, es, xs, lo) && lo < |xs|
    ensures es != [] && IsLatestMin(le, xs, lo, es[0].tick) && es[0].value == xs[es[0].tick]
  {
    assert Dominated(le, es, lo, xs[lo]);
    forall t | lo <= t < |xs|
      ensures le(es[0].value, xs[t])
      ensures t > es[0].tick ==> !le(xs[t], es[0].value)
    {
      assert Dominated(le, es, t, xs[t]);
      var i :| 0 <= i < |es| && es[i].tick >= t && le(es[i].value, xs[t]);
      if i > 0 {
        assert !le(es[i].value, es[0].value);
        assert le(es[0].value, es[i].value);
      }
    }
  }

  /** Every run with a fixed period: the circular buffer never overflows, entries are strictly monotone, and
      the value read is the window's minimum at its most recent occurrence. */
  lemma RollingMinimum<V(!new)>(le: (V, V) -> bool, period: nat, any: V, xs: seq<V>)
    requires TotalPreorder(le) && period >= 1 && xs != []
    ensures var m := After(le, period, any, xs);
      var front := m.buf[m.head];
      && m.idx == |xs| && 0 < m.count <= period < m.cap && Rising(le, Entries(m))
      && IsLatestMin(le, xs, WindowStart(|xs|, period), front.tick) && front.value == xs[front.tick]
  {
    AfterTracks(le, period, any, xs);
    var m := After(le, period, any, xs);
    hide After;
    FrontIsMin(le, Entries(m), xs, WindowStart(|xs|, period));
    FrontDropped(m);
  }

  /** The maximum: the same machine for the reversed order. */
  lemma RollingMaximum<V(!new)>(le: (V, V) -> bool, period: nat, any: V, xs: seq<V>)
    requires TotalPreorder(le) && period >= 1 && xs != []
    ensures var m := After(Reversed(le), period, any, xs);
      var front := m.buf[m.head];
      && WindowStart(|xs|, period) <= front.tick < |xs| && front.value == xs[front.tick]
      && (forall t | WindowStart(|xs|, period) <= t < |xs| :: le(xs[t], front.value))
      && (forall t | front.tick < t < |xs| :: !le(front.value, xs[t]))
  {
    ReversedPreorder(le);
    RollingMinimum(Reversed(le), period, any, xs);
    hide After;
  }

  lemma ReversedPreorder<V(!new)>(le: (V, V) -> bool)
    requires TotalPreorder(le)
    ensures TotalPreorder(Reversed(le))
  {
  }

  /** An entry of the current tick is never dropped, so the deque is never empty when it is read. */
  lemma {:induction false} PopFrontStops<V>(m: Mono<V>)
    requires WellShaped(m) && m.cap >= 2 && m.count > 0 && m.buf[At(m.head, m.count - 1, m.cap)].tick == m.idx
    ensures PopFrontLoop(m).count > 0
    decreases m.count
  {
    if m.idx + 1 - m.buf[m.head].tick > m.cap - 1 {
      assert At(m.head, 0, m.cap) == m.head;
      assert m.count > 1;
      NextAt(m.head, m.count - 2, m.cap);
      PopFrontStops(PopFront(m));
    }
  }

  lemma UpdateNonEmpty<V>(le: (V, V) -> bool, m: Mono<V>, x: V)
    requires WellShaped(m) && m.cap >= 2 && m.count < m.cap
    ensures Update(le, m, x).count > 0
  {
    var m1 := PopBackLoop(le, m, x);
    AtIsRemainder(m1.head, m1.count, m1.cap);
    PopFrontStops(PushBack(m1, Entry(m.idx, x)));
  }

  /** The runtime's state in its own form.  `pops` counts the iterations of both loops over the whole run. */
  class MonoDequeState<V> {
    var buf: array<Entry<V>>
    var head: nat
    var count: nat
    var cap: nat
    var idx: nat
    ghost var pops: nat

    ghost function State(): Mono<V>
      reads this, buf
    {
      Mono(buf[..], head, count, cap, idx)
    }

    /** Not prepared yet, or prepared; every iteration of a loop so far removed one pushed sample, and a change
        of period drops the others without one. */
    ghost predicate Valid()
      reads this, buf
    {
      (if cap == 0 then count == 0 else WellShaped(State()) && cap >= 2) && pops + count <= idx
    }

    constructor (any: V)
      ensures Valid() && fresh(buf) && cap == 0 && idx == 0 && pops == 0
    {
      buf := new Entry<V>[0](_ => Entry(0, any));
      head, count, cap, idx, pops := 0, 0, 0, 0, 0;
    }

    method MonoInit(period: nat, any: V)
      requires Valid() && period >= 1
      modifies this
      ensures Valid() && idx == old(idx) && pops == old(pops) && (buf == old(buf) || fresh(buf))
      ensures State() == if old(cap) == period + 1 then old(State()) else Prepared(period, any).(idx := idx)
    {
      if cap != period + 1 {
        buf := new Entry<V>[period + 1](_ => Entry(0, any));
        head, count, cap := 0, 0, period + 1;
        assert buf[..] == seq(period + 1, _ => Entry(0, any));
      }
    }

    /** `UpdateRollingMin` for `le`, `UpdateRollingMax` for the reversed order. */
    method UpdateRolling(le: (V, V) -> bool, period: nat, any: V, x: V) returns (front: V)
      requires Valid() && period >= 1 && (cap == period + 1 ==> count < cap)
      modifies this, buf
      ensures Valid() && cap == period + 1 && (buf == old(buf) || fresh(buf))
      ensures State() == Update(le, if old(cap) == period + 1
        then old(State()) else Prepared(period, any).(idx := old(idx)), x)
      ensures front == State().buf[head].value
      ensures idx == old(idx) + 1
    {
      MonoInit(period, any);
      front := UpdatePrepared(le, x);
    }

    method UpdatePrepared(le: (V, V) -> bool, x: V) returns (front: V)
      requires Valid() && cap > 0 && count < cap
      modifies this, buf
      ensures Valid() && cap == old(cap) && buf == old(buf)
      ensures State() == Update(le, old(State()), x)
      ensures front == State().buf[head].value
      ensures idx == old(idx) + 1
    {
      UpdateNonEmpty(le, State(), x);
      PopBackWhile(le, x);
      Push(Entry(idx, x));
      PopFrontWhile();
      idx := idx + 1;
      front := buf[head].value;
    }

    method PopBackWhile(le: (V, V) -> bool, x: V)
      requires WellShaped(State())
      modifies this`count, this`pops
      ensures State() == PopBackLoop(le, old(State()), x) && pops + count == old(pops + count)
    {
      ghost var start := State();
      while count > 0 && le(x, buf[(head + count - 1) % cap].value)
        invariant WellShaped(State()) && State() == start.(count := count)
        invariant PopBackLoop(le, State(), x) == PopBackLoop(le, start, x)
        invariant pops + count == old(pops + count)
      {
        count, pops := count - 1, pops + 1;
      }
    }

    method PopFrontWhile()
      requires WellShaped(State())
      modifies this`head, this`count, this`pops
      ensures State() == PopFrontLoop(old(State())) && pops + count == old(pops + count)
    {
      ghost var start := State();
      while count > 0 && idx + 1 - buf[head].tick > cap - 1
        invariant WellShaped(State())
        invariant PopFrontLoop(State()) == PopFrontLoop(start)
        invariant pops + count == old(pops + count)
        decreases count
      {
        DropFront();
      }
    }

    method Push(e: Entry<V>)
      requires WellShaped(State()) && count < cap
      modifies this`count, buf
      ensures State() == PushBack(old(State()), e)
    {
      buf[(head + count) % cap] := e;
      count := count + 1;
    }

    method DropFront()
      requires WellShaped(State()) && count > 0
      modifies this`head, this`count, this`pops
      ensures State() == PopFront(old(State())) && pops == old(pops) + 1
    {
      head := (head + 1) % cap;
      count, pops := count - 1, pops + 1;
    }
  }
}

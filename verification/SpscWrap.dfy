/** The ring as it is compiled: 64-bit indices that wrap, compared by modular subtraction and mapped to
    slots by a mask.  For every power-of-two capacity from 2 to 2^63 it behaves, step by step and in what
    every call reports, as the ring with unbounded counters, however often its indices wrap. */
module SpscWrap {
  import opened Remainders
  import opened Spsc

  /** `w` holds the counters of `r` modulo 2^64, and is otherwise the same. */
  ghost predicate Wraps<T>(r: Ring<T>, w: Ring<T>) {
    && w.head == r.head % WORD && w.tail == r.tail % WORD
    && w.cachedTail == r.cachedTail % WORD && w.cachedHead == r.cachedHead % WORD
    && w.slots == r.slots && w.prod == r.prod && w.cons == r.cons
  }

  lemma {:induction false} Pow2Adds(j: nat, k: nat)
    ensures Pow2(j + k) == Pow2(j) * Pow2(k)
    decreases j
  {
    if j > 0 {
      Pow2Adds(j - 1, k);
      var p, q := Pow2(j - 1), Pow2(k);
      assert j + k - 1 == (j - 1) + k;
      assert 2 * (p * q) == (2 * p) * q;
    }
  }

  lemma Pow2OfWord()
    ensures Pow2(64) == WORD
  {
    assert Pow2(8) == 256;
    hide Pow2;
    Pow2Adds(8, 8);
    Pow2Adds(16, 16);
    Pow2Adds(32, 32);
  }

  lemma ModOfMod(a: nat, n: nat, m: nat)
    requires n > 0 && m > 0
    ensures n * m > 0 && (a % (n * m)) % n == a % n
  {
    var w := n * m;
    var q, r := a / w, a % w;
    var q1, s := r / n, r % n;
    assert a == w * q + r && r == n * q1 + s;
    assert w * q == n * (m * q);
    assert n * (m * q + q1) == n * (m * q) + n * q1;
    RemainderIs(a, n, m * q + q1, s);
  }

  lemma CapacityDividesWord(log2: nat)
    requires 1 <= log2 <= 63
    ensures 2 <= Pow2(log2) && 2 * Pow2(log2) <= WORD && Pow2(log2) * Pow2(64 - log2) == WORD
  {
    Pow2OfWord();
    Pow2Adds(log2, 64 - log2);
    var p, q := Pow2(log2), Pow2(64 - log2);
    assert p == 2 * Pow2(log2 - 1) && q == 2 * Pow2(63 - log2);
    assert p * q >= p * 2;
  }

  /** The mask picks the slot the counter names. */
  lemma SlotsAgree(log2: nat, i: nat)
    requires 1 <= log2 <= 63
    ensures Slot(Words(log2), i % WORD) == Slot(Counters(Pow2(log2)), i)
  {
    hide BitAnd, Pow2;
    CapacityDividesWord(log2);
    MaskIsRemainder(i % WORD, log2);
    ModOfMod(i, Pow2(log2), Pow2(64 - log2));
  }

  /** Modular subtraction recovers the distance of two counters less than 2^64 apart. */
  lemma DistancesAgree(h: nat, t: nat)
    requires t <= h < t + WORD
    ensures (h % WORD - t % WORD) % WORD == h - t
    ensures h % WORD == t % WORD <==> h == t
  {
    var q := t / WORD - h / WORD;
    assert h % WORD - t % WORD == WORD * q + (h - t);
    RemainderIs(h % WORD - t % WORD, WORD, q, h - t);
  }

  lemma SuccsAgree(i: nat)
    ensures (i % WORD + 1) % WORD == (i + 1) % WORD
  {
  }

  lemma StartSimulates<T>(log2: nat, r: Ring<T>, w: Ring<T>, a: Action<T>, pushed: seq<T>, popped: seq<T>)
    requires 1 <= log2 <= 63 && Inv(Pow2(log2), r, pushed, popped) && Wraps(r, w)
    requires a.StartPush? || a.StartPop?
    ensures var (r', es) := Next(Counters(Pow2(log2)), r, a);
      var (w', es') := Next(Words(log2), w, a);
      es' == es && Wraps(r', w')
  {
    hide BitAnd, Pow2;
    CapacityDividesWord(log2);
    DistancesAgree(r.head, r.cachedTail);
    DistancesAgree(r.cachedHead, r.tail);
  }

  lemma ProducerSimulates<T>(log2: nat, r: Ring<T>, w: Ring<T>, pushed: seq<T>, popped: seq<T>)
    requires 1 <= log2 <= 63 && Inv(Pow2(log2), r, pushed, popped) && Wraps(r, w)
    ensures var (r', es) := StepPush(Counters(Pow2(log2)), r);
      var (w', es') := StepPush(Words(log2), w);
      es' == es && Wraps(r', w')
  {
    hide BitAnd, Pow2;
    CapacityDividesWord(log2);
    DistancesAgree(r.head, r.tail);
    SlotsAgree(log2, r.head);
    SuccsAgree(r.head);
  }

  lemma ConsumerSimulates<T>(log2: nat, r: Ring<T>, w: Ring<T>, pushed: seq<T>, popped: seq<T>)
    requires 1 <= log2 <= 63 && Inv(Pow2(log2), r, pushed, popped) && Wraps(r, w)
    ensures var (r', es) := StepPop(Counters(Pow2(log2)), r);
      var (w', es') := StepPop(Words(log2), w);
      es' == es && Wraps(r', w')
  {
    hide BitAnd, Pow2;
    CapacityDividesWord(log2);
    DistancesAgree(r.head, r.tail);
    SlotsAgree(log2, r.tail);
    SuccsAgree(r.tail);
  }

  lemma StepSimulates<T>(log2: nat, r: Ring<T>, w: Ring<T>, a: Action<T>, pushed: seq<T>, popped: seq<T>)
    requires 1 <= log2 <= 63 && Inv(Pow2(log2), r, pushed, popped) && Wraps(r, w)
    ensures var (r', es) := Next(Counters(Pow2(log2)), r, a);
      var (w', es') := Next(Words(log2), w, a);
      es' == es && Wraps(r', w')
  {
    hide StepPush, StepPop, Wraps, Inv;
    if a.StepProducer? {
      ProducerSimulates(log2, r, w, pushed, popped);
    } else if a.StepConsumer? {
      ConsumerSimulates(log2, r, w, pushed, popped);
    } else {
      StartSimulates(log2, r, w, a, pushed, popped);
    }
  }

  /** Whole runs: the word-indexed ring reports exactly what the counter-indexed ring reports, in every
      interleaving of any length. */
  lemma {:induction false} WordsSimulateCounters<T>(log2: nat, r0: Ring<T>, w0: Ring<T>, acts: seq<Action<T>>,
                                                    pushed: seq<T>, popped: seq<T>)
    requires 1 <= log2 <= 63 && Inv(Pow2(log2), r0, pushed, popped) && Wraps(r0, w0)
    ensures var (r, trace) := Exec(Counters(Pow2(log2)), r0, acts);
      var (w, trace') := Exec(Words(log2), w0, acts);
      && trace' == trace && Wraps(r, w)
      && Inv(Pow2(log2), r, pushed + PushedIn(trace), popped + PoppedIn(trace))
  {
    var n := Pow2(log2);
    InvSize(n, r0, pushed, popped);
    hide Next, Inv, Pow2;
    ExecKeepsInv(n, r0, acts, pushed, popped);
    if acts != [] {
      var k := |acts| - 1;
      WordsSimulateCounters(log2, r0, w0, acts[..k], pushed, popped);
      var (r, trace) := Exec(Counters(n), r0, acts[..k]);
      var w := Exec(Words(log2), w0, acts[..k]).0;
      StepSimulates(log2, r, w, acts[k], pushed + PushedIn(trace), popped + PoppedIn(trace));
    }
  }

  /** From an empty ring, every run over words pops a prefix of what it pushed and holds the rest. */
  lemma EveryWordRun<T>(log2: nat, zero: T, acts: seq<Action<T>>)
    requires 1 <= log2 <= 63
    ensures var (w, trace) := Exec(Words(log2), Fresh(Words(log2), zero), acts);
      var pushed, popped := PushedIn(trace), PoppedIn(trace);
      && popped <= pushed && |pushed| - |popped| == Distance(Words(log2), w.head, w.tail) <= Pow2(log2)
      && (forall k | |popped| <= k < |pushed| :: w.slots[Slot(Words(log2), k % WORD)] == pushed[k])
      && !Conflict(Words(log2), w)
  {
    var n := Pow2(log2);
    hide BitAnd, Pow2;
    CapacityDividesWord(log2);
    var r0 := Fresh(Counters(n), zero);
    assert Fresh(Words(log2), zero).slots == r0.slots;
    WordsSimulateCounters(log2, r0, Fresh(Words(log2), zero), acts, [], []);
    EveryInterleaving(n, zero, acts);
    var (r, trace) := Exec(Counters(n), r0, acts);
    DistancesAgree(r.head, r.tail);
    forall k | |PoppedIn(trace)| <= k < |PushedIn(trace)|
      ensures Slot(Words(log2), k % WORD) == k % n
    {
      SlotsAgree(log2, k);
    }
    SlotsAgree(log2, r.head);
    SlotsAgree(log2, r.tail);
  }

  /** A call with no step of the other thread in between; steps after its return change nothing. */
  function PushCall<T>(value: T): seq<Action<T>> {
    [StartPush(value), StepProducer, StepProducer, StepProducer]
  }

  function PopCall<T>(): seq<Action<T>> {
    [StartPop, StepConsumer, StepConsumer, StepConsumer]
  }

  lemma ExecFour<T>(ix: Indexing, r: Ring<T>, a: Action<T>, b: Action<T>)
    requires |r.slots| == Capacity(ix) > 0
    ensures var (r1, t1) := Next(ix, r, a);
      var (r2, t2) := Next(ix, r1, b);
      var (r3, t3) := Next(ix, r2, b);
      var (r4, t4) := Next(ix, r3, b);
      Exec(ix, r, [a, b, b, b]) == (r4, [] + t1 + t2 + t3 + t4)
  {
    hide Next;
    var acts := [a, b, b, b];
    assert acts[..3] == [a, b, b] && [a, b, b][..2] == [a, b] && [a, b][..1] == [a] && [a][..0] == [];
    assert Exec(ix, r, []) == (r, []);
    assert Exec(ix, r, [a]) == (Next(ix, r, a).0, [] + Next(ix, r, a).1);
    var (r1, t1) := Exec(ix, r, [a]);
    assert Exec(ix, r, [a, b]) == (Next(ix, r1, b).0, t1 + Next(ix, r1, b).1);
    var (r2, t2) := Exec(ix, r, [a, b]);
    assert Exec(ix, r, [a, b, b]) == (Next(ix, r2, b).0, t2 + Next(ix, r2, b).1);
  }

  lemma OneEvent<T>(e: Event<T>)
    ensures [] + [] + [e] + [] + [] == [e]
    ensures [] + [] + [] + [e] + [] == [e]
    ensures [] + [] + [] + [] + [e] == [e]
  {
  }

  /** What a push alone comes to. */
  lemma PushAlone<T>(ix: Indexing, r: Ring<T>, value: T)
    requires |r.slots| == Capacity(ix) > 0 && r.prod.PIdle?
    ensures var full := Distance(ix, r.head, r.cachedTail) == Capacity(ix);
      var seen := if full then r.(cachedTail := r.tail) else r;
      Exec(ix, r, PushCall(value)) ==
        if Distance(ix, seen.head, seen.cachedTail) == Capacity(ix) then (seen, [PushFailed])
        else (seen.(slots := seen.slots[Slot(ix, seen.head) := value], head := Succ(ix, seen.head)), [Pushed(value)])
  {
    hide Distance, Slot, Succ, Capacity, Exec;
    ExecFour(ix, r, StartPush(value), StepProducer);
    OneEvent<T>(PushFailed);
    OneEvent(Pushed(value));
  }

  lemma PopAlone<T>(ix: Indexing, r: Ring<T>)
    requires |r.slots| == Capacity(ix) > 0 && r.cons.CIdle?
    ensures var seen := if r.tail == r.cachedHead then r.(cachedHead := r.head) else r;
      Exec(ix, r, PopCall()) ==
        if seen.tail == seen.cachedHead then (seen, [PopFailed])
        else (seen.(tail := Succ(ix, seen.tail)), [Popped(seen.slots[Slot(ix, seen.tail)])])
  {
    hide Distance, Slot, Succ, Capacity, Exec;
    ExecFour(ix, r, StartPop, StepConsumer);
    OneEvent<T>(PopFailed);
    var seen := if r.tail == r.cachedHead then r.(cachedHead := r.head) else r;
    OneEvent(Popped(seen.slots[Slot(ix, seen.tail)]));
  }

  lemma PushOutcome<T>(n: nat, r: Ring<T>, value: T, pushed: seq<T>, popped: seq<T>)
    requires Inv(n, r, pushed, popped) && r.prod.PIdle?
    ensures var (r', trace) := Exec(Counters(n), r, PushCall(value));
      && trace == [if r.head < r.tail + n then Pushed(value) else PushFailed]
      && PushedIn(trace) == (if r.head < r.tail + n then [value] else []) && PoppedIn(trace) == []
  {
    hide Exec;
    PushAlone(Counters(n), r, value);
    var e := Exec(Counters(n), r, PushCall(value)).1[0];
    assert [e][..0] == [];
  }

  lemma PopOutcome<T>(n: nat, r: Ring<T>, pushed: seq<T>, popped: seq<T>)
    requires Inv(n, r, pushed, popped) && r.cons.CIdle?
    ensures var (r', trace) := Exec(Counters(n), r, PopCall());
      && trace == [if r.tail < r.head then Popped(pushed[r.tail]) else PopFailed]
      && PoppedIn(trace) == (if r.tail < r.head then [pushed[r.tail]] else []) && PushedIn(trace) == []
  {
    hide Exec;
    PopAlone(Counters(n), r);
    var e := Exec(Counters(n), r, PopCall()).1[0];
    assert [e][..0] == [];
  }

  /** The compiled push, run alone: it succeeds exactly when the ring is not full, and appends. */
  lemma WordPush<T>(log2: nat, r: Ring<T>, w: Ring<T>, value: T, pushed: seq<T>, popped: seq<T>) returns (r': Ring<T>)
    requires 1 <= log2 <= 63 && Inv(Pow2(log2), r, pushed, popped) && Wraps(r, w) && w.prod.PIdle?
    ensures |w.slots| == Pow2(log2)
    ensures var ok := |pushed| - |popped| < Pow2(log2);
      var (w', trace) := Exec(Words(log2), w, PushCall(value));
      && trace == [if ok then Pushed(value) else PushFailed]
      && Inv(Pow2(log2), r', pushed + (if ok then [value] else []), popped) && Wraps(r', w')
  {
    var n := Pow2(log2);
    InvSize(n, r, pushed, popped);
    var trace: seq<Event<T>>;
    r', trace := Exec(Counters(n), r, PushCall(value)).0, Exec(Counters(n), r, PushCall(value)).1;
    WordsSimulateCounters(log2, r, w, PushCall(value), pushed, popped);
    PushOutcome(n, r, value, pushed, popped);
    assert |pushed| == r.head && |popped| == r.tail;
    assert popped + [] == popped;
  }

  lemma WordPop<T>(log2: nat, r: Ring<T>, w: Ring<T>, pushed: seq<T>, popped: seq<T>) returns (r': Ring<T>)
    requires 1 <= log2 <= 63 && Inv(Pow2(log2), r, pushed, popped) && Wraps(r, w) && w.cons.CIdle?
    ensures |w.slots| == Pow2(log2)
    ensures var ok := |popped| < |pushed|;
      var (w', trace) := Exec(Words(log2), w, PopCall());
      && trace == [if ok then Popped(pushed[|popped|]) else PopFailed]
      && Inv(Pow2(log2), r', pushed, popped + (if ok then [pushed[|popped|]] else [])) && Wraps(r', w')
  {
    var n := Pow2(log2);
    InvSize(n, r, pushed, popped);
    var trace: seq<Event<T>>;
    r', trace := Exec(Counters(n), r, PopCall()).0, Exec(Counters(n), r, PopCall()).1;
    WordsSimulateCounters(log2, r, w, PopCall(), pushed, popped);
    PopOutcome(n, r, pushed, popped);
    assert |pushed| == r.head && |popped| == r.tail;
    assert pushed + [] == pushed;
  }

  /** `try_push` and `try_pop` as one thread runs them, in place on the slots. */
  class SpscRing<T> {
    const log2: nat
    const slots: array<T>
    var head: nat
    var tail: nat
    var cachedTail: nat
    var cachedHead: nat
    ghost var pushed: seq<T>
    ghost var popped: seq<T>
    ghost var counters: Ring<T>

    ghost function State(): Ring<T>
      reads this, slots
    {
      Ring(head, tail, cachedTail, cachedHead, slots[..], PIdle, CIdle)
    }

    ghost predicate Valid()
      reads this, slots
    {
      1 <= log2 <= 63 && Inv(Pow2(log2), counters, pushed, popped) && Wraps(counters, State())
    }

    constructor (k: nat, zero: T)
      requires 1 <= k <= 63
      ensures Valid() && fresh(slots) && log2 == k && pushed == [] && popped == []
      ensures State() == Fresh(Words(k), zero)
    {
      log2 := k;
      slots := new T[Pow2(k)](_ => zero);
      head, tail, cachedTail, cachedHead := 0, 0, 0, 0;
      pushed, popped := [], [];
      counters := Fresh(Counters(Pow2(k)), zero);
      new;
      assert slots[..] == Fresh(Words(k), zero).slots == counters.slots;
    }

    /** The call is the push's atomic steps with no step of the consumer between them. */
    method TryPush(value: T) returns (ok: bool)
      requires Valid()
      modifies this, slots
      ensures Valid() && popped == old(popped)
      ensures State() == Exec(Words(log2), old(State()), PushCall(value)).0
      ensures ok <==> old(|pushed| - |popped|) < Pow2(log2)
      ensures pushed == old(pushed) + if ok then [value] else []
    {
      ghost var before := State();
      ghost var r := WordPush(log2, counters, before, value, pushed, popped);
      PushAlone(Words(log2), before, value);
      var ix := Words(log2);
      assert Capacity(ix) == slots.Length;
      hide BitAnd, Pow2, Inv, Exec, Wraps, Slot, Distance, Succ, Capacity;
      ok := true;
      if Distance(ix, head, cachedTail) == Capacity(ix) {
        cachedTail := tail;
        if Distance(ix, head, cachedTail) == Capacity(ix) {
          ok := false;
        }
      }
      if ok {
        slots[Slot(ix, head)] := value;
        head := Succ(ix, head);
      }
      counters, pushed := r, pushed + if ok then [value] else [];
    }

    method TryPop() returns (out: Event<T>)
      requires Valid()
      modifies this
      ensures Valid() && pushed == old(pushed)
      ensures State() == Exec(Words(log2), old(State()), PopCall()).0
      ensures out == if old(|popped| < |pushed|) then Popped(old(pushed[|popped|])) else PopFailed
      ensures popped == old(popped) + if out.Popped? then [out.value] else []
    {
      ghost var before := State();
      ghost var r := WordPop(log2, counters, before, pushed, popped);
      PopAlone(Words(log2), before);
      var ix := Words(log2);
      assert Capacity(ix) == slots.Length;
      hide BitAnd, Pow2, Inv, Exec, Wraps, Slot, Distance, Succ, Capacity;
      var ready := true;
      if tail == cachedHead {
        cachedHead := head;
        if tail == cachedHead {
          ready := false;
        }
      }
      if ready {
        out := Popped(slots[Slot(ix, tail)]);
        tail := Succ(ix, tail);
      } else {
        out := PopFailed;
      }
      counters, popped := r, popped + if out.Popped? then [out.value] else [];
    }
  }
}

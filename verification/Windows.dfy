/** Sliding windows held in a circular buffer that is written at its head. */
module Windows {

  /** While the buffer fills, the head is where the next sample goes, right after the last one. */
  predicate RingShaped<T>(buffer: seq<T>, head: nat, count: nat) {
    head < |buffer| && count <= |buffer| && (count < |buffer| ==> head == count)
  }

  /** The samples in the ring, oldest first. */
  function WindowOf<T>(buffer: seq<T>, head: nat, count: nat): (ws: seq<T>)
    requires RingShaped(buffer, head, count)
    ensures |ws| == count
  {
    if count < |buffer| then buffer[..count] else buffer[head..] + buffer[..head]
  }

  function NextHead(head: nat, capacity: nat): (h: nat)
    requires capacity > 0
    ensures h < capacity
  {
    (head + 1) % capacity
  }

  lemma NextHeadWraps(head: nat, capacity: nat)
    requires head < capacity
    ensures NextHead(head, capacity) == if head + 1 < capacity then head + 1 else 0
  {
  }

  /** The count after one more sample. */
  function NextCount(count: nat, capacity: nat): nat {
    if count == capacity then count else count + 1
  }

  /** What leaves the window when it is full, and stays. */
  function Kept<T>(ws: seq<T>, capacity: nat): seq<T>
    requires capacity > 0
  {
    if |ws| == capacity then ws[1..] else ws
  }

  /** Writing a sample at the head moves the window by one. */
  lemma WriteMovesWindow<T>(buffer: seq<T>, head: nat, count: nat, x: T)
    requires RingShaped(buffer, head, count)
    ensures var n := |buffer|;
      && RingShaped(buffer[head := x], NextHead(head, n), NextCount(count, n))
      && WindowOf(buffer[head := x], NextHead(head, n), NextCount(count, n)) ==
         Kept(WindowOf(buffer, head, count), n) + [x]
      && (count == n ==> WindowOf(buffer, head, count) == [buffer[head]] + Kept(WindowOf(buffer, head, count), n))
  {
    var n := |buffer|;
    NextHeadWraps(head, n);
    hide NextHead;
    if count == n {
      SlideWindow(buffer, head, x);
    } else if count + 1 < n {
      assert buffer[head := x][..count + 1] == buffer[..count] + [x];
    } else {
      assert buffer[head := x] == buffer[..count] + [x];
    }
  }

  lemma SlideWindow<T>(buffer: seq<T>, head: nat, x: T)
    requires head < |buffer|
    ensures var n := |buffer|;
      var h := if head + 1 < n then head + 1 else 0;
      var ws := WindowOf(buffer, head, n);
      WindowOf(buffer[head := x], h, n) == ws[1..] + [x] && ws == [buffer[head]] + ws[1..]
  {
    var after, ws := buffer[head := x], WindowOf(buffer, head, |buffer|);
    assert ws[0] == buffer[head];
    if head + 1 < |buffer| {
      assert after[head + 1..] == buffer[head + 1..];
      assert after[..head + 1] == buffer[..head] + [x];
      assert ws[1..] == buffer[head + 1..] + buffer[..head];
    } else {
      assert ws[1..] == buffer[..head];
      assert after == buffer[..head] + [x];
    }
  }

  /** The index of the first of the last `period` samples among `n`. */
  function WindowStart(n: nat, period: nat): nat {
    if n < period then 0 else n - period
  }

  lemma HistoryMovesWindow<T>(xs: seq<T>, period: nat)
    requires xs != [] && period > 0
    ensures var n := |xs| - 1;
      xs[WindowStart(|xs|, period)..] == Kept(xs[..n][WindowStart(n, period)..], period) + [xs[n]]
  {
    var n := |xs| - 1;
    var a, b := WindowStart(n, period), WindowStart(|xs|, period);
    assert xs[..n][a..] == xs[a..n];
    assert xs[b..] == xs[b..n] + [xs[n]];
    if n >= period { assert xs[a..n][1..] == xs[b..n]; }
  }
}

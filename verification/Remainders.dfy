/** Facts about remainders that circular buffers rest on. */
module Remainders {

  lemma RemainderIs(a: int, m: int, q: int, r: int)
    requires m > 0 && a == m * q + r && 0 <= r < m
    ensures a % m == r
  {
    var d := a / m - q;
    assert a % m - r == -(m * d);
  }

  /** Two counters less than `n` apart never share a place modulo `n`. */
  lemma PlacesApart(n: nat, a: nat, b: nat)
    requires n > 0 && a < b < a + n
    ensures a % n != b % n
  {
    var r := b - a + a % n;
    assert a == n * (a / n) + a % n;
    if r < n {
      RemainderIs(b, n, a / n, r);
    } else {
      assert n * (a / n + 1) == n * (a / n) + n;
      RemainderIs(b, n, a / n + 1, r - n);
    }
  }
}

/** Real arithmetic the numeric modules share; products are named so that proofs can treat them as opaque terms. */
module Reals {
  function Times(a: real, b: real): real {
    a * b
  }

  lemma Commutes(a: real, b: real)
    ensures Times(a, b) == Times(b, a)
  {
  }

  lemma PositiveProduct(a: real, b: real)
    requires a > 0.0 && b > 0.0
    ensures Times(a, b) > 0.0
  {
  }

  /** A square root: a number's only where it is not negative. */
  ghost predicate IsSqrt(sqrt: real -> real) {
    forall u: real :: u >= 0.0 ==> sqrt(u) >= 0.0 && Times(sqrt(u), sqrt(u)) == u
  }

  lemma SquareNonZero(x: real)
    ensures Times(x, x) >= 0.0
    ensures Times(x, x) != 0.0 <==> x != 0.0
  {
    if x > 0.0 { PositiveProduct(x, x); }
    if x < 0.0 {
      PositiveProduct(0.0 - x, 0.0 - x);
      assert (0.0 - x) * (0.0 - x) == x * x;
    }
  }
}

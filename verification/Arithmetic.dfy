/** Small facts about division and rounding that several components share. */
module Arithmetic {

  /** A quotient and a remainder in range are the ones Dafny's operators give. */
  lemma {:induction false} ModIsUnique(x: int, n: int, q: int, r: int)
    requires n >= 1 && x == q * n + r && 0 <= r < n
    ensures x % n == r && x / n == q
  {
    var d := q - x / n;
    assert d * n == x % n - r by {
      assert x == x / n * n + x % n;
      assert d * n == q * n - x / n * n;
    }
    MultipleIsFar(d, n);
  }

  lemma {:induction false} MultipleIsFar(d: int, n: int)
    requires n >= 1
    ensures d >= 1 ==> d * n >= n
    ensures d <= -1 ==> d * n <= -n
  {
  }

  /** The C conversion from a floating-point value to an integer: truncation toward zero. */
  function Truncate(x: real): int {
    if x >= 0.0 then x.Floor else -((-x).Floor)
  }

  function AbsReal(x: real): real {
    if x < 0.0 then -x else x
  }

  /** Truncation goes towards zero, by less than one. */
  lemma {:induction false} TruncateTowardsZero(x: real)
    ensures x >= 0.0 ==> 0.0 <= Truncate(x) as real <= x < Truncate(x) as real + 1.0
    ensures x <= 0.0 ==> Truncate(x) as real - 1.0 < x <= Truncate(x) as real <= 0.0
  {
    assert x > 0.0 ==> x.Floor >= 0;
    assert x < 0.0 ==> (-x).Floor >= 0;
  }
}

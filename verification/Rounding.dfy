/** Decimal rounding over the reals. */
module Rounding {

  /** Half away from zero, as math.Round. */
  function Round(x: real): int {
    if x >= 0.0 then (x + 0.5).Floor else -((-x + 0.5).Floor)
  }

  lemma RoundIsNear(x: real)
    ensures -0.5 <= Round(x) as real - x <= 0.5
  {
  }

  lemma RoundIsMonotone(x: real, y: real)
    requires x <= y
    ensures Round(x) <= Round(y)
  {
  }

  lemma RoundFixesIntegers(n: int)
    ensures Round(n as real) == n
  {
  }

  /** Only a tie at or below zero rounds an integer-plus-half-open-half down. */
  lemma RoundAround(m: int, e: real)
    requires -0.5 <= e < 0.5
    ensures Round(m as real + e) == if e == -0.5 && m <= 0 then m - 1 else m
  {
  }

  predicate Tenths(x: real) {
    (x * 10.0).Floor as real == x * 10.0
  }

  predicate Hundredths(x: real) {
    (x * 100.0).Floor as real == x * 100.0
  }

  /** `y` is `x` to two decimals, a tie going away from zero. */
  predicate ToHundredths(x: real, y: real) {
    && Hundredths(y) && -0.005 <= y - x <= 0.005
    && (y - x == 0.005 ==> x > 0.0) && (y - x == -0.005 ==> x < 0.0)
  }

  lemma RoundedToHundredths(x: real)
    ensures ToHundredths(x, Round(x * 100.0) as real / 100.0)
  {
    var n, y := Round(x * 100.0), Round(x * 100.0) as real / 100.0;
    RoundIsNear(x * 100.0);
    assert y * 100.0 == n as real;
  }

  lemma OneRounding(x: real, y: real, z: real)
    requires ToHundredths(x, y) && ToHundredths(x, z)
    ensures y == z
  {
    var m, n := (y * 100.0).Floor, (z * 100.0).Floor;
    assert m as real == y * 100.0 && n as real == z * 100.0;
    assert -1.0 <= (m - n) as real <= 1.0;
  }

  lemma TenthsAreHundredths(x: real)
    requires Tenths(x)
    ensures Hundredths(x)
  {
    var n := (x * 10.0).Floor;
    assert x * 100.0 == (n * 10) as real;
  }
}

/** Exact decimal arithmetic: powers of ten, truncation, half-up rounding. */
module Decimals {

  function Pow10(n: nat): (r: real)
    ensures r >= 1.0
    ensures n > 0 ==> r >= 10.0
  {
    if n == 0 then 1.0 else 10.0 * Pow10(n - 1)
  }

  /** `Decimal.scaleb`: multiplication by a power of ten, of either sign. */
  function ScaleB(x: real, exponent: int): real {
    if exponent >= 0 then x * Pow10(exponent) else x / Pow10(-exponent)
  }

  /** `int(Decimal)`: towards zero. */
  function Truncate(x: real): int {
    if x >= 0.0 then x.Floor else -((-x).Floor)
  }

  /** ROUND_HALF_UP to an integer: halves away from zero. */
  function RoundHalfUp(x: real): int {
    if x >= 0.0 then (x + 0.5).Floor else -((-x + 0.5).Floor)
  }

  /** What rounding means: a nearest integer, and the one further from zero at a tie. */
  lemma RoundHalfUpIsNearest(x: real)
    ensures -0.5 <= RoundHalfUp(x) as real - x <= 0.5
    ensures RoundHalfUp(x) as real - x == 0.5 ==> x >= 0.0
    ensures RoundHalfUp(x) as real - x == -0.5 ==> x < 0.0
  {
  }

  lemma RoundHalfUpMonotone(x: real, y: real)
    requires x <= y
    ensures RoundHalfUp(x) <= RoundHalfUp(y)
  {
    if x >= 0.0 {
      assert x + 0.5 <= y + 0.5;
      assert (x + 0.5).Floor <= (y + 0.5).Floor;
    } else if y < 0.0 {
      assert -y + 0.5 <= -x + 0.5;
      assert (-y + 0.5).Floor <= (-x + 0.5).Floor;
    }
  }

  lemma RoundHalfUpOfInt(n: int)
    ensures RoundHalfUp(n as real) == n && Truncate(n as real) == n
  {
    if n >= 0 {
      assert (n as real + 0.5).Floor == n;
    } else {
      assert ((-n) as real + 0.5).Floor == -n;
      assert -(n as real) == (-n) as real;
    }
  }

  lemma CancelFactor(x: real, p: real)
    requires p > 0.0
    ensures x / p * p == x && x * p / p == x
  {
  }

  lemma ScaleBInverse(x: real, e: int)
    ensures ScaleB(ScaleB(x, e), -e) == x
  {
    CancelFactor(x, Pow10(if e >= 0 then e else -e));
  }
}

/**
 * Rounding to two decimal places, as `round(x, 2)` is used for every stored
 * average and every stored difference.  Values are exact reals; the rule
 * chosen is Python's documented one: to the nearest hundredth, ties to the
 * even hundredth.
 */
module Rounding {

  /** The integer nearest to `x`; a tie goes to the even neighbour. */
  function RoundHalfEven(x: real): (n: int)
    ensures x - 1.0 / 2.0 <= n as real <= x + 1.0 / 2.0
    ensures n as real == x - 1.0 / 2.0 ==> n % 2 == 0
    ensures n as real == x + 1.0 / 2.0 ==> n % 2 == 0
  {
    var f := x.Floor;
    var frac := x - f as real;
    if frac < 1.0 / 2.0 then f
    else if frac > 1.0 / 2.0 then f + 1
    else if f % 2 == 0 then f
    else f + 1
  }

  /** The number of hundredths `Round2(x)` stands for. */
  function Hundredths(x: real): int {
    RoundHalfEven(x * 100.0)
  }

  /** `round(x, 2)`: `x` to the nearest hundredth, ties to even. */
  function Round2(x: real): real {
    Hundredths(x) as real / 100.0
  }

  /** Rounding moves a value by at most half a hundredth. */
  lemma Round2Error(x: real)
    ensures -1.0 / 200.0 <= Round2(x) - x <= 1.0 / 200.0
  {
  }

  /** A whole number of hundredths is left as it is. */
  lemma Round2OfHundredths(k: int)
    ensures Round2(k as real / 100.0) == k as real / 100.0
  {
  }

  /** Rounding an already rounded value changes nothing. */
  lemma Round2Idempotent(x: real)
    ensures Round2(Round2(x)) == Round2(x)
  {
  }

  /** A rounded difference is negative exactly when the difference is below minus half a hundredth. */
  lemma Round2Negative(x: real)
    ensures Round2(x) < 0.0 <==> x < -1.0 / 200.0
  {
  }

  /** Rounding never reverses the order of two values. */
  lemma Round2Monotone(x: real, y: real)
    requires x <= y
    ensures Round2(x) <= Round2(y)
  {
    if x < y {
      var m, n := Hundredths(x), Hundredths(y);
      assert m as real - 1.0 / 2.0 <= x * 100.0 < y * 100.0 <= n as real + 1.0 / 2.0;
      assert m < n + 1;
    }
  }
}

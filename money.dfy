/**
 * Money amounts. The store keeps every amount as a decimal string with two
 * digits after the point; the code parses them into numbers, computes, and
 * writes them back with `toFixed(2)`. Here an amount is an exact `real`, and
 * `Round2` is `toFixed(2)`: round to the nearest cent, a tie going away from
 * zero (ECMAScript rounds the magnitude half up and puts the sign back).
 */
module Money {

  /** The amount is a whole number of cents. */
  predicate IsCents(x: real)
  {
    (x * 100.0).Floor as real == x * 100.0
  }

  /** Round a non-negative amount to the nearest cent, ties upwards. */
  function RoundHalfUp(x: real): real
  {
    (x * 100.0 + 0.5).Floor as real / 100.0
  }

  /** `x.toFixed(2)`, read back as a number. */
  function Round2(x: real): real
  {
    if x < 0.0 then -RoundHalfUp(-x) else RoundHalfUp(x)
  }

  lemma RoundHalfUpFacts(x: real)
    ensures IsCents(RoundHalfUp(x))
    ensures x - 0.005 < RoundHalfUp(x) <= x + 0.005
  {
    var n := (x * 100.0 + 0.5).Floor;
    assert RoundHalfUp(x) * 100.0 == n as real;
  }

  /** `toFixed(2)` yields whole cents, at most half a cent away from its input. */
  lemma Round2Close(x: real)
    ensures IsCents(Round2(x))
    ensures -0.005 <= Round2(x) - x <= 0.005
  {
    if x < 0.0 {
      RoundHalfUpFacts(-x);
      var n := (-x * 100.0 + 0.5).Floor;
      assert Round2(x) * 100.0 == -(n as real);
      assert (Round2(x) * 100.0).Floor == -n;
    } else {
      RoundHalfUpFacts(x);
    }
  }

  /** An amount that is already whole cents is left as it is. */
  lemma Round2OfCents(x: real)
    requires IsCents(x)
    ensures Round2(x) == x
  {
    var n := (x * 100.0).Floor;
    if x < 0.0 {
      assert (-x * 100.0 + 0.5).Floor == -n;
    } else {
      assert (x * 100.0 + 0.5).Floor == n;
    }
  }

  /** Rounding twice is rounding once. */
  lemma Round2Idempotent(x: real)
    ensures Round2(Round2(x)) == Round2(x)
  {
    Round2Close(x);
    Round2OfCents(Round2(x));
  }

  /** Rounding never reorders two amounts. */
  lemma Round2Monotone(x: real, y: real)
    requires x <= y
    ensures Round2(x) <= Round2(y)
  {
    if x < 0.0 && y < 0.0 {
      assert (-y * 100.0 + 0.5).Floor <= (-x * 100.0 + 0.5).Floor;
    } else if 0.0 <= x {
      assert (x * 100.0 + 0.5).Floor <= (y * 100.0 + 0.5).Floor;
    } else {
      assert Round2(x) <= 0.0 <= Round2(y);
    }
  }

  /** A non-negative amount stays non-negative once rounded. */
  lemma Round2NonNegative(x: real)
    requires x >= 0.0
    ensures Round2(x) >= 0.0
  {
    Round2Monotone(0.0, x);
  }

  /** Between two whole-cent bounds, rounding stays between them. */
  lemma Round2Between(lo: real, x: real, hi: real)
    requires IsCents(lo) && IsCents(hi) && lo <= x <= hi
    ensures lo <= Round2(x) <= hi
  {
    Round2Monotone(lo, x);
    Round2Monotone(x, hi);
    Round2OfCents(lo);
    Round2OfCents(hi);
  }
}

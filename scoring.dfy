/**
 * Whole-number percentages as the games display them.
 *
 * The page computes `Math.round((correct / total) * 100)` in floating point.
 * `Math.round` rounds to the nearest integer and sends halves upwards; the
 * integer quotient below is the exact value `floor(100 * correct / total + 1/2)`.
 * For the two totals the games use (six quiz claims, eight placebo
 * statements) the floating-point result is the same for every count, as
 * `QuizPercents` and `PlaceboPercents` list; for other totals the two can differ by one where
 * the exact quotient ends in one half (23 out of 40, say).
 */
module Scoring {

  /** The displayed percentage of `correct` out of `total`, rounded half up. */
  function RoundedPercent(correct: nat, total: nat): (pct: nat)
    requires 0 < total
    // pct is the integer nearest to 100 * correct / total (halves go up)
    ensures 2 * total * pct <= 200 * correct + total < 2 * total * (pct + 1)
    ensures correct <= total ==> pct <= 100
    ensures correct == total ==> pct == 100
    ensures total < 200 && correct < total ==> pct < 100
  {
    PercentBounds(correct, total);
    (200 * correct + total) / (2 * total)
  }

  lemma PercentBounds(correct: nat, total: nat)
    requires 0 < total
    ensures var pct := (200 * correct + total) / (2 * total);
      && 2 * total * pct <= 200 * correct + total < 2 * total * (pct + 1)
      && (correct <= total ==> pct <= 100)
      && (correct == total ==> pct == 100)
      && (total < 200 && correct < total ==> pct < 100)
  {
    DivBounds(200 * correct + total, 2 * total);
    if correct <= total {
      QuotientAtMost(200 * correct + total, 2 * total, 100);
    }
    if correct == total {
      assert 200 * correct + total == 2 * total * 100 + total;
      QuotientAtLeast(200 * correct + total, 2 * total, 100);
    }
    if total < 200 && correct < total {
      assert 200 * correct + total <= 200 * total - 200 + total;
      QuotientBelow(200 * correct + total, 2 * total, 100);
    }
  }

  /** The percentages the quiz summary shows for every score out of six. */
  lemma QuizPercents()
    ensures RoundedPercent(0, 6) == 0 && RoundedPercent(1, 6) == 17 && RoundedPercent(2, 6) == 33
    ensures RoundedPercent(3, 6) == 50 && RoundedPercent(4, 6) == 67 && RoundedPercent(5, 6) == 83
    ensures RoundedPercent(6, 6) == 100
  {
  }

  /** The percentages the placebo check shows for every count out of eight. */
  lemma PlaceboPercents()
    ensures RoundedPercent(0, 8) == 0 && RoundedPercent(1, 8) == 13 && RoundedPercent(2, 8) == 25
    ensures RoundedPercent(3, 8) == 38 && RoundedPercent(4, 8) == 50 && RoundedPercent(5, 8) == 63
    ensures RoundedPercent(6, 8) == 75 && RoundedPercent(7, 8) == 88 && RoundedPercent(8, 8) == 100
  {
  }

  /** Floor division pins its quotient between two multiples of the divisor. */
  lemma DivBounds(x: nat, d: nat)
    requires 0 < d
    ensures d * (x / d) <= x < d * (x / d + 1)
  {
  }

  lemma QuotientAtMost(x: nat, d: nat, q: nat)
    requires 0 < d && x < d * (q + 1)
    ensures x / d <= q
  {
    DivBounds(x, d);
    if x / d > q {
      MulMonotone(d, q + 1, x / d);
    }
  }

  lemma QuotientAtLeast(x: nat, d: nat, q: nat)
    requires 0 < d && d * q <= x
    ensures q <= x / d
  {
    DivBounds(x, d);
    if x / d < q {
      MulMonotone(d, x / d + 1, q);
    }
  }

  lemma QuotientBelow(x: nat, d: nat, q: nat)
    requires 0 < d && x < d * q
    ensures x / d < q
  {
  }

  lemma MulMonotone(d: nat, a: nat, b: nat)
    requires a <= b
    ensures d * a <= d * b
  {
  }
}

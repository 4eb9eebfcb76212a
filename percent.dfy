/**
 * The two rounded ratios the dashboard shows, in exact integer arithmetic.
 * `Math.round(x)` is `floor(x + 1/2)` (halves round up), so for whole
 * numbers `part` and `whole > 0`:
 *   Math.round(part / whole * 100)  == (200 * part + whole) / (2 * whole)
 *   Math.round(part / whole * 1000) == (2000 * part + whole) / (2 * whole)
 * The second is a percentage in tenths: the source divides it by 10 for
 * display, so 500 here is shown as 50.0 there.
 */
module Percent {

  /**
   * `total > 0 ? Math.round((done / total) * 100) : 0`: the whole percentage
   * nearest to `100 * part / whole` (halves rounded up), and 0 for an empty
   * whole.
   */
  function RoundedPercent(part: nat, whole: nat): (p: nat)
    ensures whole == 0 ==> p == 0
    ensures whole > 0 ==> 2 * whole * p <= 200 * part + whole < 2 * whole * (p + 1)
  {
    if whole > 0 then (200 * part + whole) / (2 * whole) else 0
  }

  /**
   * `total > 0 ? Math.round((completed / total) * 1000) : 0`, the percentage
   * in tenths before the source's final division by 10: the whole number of
   * tenths nearest to `1000 * part / whole` (halves rounded up), and 0 for
   * an empty whole.
   */
  function RoundedPercentTenths(part: nat, whole: nat): (p: nat)
    ensures whole == 0 ==> p == 0
    ensures whole > 0 ==> 2 * whole * p <= 2000 * part + whole < 2 * whole * (p + 1)
  {
    if whole > 0 then (2000 * part + whole) / (2 * whole) else 0
  }

  /** Scaling both sides of `a <= b` by the same natural number keeps the order. */
  lemma MulLeq(w: nat, a: nat, b: nat)
    requires a <= b
    ensures w * a <= w * b
  {
  }

  /** A part no larger than the whole gives at most 100%, and all of it exactly 100%. */
  lemma RoundedPercentBounds(part: nat, whole: nat)
    requires part <= whole
    ensures RoundedPercent(part, whole) <= 100
    ensures part == 0 ==> RoundedPercent(part, whole) == 0
    ensures 0 < part == whole ==> RoundedPercent(part, whole) == 100
  {
    var p := RoundedPercent(part, whole);
    if whole > 0 {
      MulLeq(200, part, whole);
      if p > 100 {
        MulLeq(2 * whole, 101, p);
      }
      if part == 0 && p > 0 {
        MulLeq(2 * whole, 1, p);
      }
      if part == whole && p < 100 {
        MulLeq(2 * whole, p + 1, 100);
      }
    }
  }

  /** The same for tenths: at most 1000 (100.0%), and exactly 1000 for all of it. */
  lemma RoundedPercentTenthsBounds(part: nat, whole: nat)
    requires part <= whole
    ensures RoundedPercentTenths(part, whole) <= 1000
    ensures part == 0 ==> RoundedPercentTenths(part, whole) == 0
    ensures 0 < part == whole ==> RoundedPercentTenths(part, whole) == 1000
  {
    var p := RoundedPercentTenths(part, whole);
    if whole > 0 {
      MulLeq(2000, part, whole);
      if p > 1000 {
        MulLeq(2 * whole, 1001, p);
      }
      if part == 0 && p > 0 {
        MulLeq(2 * whole, 1, p);
      }
      if part == whole && p < 1000 {
        MulLeq(2 * whole, p + 1, 1000);
      }
    }
  }
}

/**
 * `Math.round((part / whole) * 100)`, computed exactly: the percentage is
 * rounded half up, as `Math.round` does for non-negative numbers. Floating
 * point error is not modelled.
 */
module Rounding {

  function RoundPercent(part: nat, whole: nat): (r: nat)
    requires whole > 0
    ensures 2 * whole * r <= 200 * part + whole < 2 * whole * (r + 1)
    ensures part <= whole ==> r <= 100
  {
    var r := (200 * part + whole) / (2 * whole);
    assert part <= whole ==> 200 * part + whole < 2 * whole * 101;
    r
  }

  lemma MulMonotone(k: nat, a: nat, b: nat)
    requires a <= b
    ensures k * a <= k * b
  {
  }

  /** A whole rounds to exactly 100. */
  lemma RoundPercentOfWhole(n: nat)
    requires n > 0
    ensures RoundPercent(n, n) == 100
  {
    var r := RoundPercent(n, n);
    if r < 100 {
      MulMonotone(2 * n, r + 1, 100);
    }
  }

  /** 200 of 201 already rounds to 100. */
  lemma RoundPercentNearlyWhole()
    ensures RoundPercent(200, 201) == 100
  {
  }

  /** The percentage rounded down. */
  function FloorPercent(part: nat, whole: nat): (r: nat)
    requires whole > 0
    ensures whole * r <= 100 * part < whole * (r + 1)
  {
    100 * part / whole
  }

  /** Rounded down, the percentage reaches 100 exactly at the whole. */
  lemma FloorPercentFullIffWhole(part: nat, whole: nat)
    requires 0 < whole && part <= whole
    ensures FloorPercent(part, whole) <= 100
    ensures FloorPercent(part, whole) == 100 <==> part == whole
  {
    var r := FloorPercent(part, whole);
    if r > 100 {
      MulMonotone(whole, 101, r);
    }
    if part == whole && r < 100 {
      MulMonotone(whole, r + 1, 100);
    }
  }
}

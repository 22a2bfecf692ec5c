/** The tolerance bands the calibration loops sort a measured detail score into: below
    `target - tolerance`, above `target + tolerance`, or within `tolerance` of the target.
    bandwidth.py writes the test in two orders, and in both the last `elif` is reached
    only when it holds. */
module Bands {

  datatype Band = Below | Within | Above

  function Abs(x: int): nat {
    if x < 0 then -x else x
  }

  /** The order of `ld_rect.bisection` and of the first rectangle check in `ld_rect`:
      below, then above, then within. */
  function LowFirst(score: int, target: int, tolerance: int): (b: Band)
    ensures b == Within <==> Abs(score - target) <= tolerance
    ensures b == Below <==> score < target - tolerance
    ensures b == Above <==> score >= target - tolerance && score > target + tolerance
  {
    if score < target - tolerance then Below
    else if score > target + tolerance then Above
    else if Abs(score - target) <= tolerance then Within
    else assert false; Within
  }

  /** The order of `high_detail_scenes`: within, then above, then below. */
  function InsideFirst(score: int, target: int, tolerance: int): (b: Band)
    ensures b == Within <==> Abs(score - target) <= tolerance
    ensures b == Above <==> Abs(score - target) > tolerance && score > target + tolerance
    ensures b == Below <==> Abs(score - target) > tolerance && score <= target + tolerance
  {
    if Abs(score - target) <= tolerance then Within
    else if score > target + tolerance then Above
    else if score < target - tolerance then Below
    else assert false; Below
  }

  /** With a non-negative tolerance the bands are disjoint and the two orders classify alike. */
  lemma OrdersAgree(score: int, target: int, tolerance: int)
    requires tolerance >= 0
    ensures LowFirst(score, target, tolerance) == InsideFirst(score, target, tolerance)
    ensures LowFirst(score, target, tolerance) == Below <==> score < target - tolerance
    ensures LowFirst(score, target, tolerance) == Above <==> score > target + tolerance
  {
  }

  /** With a negative tolerance no score is within the band, and a score on the target is
      "below" in one order and "above" in the other. */
  lemma NegativeToleranceOrders(target: int, tolerance: int)
    requires tolerance < 0
    ensures forall s :: LowFirst(s, target, tolerance) != Within
    ensures LowFirst(target, target, tolerance) == Below
    ensures InsideFirst(target, target, tolerance) == Above
  {
  }
}

/** The completion percentage shown by the layout and the sidebar. */
module Percent {

  /**
   * `total ? Math.round(done / total * 100) : 0`, computed on exact rationals:
   * the nearest integer to 100 * done / total, halves rounded up.
   */
  function RoundPercent(done: nat, total: nat): (p: nat)
    ensures total == 0 ==> p == 0
    ensures total > 0 ==> 2 * total * p <= 200 * done + total < 2 * total * (p + 1)
  {
    if total == 0 then 0 else (200 * done + total) / (2 * total)
  }

  /** Cancelling a positive factor on both sides of a strict inequality. */
  lemma CancelFactor(t: nat, x: int, y: int)
    requires t > 0 && t * x < t * y
    ensures x < y
  {
  }

  /** A percentage of a part of the whole never exceeds 100. */
  lemma PercentAtMost100(done: nat, total: nat)
    requires done <= total
    ensures RoundPercent(done, total) <= 100
  {
    if total > 0 {
      var p := RoundPercent(done, total);
      assert total * (2 * p) == 2 * total * p;
      assert total * (2 * p) < total * 202;
      CancelFactor(total, 2 * p, 202);
    }
  }

  /** Every task done gives exactly 100. */
  lemma PercentAllDone(total: nat)
    requires total > 0
    ensures RoundPercent(total, total) == 100
  {
    var p := RoundPercent(total, total);
    assert total * (2 * p) == 2 * total * p && total * (2 * p + 2) == 2 * total * (p + 1);
    assert total * (2 * p) < total * 202;
    assert total * 200 < total * (2 * p + 2);
    CancelFactor(total, 2 * p, 202);
    CancelFactor(total, 200, 2 * p + 2);
  }

  /** Nothing done gives 0. */
  lemma PercentNoneDone(total: nat)
    ensures RoundPercent(0, total) == 0
  {
    if total > 0 {
      var p := RoundPercent(0, total);
      assert total * (2 * p) == 2 * total * p;
      assert total * (2 * p) < total * 2;
      CancelFactor(total, 2 * p, 2);
    }
  }

  /** The bounds and the two endpoints together. */
  lemma PercentFacts(done: nat, total: nat)
    requires done <= total
    ensures RoundPercent(done, total) <= 100
    ensures done == 0 ==> RoundPercent(done, total) == 0
    ensures total > 0 && done == total ==> RoundPercent(done, total) == 100
  {
    PercentAtMost100(done, total);
    PercentNoneDone(total);
    if total > 0 && done == total {
      PercentAllDone(total);
    }
  }
}

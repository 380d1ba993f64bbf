/**
 * `Math.round(part / total * 100)`, the completion percentage shown on
 * board cards and task cards, computed exactly: 100 * part / total rounded
 * to the nearest integer, halves rounded up.
 */
module Percent {

  function RoundedPercent(part: nat, total: nat): (r: nat)
    requires total > 0
    ensures 2 * total * r <= 200 * part + total < 2 * total * (r + 1)
  {
    var n, d := 200 * part + total, 2 * total;
    var q := n / d;
    assert n == d * q + n % d;
    assert d * (q + 1) == d * q + d;
    q
  }

  /** Cancelling a positive factor from a strict inequality. */
  lemma LessFromMul(k: int, a: int, b: int)
    requires k > 0 && k * a < k * b
    ensures a < b
  {
  }

  /** The percentage of a part of the whole lies in 0..100. */
  lemma RoundedPercentBounds(part: nat, total: nat)
    requires 0 < total && part <= total
    ensures 0 <= RoundedPercent(part, total) <= 100
  {
    var r := RoundedPercent(part, total);
    assert 2 * total * r < 2 * total * 101;
    LessFromMul(2 * total, r, 101);
  }

  /** Nothing done is 0 percent. */
  lemma RoundedPercentNone(total: nat)
    requires 0 < total
    ensures RoundedPercent(0, total) == 0
  {
    var r := RoundedPercent(0, total);
    assert 2 * total * r < 2 * total * 1;
    LessFromMul(2 * total, r, 1);
  }

  /** Everything done is 100 percent. */
  lemma RoundedPercentAll(total: nat)
    requires 0 < total
    ensures RoundedPercent(total, total) == 100
  {
    var r := RoundedPercent(total, total);
    assert 2 * total * r < 2 * total * 101;
    LessFromMul(2 * total, r, 101);
    assert 2 * total * 100 < 2 * total * (r + 1);
    LessFromMul(2 * total, 100, r + 1);
  }

  /** More done never shows a smaller percentage. */
  lemma RoundedPercentMonotone(a: nat, b: nat, total: nat)
    requires 0 < total && a <= b
    ensures RoundedPercent(a, total) <= RoundedPercent(b, total)
  {
    var ra, rb := RoundedPercent(a, total), RoundedPercent(b, total);
    assert 2 * total * ra < 2 * total * (rb + 1);
    LessFromMul(2 * total, ra, rb + 1);
  }
}

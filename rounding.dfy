/**
 * `Math.round` of a ratio, as the dashboards use it to turn counts into
 * percentages, averages and minutes. The source computes in floating point;
 * this model computes the exact rational ratio and rounds it the way
 * `Math.round` does, to the nearest integer with halves going up.
 */
module Rounding {

  /** `Math.round(a / b)` for a positive `b`: the integer nearest to a/b, halves rounded up. */
  function RoundDiv(a: int, b: int): (r: int)
    requires b > 0
    ensures 2 * b * r <= 2 * a + b < 2 * b * (r + 1)
  {
    var q := (2 * a + b) / (2 * b);
    assert 2 * a + b == 2 * b * q + (2 * a + b) % (2 * b);
    q
  }

  /** Cancelling a positive factor from a strict inequality. */
  lemma MulCancel(b: int, x: int, y: int)
    requires b > 0 && b * x < b * y
    ensures x < y
  {
  }

  /** The nearest-integer bounds of `RoundDiv` determine its result. */
  lemma RoundDivUnique(a: int, b: int, r: int)
    requires b > 0
    requires 2 * b * r <= 2 * a + b < 2 * b * (r + 1)
    ensures RoundDiv(a, b) == r
  {
    var q := RoundDiv(a, b);
    MulCancel(2 * b, q, r + 1);
    MulCancel(2 * b, r, q + 1);
  }

  /** Rounding a ratio is monotone in the numerator. */
  lemma RoundDivMonotone(a1: int, a2: int, b: int)
    requires b > 0 && a1 <= a2
    ensures RoundDiv(a1, b) <= RoundDiv(a2, b)
  {
    var r1, r2 := RoundDiv(a1, b), RoundDiv(a2, b);
    MulCancel(2 * b, r1, r2 + 1);
  }

  /** A whole quotient is returned as it is. */
  lemma RoundDivExact(k: int, b: int)
    requires b > 0
    ensures RoundDiv(k * b, b) == k
  {
    RoundDivUnique(k * b, b, k);
  }

  /**
   * `total > 0 ? Math.round((count / total) * 100) : 0`: the share of `count`
   * in `total` as a whole percentage, 0 for an empty total.
   */
  function Percent(count: nat, total: nat): (r: nat)
    ensures total == 0 ==> r == 0
    ensures total > 0 ==> 2 * total * r <= 200 * count + total < 2 * total * (r + 1)
    ensures count <= total ==> r <= 100
  {
    if total > 0 then
      var r := RoundDiv(100 * count, total);
      assert count <= total ==> r <= 100 by {
        if count <= total { RoundDivMonotone(100 * count, 100 * total, total); RoundDivExact(100, total); }
      }
      r
    else 0
  }

  /** A full count is 100 percent. */
  lemma PercentOfAll(total: nat)
    requires total > 0
    ensures Percent(total, total) == 100
  {
    RoundDivExact(100, total);
  }

  /** A larger count never gives a smaller percentage. */
  lemma PercentMonotone(c1: nat, c2: nat, total: nat)
    requires c1 <= c2
    ensures Percent(c1, total) <= Percent(c2, total)
  {
    if total > 0 { RoundDivMonotone(100 * c1, 100 * c2, total); }
  }

  /** Below 200 items, 100 percent is reached only by the full count. */
  lemma PercentFullOnlyIfAll(count: nat, total: nat)
    requires 0 < total < 200 && count <= total
    requires Percent(count, total) == 100
    ensures count == total
  {
    assert 200 * total <= 200 * count + total;
  }

  /** From 200 items on, rounding reports 100 percent with one item missing (199 of 200 is 99.5). */
  lemma PercentFullWithOneMissing()
    ensures Percent(199, 200) == 100
  {
    RoundDivUnique(100 * 199, 200, 100);
  }

  /** Up to 200 items, 0 percent means no item at all. */
  lemma PercentZeroIffNone(count: nat, total: nat)
    requires 0 < total <= 200
    ensures Percent(count, total) == 0 <==> count == 0
  {
    if count > 0 {
      var r := Percent(count, total);
      assert 2 * total * 1 < 2 * total * (r + 1);
      MulCancel(2 * total, 1, r + 1);
    } else {
      RoundDivUnique(0, total, 0);
    }
  }

  /** Beyond 200 items, one item rounds down to 0 percent. */
  lemma PercentZeroWithOneItem()
    ensures Percent(1, 201) == 0
  {
    RoundDivUnique(100, 201, 0);
  }
}

/** roundTo1Decimal, on exact numbers. */
module Rounding {

  /** Fixed-point rounding to one decimal, taken on the exact value: the nearest
      multiple of one tenth, with halves rounded away from zero. */
  function RoundTo1Decimal(x: real): (r: real)
    ensures (r * 10.0).Floor as real == r * 10.0
    ensures x >= 0.0 ==> x - 0.05 < r <= x + 0.05
    ensures x < 0.0 ==> x - 0.05 <= r < x + 0.05
  {
    var k := if x >= 0.0 then (x * 10.0 + 0.5).Floor else -((-x) * 10.0 + 0.5).Floor;
    assert x >= 0.0 ==> x * 10.0 - 0.5 < k as real <= x * 10.0 + 0.5;
    assert x < 0.0 ==> x * 10.0 - 0.5 <= k as real < x * 10.0 + 0.5;
    assert (k as real / 10.0) * 10.0 == k as real;
    k as real / 10.0
  }

  /** Rounding never reverses the order of two numbers. */
  lemma RoundMonotone(x: real, y: real)
    requires x <= y
    ensures RoundTo1Decimal(x) <= RoundTo1Decimal(y)
  {
    if x >= 0.0 {
      assert (x * 10.0 + 0.5).Floor <= (y * 10.0 + 0.5).Floor;
    } else if y < 0.0 {
      assert ((-y) * 10.0 + 0.5).Floor <= ((-x) * 10.0 + 0.5).Floor;
    }
  }

  /** A whole number of tenths is left as it is. */
  lemma RoundOfTenths(k: int)
    ensures RoundTo1Decimal(k as real / 10.0) == k as real / 10.0
  {
    var x := k as real / 10.0;
    if x >= 0.0 {
      assert x * 10.0 + 0.5 == k as real + 0.5;
      assert (x * 10.0 + 0.5).Floor == k;
    } else {
      assert (-x) * 10.0 + 0.5 == (-k) as real + 0.5;
      assert ((-x) * 10.0 + 0.5).Floor == -k;
    }
  }

  /** A value in [lo, hi] with lo and hi whole numbers of tenths rounds into
      [lo, hi]. */
  lemma RoundWithin(x: real, lo: int, hi: int)
    requires lo as real / 10.0 <= x <= hi as real / 10.0
    ensures lo as real / 10.0 <= RoundTo1Decimal(x) <= hi as real / 10.0
  {
    RoundMonotone(lo as real / 10.0, x);
    RoundMonotone(x, hi as real / 10.0);
    RoundOfTenths(lo);
    RoundOfTenths(hi);
  }

  /** Halves round away from zero: 34.45 becomes 34.5 and 34.449 becomes 34.4. */
  lemma RoundingExamples()
    ensures RoundTo1Decimal(34.45) == 34.5
    ensures RoundTo1Decimal(34.449) == 34.4
    ensures RoundTo1Decimal(-34.45) == -34.5
  {
    assert (34.45 * 10.0 + 0.5).Floor == 345;
    assert (34.449 * 10.0 + 0.5).Floor == 344;
  }
}

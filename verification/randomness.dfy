/** Random picks driven by caller-supplied draws.
    Each draw stands for one value of Math.random(): a number in [0, 1). */
module Randomness {

  /** A value Math.random() can return. */
  predicate IsUnitDraw(u: real) {
    0.0 <= u < 1.0
  }

  /** A draw scaled by n and rounded down: an index into a table of n entries. */
  function RandomIndex(u: real, n: int): (k: int)
    requires IsUnitDraw(u) && n > 0
    ensures 0 <= k < n
  {
    ScaledDrawBelow(u, n);
    (u * n as real).Floor
  }

  /** randomIntInclusive: the draw scaled by the number of integers from min
      to max, rounded down, and offset by min. */
  function RandomIntInclusive(u: real, min: int, max: int): (r: int)
    requires IsUnitDraw(u)
    ensures min <= max ==> min <= r <= max
  {
    if min <= max then
      RandomIndex(u, max - min + 1) + min
    else
      (u * (max - min + 1) as real).Floor + min
  }

  /** getRandomItem: the entry at the index the draw picks in the table. */
  function GetRandomItem<T>(items: seq<T>, u: real): (x: T)
    requires IsUnitDraw(u) && |items| > 0
    ensures x in items
  {
    items[RandomIndex(u, |items|)]
  }

  /** Scaling a draw by n and flooring lands in [0, n). */
  lemma ScaledDrawBelow(u: real, n: int)
    requires IsUnitDraw(u) && n > 0
    ensures 0 <= (u * n as real).Floor < n
  {
    var m := n as real;
    assert 0.0 <= u * m;
    assert u * m < m by {
      assert (1.0 - u) * m > 0.0;
    }
  }
}

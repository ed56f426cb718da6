/** computeMedian: the middle of an ascending copy of the numbers. */
module Medians {

  predicate Ascending(s: seq<real>) {
    forall i, j | 0 <= i < j < |s| :: s[i] <= s[j]
  }

  /** Inserts x into an ascending sequence, before the first larger-or-equal
      element. */
  function InsertAscending(x: real, s: seq<real>): (r: seq<real>)
    requires Ascending(s)
    ensures |r| == |s| + 1
    ensures r[0] == x || (s != [] && r[0] == s[0])
    ensures Ascending(r)
    ensures multiset(r) == multiset(s) + multiset{x}
  {
    if s == [] || x <= s[0] then [x] + s
    else
      assert s == [s[0]] + s[1..];
      [s[0]] + InsertAscending(x, s[1..])
  }

  /** The numeric ascending sort of a copy of the numbers, as an insertion
      sort: an ascending rearrangement. */
  function SortAscending(s: seq<real>): (r: seq<real>)
    ensures Ascending(r)
    ensures multiset(r) == multiset(s)
  {
    if s == [] then []
    else
      assert s == [s[0]] + s[1..];
      InsertAscending(s[0], SortAscending(s[1..]))
  }

  /** computeMedian: 0 for no numbers; otherwise the middle element of the
      sorted copy for an odd count, and the mean of the two middle elements
      for an even count. The median is always the mean of two of the
      numbers (the same one twice for an odd count) lying between them. */
  function Median(numbers: seq<real>): (m: real)
    ensures |numbers| == 0 ==> m == 0.0
    ensures |numbers| > 0 ==>
              exists i, j | 0 <= i < |numbers| && 0 <= j < |numbers| ::
                numbers[i] <= m <= numbers[j] && m == (numbers[i] + numbers[j]) / 2.0
  {
    if |numbers| == 0 then 0.0
    else
      var sorted := SortAscending(numbers);
      assert |sorted| == |multiset(sorted)| == |numbers|;
      var mid := |sorted| / 2;
      var m := if |sorted| % 2 == 1 then sorted[mid] else (sorted[mid - 1] + sorted[mid]) / 2.0;
      var lo := if |sorted| % 2 == 1 then mid else mid - 1;
      assert sorted[lo] in multiset(numbers) && sorted[mid] in multiset(numbers);
      var i :| 0 <= i < |numbers| && numbers[i] == sorted[lo];
      var j :| 0 <= j < |numbers| && numbers[j] == sorted[mid];
      m
  }

  /** Two ascending sequences with the same elements are equal: the sorted
      copy does not depend on the sorting algorithm. */
  lemma {:induction false} AscendingUnique(a: seq<real>, b: seq<real>)
    requires Ascending(a) && Ascending(b)
    requires multiset(a) == multiset(b)
    ensures a == b
  {
    if a != [] {
      assert |b| == |multiset(b)| == |a|;
      assert a[0] in a;
      assert a[0] in multiset(b);
      assert b[0] in b;
      assert b[0] in multiset(a);
      assert a[0] == b[0];
      var a', b' := a[1..], b[1..];
      assert a == [a[0]] + a';
      assert b == [b[0]] + b';
      assert multiset(a') == multiset(a) - multiset{a[0]};
      assert multiset(b') == multiset(b) - multiset{b[0]};
      assert Ascending(a');
      assert Ascending(b');
      AscendingUnique(a', b');
    }
  }

  /** Sorting numbers that are already ascending leaves them as they are. */
  lemma SortOfAscending(s: seq<real>)
    requires Ascending(s)
    ensures SortAscending(s) == s
  {
    AscendingUnique(SortAscending(s), s);
  }

  /** The median of numbers given in ascending order is read off directly:
      the middle one, or the mean of the two middle ones. */
  lemma MedianOfAscending(s: seq<real>)
    requires Ascending(s) && |s| > 0
    ensures Median(s) == if |s| % 2 == 1 then s[|s| / 2]
                         else (s[|s| / 2 - 1] + s[|s| / 2]) / 2.0
  {
    SortOfAscending(s);
  }

  /** The median depends only on which numbers there are, not on their
      order. */
  lemma MedianIgnoresOrder(s: seq<real>, t: seq<real>)
    requires multiset(s) == multiset(t)
    ensures Median(s) == Median(t)
  {
    var ss, st := SortAscending(s), SortAscending(t);
    AscendingUnique(ss, st);
    assert ss == st;
  }

  /** Numbers that all lie in [lo, hi) have their median in [lo, hi). */
  lemma MedianWithinHalfOpen(s: seq<real>, lo: real, hi: real)
    requires |s| > 0
    requires forall k | 0 <= k < |s| :: lo <= s[k] < hi
    ensures lo <= Median(s) < hi
  {
    var m := Median(s);
    var i, j :| 0 <= i < |s| && 0 <= j < |s| && s[i] <= m <= s[j] && m == (s[i] + s[j]) / 2.0;
  }

  /** Numbers that all lie in [lo, hi] have their median in [lo, hi]. */
  lemma MedianWithinClosed(s: seq<real>, lo: real, hi: real)
    requires |s| > 0
    requires forall k | 0 <= k < |s| :: lo <= s[k] <= hi
    ensures lo <= Median(s) <= hi
  {
    var m := Median(s);
    var i, j :| 0 <= i < |s| && 0 <= j < |s| && s[i] <= m <= s[j] && m == (s[i] + s[j]) / 2.0;
  }

  /** Four ascending numbers have as median the mean of the middle two
      (workloads 10, 20, 30, 40 give 25). */
  lemma MedianOfFour(a: real, b: real, c: real, d: real)
    requires a <= b <= c <= d
    ensures Median([a, b, c, d]) == (b + c) / 2.0
  {
    var s := [a, b, c, d];
    assert |s| == 4 && s[1] == b && s[2] == c;
    assert Ascending(s);
    MedianOfAscending(s);
    assert Median(s) == (s[1] + s[2]) / 2.0;
  }

  /** Three ascending numbers have the middle one as median (workloads 10,
      20, 30 give 20). */
  lemma MedianOfThree(a: real, b: real, c: real)
    requires a <= b <= c
    ensures Median([a, b, c]) == b
  {
    var s := [a, b, c];
    assert |s| == 3 && s[1] == b;
    assert Ascending(s);
    MedianOfAscending(s);
    assert Median(s) == s[1];
  }
}

/** stableSortByWorkload: decorate each employee with its index, sort the
    pairs by (workload, index), and drop the indices again. */
module WorkloadSort {
  import opened Employees

  /** An employee paired with its position in the input ({ e, i }). */
  datatype Tagged = Tagged(e: Employee, i: int)

  /** The sort's comparator puts a before b: a smaller workload first, and
      for equal workloads the smaller input index first. */
  predicate Before(a: Tagged, b: Tagged) {
    a.e.workload < b.e.workload || (a.e.workload == b.e.workload && a.i < b.i)
  }

  /** No pair goes before an earlier one. */
  predicate SortedByKey(t: seq<Tagged>) {
    forall p, q | 0 <= p < q < |t| :: !Before(t[q], t[p])
  }

  /** No index occurs twice. */
  predicate TagsDistinct(t: seq<Tagged>) {
    forall p, q | 0 <= p < q < |t| :: t[p].i != t[q].i
  }

  /** Inserts x before the first pair it goes before. */
  function InsertTagged(x: Tagged, t: seq<Tagged>): (r: seq<Tagged>)
    requires SortedByKey(t)
    ensures |r| == |t| + 1
    ensures r[0] == x || (t != [] && r[0] == t[0])
    ensures SortedByKey(r)
    ensures multiset(r) == multiset(t) + multiset{x}
  {
    if t == [] || Before(x, t[0]) then [x] + t
    else
      assert t == [t[0]] + t[1..];
      [t[0]] + InsertTagged(x, t[1..])
  }

  /** The comparison sort of the decorated pairs, as an insertion sort: a
      rearrangement ordered by the comparator. */
  function SortTagged(t: seq<Tagged>): (r: seq<Tagged>)
    ensures SortedByKey(r)
    ensures multiset(r) == multiset(t)
  {
    if t == [] then []
    else
      assert t == [t[0]] + t[1..];
      InsertTagged(t[0], SortTagged(t[1..]))
  }

  /** Pairs every employee with its input index. */
  function Decorate(employees: seq<Employee>): (t: seq<Tagged>)
    ensures |t| == |employees|
    ensures forall k | 0 <= k < |t| :: t[k] == Tagged(employees[k], k)
  {
    seq(|employees|, k requires 0 <= k < |employees| => Tagged(employees[k], k))
  }

  /** Drops the indices, keeping the employees in the order of the pairs. */
  function Undecorate(t: seq<Tagged>): (es: seq<Employee>)
    ensures |es| == |t|
    ensures forall k | 0 <= k < |t| :: es[k] == t[k].e
  {
    seq(|t|, k requires 0 <= k < |t| => t[k].e)
  }

  /** stableSortByWorkload: a new sequence; the input is a value and is left
      as it was. */
  function StableSortByWorkload(employees: seq<Employee>): (sorted: seq<Employee>)
    ensures |sorted| == |employees|
    ensures forall p, q | 0 <= p < q < |sorted| :: sorted[p].workload <= sorted[q].workload
  {
    var t := SortTagged(Decorate(employees));
    assert |t| == |multiset(t)| == |employees|;
    Undecorate(t)
  }

  /** For each position of the sorted result, the input position the employee
      there came from (the index it was decorated with). */
  function Origins(employees: seq<Employee>): (o: seq<int>)
    ensures |o| == |SortTagged(Decorate(employees))|
  {
    var t := SortTagged(Decorate(employees));
    seq(|t|, k requires 0 <= k < |t| => t[k].i)
  }

  /** Inserting a pair whose index is new keeps the indices distinct. */
  lemma {:induction false} InsertKeepsTagsDistinct(x: Tagged, t: seq<Tagged>)
    requires SortedByKey(t) && TagsDistinct(t)
    requires forall y <- t :: y.i != x.i
    ensures TagsDistinct(InsertTagged(x, t))
  {
    if t != [] && !Before(x, t[0]) {
      var rest := InsertTagged(x, t[1..]);
      InsertKeepsTagsDistinct(x, t[1..]);
      forall y <- rest ensures y.i != t[0].i {
        assert y in multiset(rest);
        assert y == x || y in t[1..];
      }
      assert InsertTagged(x, t) == [t[0]] + rest;
    }
  }

  /** Sorting keeps the indices distinct. */
  lemma {:induction false} SortKeepsTagsDistinct(t: seq<Tagged>)
    requires TagsDistinct(t)
    ensures TagsDistinct(SortTagged(t))
  {
    if t != [] {
      var s := SortTagged(t[1..]);
      SortKeepsTagsDistinct(t[1..]);
      forall y <- s ensures y.i != t[0].i {
        assert y in multiset(s);
        assert y in t[1..];
      }
      InsertKeepsTagsDistinct(t[0], s);
    }
  }

  /** Undecorating distributes over putting a pair in front. */
  lemma UndecorateCons(x: Tagged, t: seq<Tagged>)
    ensures Undecorate([x] + t) == [x.e] + Undecorate(t)
  {
  }

  /** Inserting a pair adds exactly its employee to the undecorated
      elements. */
  lemma {:induction false} InsertUndecorated(x: Tagged, t: seq<Tagged>)
    requires SortedByKey(t)
    ensures multiset(Undecorate(InsertTagged(x, t))) == multiset(Undecorate(t)) + multiset{x.e}
  {
    if t == [] || Before(x, t[0]) {
      UndecorateCons(x, t);
    } else {
      var rest := InsertTagged(x, t[1..]);
      assert InsertTagged(x, t) == [t[0]] + rest;
      InsertUndecorated(x, t[1..]);
      UndecorateCons(t[0], rest);
      assert t == [t[0]] + t[1..];
      UndecorateCons(t[0], t[1..]);
    }
  }

  /** The undecorated elements are the first pair's employee and those of
      the rest. */
  lemma UndecorateFirst(t: seq<Tagged>)
    requires t != []
    ensures multiset(Undecorate(t)) == multiset(Undecorate(t[1..])) + multiset{t[0].e}
  {
    assert t == [t[0]] + t[1..];
    UndecorateCons(t[0], t[1..]);
  }

  /** Sorting the pairs rearranges the employees they carry. */
  lemma {:induction false} SortUndecorated(t: seq<Tagged>)
    ensures multiset(Undecorate(SortTagged(t))) == multiset(Undecorate(t))
  {
    if t != [] {
      var s := SortTagged(t[1..]);
      assert SortTagged(t) == InsertTagged(t[0], s);
      SortUndecorated(t[1..]);
      InsertUndecorated(t[0], s);
      UndecorateFirst(t);
    }
  }

  /** The result of stableSortByWorkload is a stable ascending permutation
      of its input: it holds the same employees, ascending by workload, the
      employee at each position p is the input's employee at Origins[p],
      every input position is used once, and employees with equal workload
      keep their input order. */
  lemma StableSortByWorkloadIsStablePermutation(employees: seq<Employee>)
    ensures var sorted, o := StableSortByWorkload(employees), Origins(employees);
      && multiset(sorted) == multiset(employees)
      && |o| == |employees|
      && (forall p | 0 <= p < |o| :: 0 <= o[p] < |employees| && sorted[p] == employees[o[p]])
      && (forall p, q | 0 <= p < q < |o| :: o[p] != o[q])
      && (forall p, q | 0 <= p < q < |o| ::
            sorted[p].workload == sorted[q].workload ==> o[p] < o[q])
  {
    var d := Decorate(employees);
    var t := SortTagged(d);
    assert Undecorate(d) == employees;
    SortUndecorated(d);
    SortKeepsTagsDistinct(d);
    forall p | 0 <= p < |t| ensures 0 <= t[p].i < |employees| && t[p].e == employees[t[p].i] {
      assert t[p] in multiset(d);
    }
  }
}

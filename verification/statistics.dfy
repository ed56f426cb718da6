/** The statistics pass: buildAggregates and getEmployeeStatistics. */
module Statistics {
  import opened Ages
  import opened Employees
  import opened Medians
  import opened WorkloadSort
  import opened Rounding

  /** The running extremes of buildAggregates: they start at Infinity
      (minimum) and -Infinity (maximum) and hold whole years afterwards. */
  datatype Extreme = NegInfinity | Years(years: int) | PosInfinity

  /** x < m, with the infinities compared as numbers. */
  predicate Below(x: int, m: Extreme) {
    match m
    case PosInfinity => true
    case NegInfinity => false
    case Years(v) => x < v
  }

  /** x > m, with the infinities compared as numbers. */
  predicate Above(x: int, m: Extreme) {
    match m
    case PosInfinity => false
    case NegInfinity => true
    case Years(v) => x > v
  }

  /** The running minimum after one more whole age: replaced when the age
      is below it. */
  function LowerOf(x: int, m: Extreme): Extreme {
    if Below(x, m) then Years(x) else m
  }

  /** The running maximum after one more whole age: replaced when the age
      is above it. */
  function HigherOf(x: int, m: Extreme): Extreme {
    if Above(x, m) then Years(x) else m
  }

  /** The counters after one more workload: the counter of that workload
      goes up by one when there is one, and nothing changes otherwise. */
  function Tally(counters: map<int, nat>, w: int): map<int, nat> {
    if w in counters then counters[w := counters[w] + 1] else counters
  }

  /** An employee's fractional age at nowMs. */
  function AgeOf(e: Employee, nowMs: int): real {
    AgeInYears(e.birthMs, nowMs)
  }

  /** Completed years: Math.floor of the fractional age. */
  function WholeAge(e: Employee, nowMs: int): (years: int)
    ensures years as real <= AgeOf(e, nowMs) < years as real + 1.0
  {
    AgeOf(e, nowMs).Floor
  }

  /** The number of employees among the first n whose workload is w. */
  function TierCount(es: seq<Employee>, n: nat, w: int): (count: nat)
    requires n <= |es|
    ensures count <= n
  {
    if n == 0 then 0
    else TierCount(es, n - 1, w) + (if es[n - 1].workload == w then 1 else 0)
  }

  /** The four workload counters over the first n employees, keyed by tier. */
  function TierCounters(es: seq<Employee>, n: nat): (counters: map<int, nat>)
    requires n <= |es|
    ensures counters.Keys == {10, 20, 30, 40}
  {
    map[10 := TierCount(es, n, 10), 20 := TierCount(es, n, 20),
        30 := TierCount(es, n, 30), 40 := TierCount(es, n, 40)]
  }

  /** The number of female employees among the first n. */
  function WomenCount(es: seq<Employee>, n: nat): (count: nat)
    requires n <= |es|
    ensures count <= n
  {
    if n == 0 then 0
    else WomenCount(es, n - 1) + (if es[n - 1].gender == Female then 1 else 0)
  }

  /** The workloads of the female employees among the first n, added up. */
  function WomenWorkloadSum(es: seq<Employee>, n: nat): int
    requires n <= |es|
  {
    if n == 0 then 0
    else WomenWorkloadSum(es, n - 1) + (if es[n - 1].gender == Female then es[n - 1].workload else 0)
  }

  /** The fractional ages of the first n employees, added up. */
  function AgeSum(es: seq<Employee>, n: nat, nowMs: int): real
    requires n <= |es|
  {
    if n == 0 then 0.0 else AgeSum(es, n - 1, nowMs) + AgeOf(es[n - 1], nowMs)
  }

  /** The running minimum of the whole ages of the first n employees, as
      the loop keeps it: Infinity before any employee. */
  function MinSoFar(es: seq<Employee>, n: nat, nowMs: int): Extreme
    requires n <= |es|
  {
    if n == 0 then PosInfinity
    else
      LowerOf(WholeAge(es[n - 1], nowMs), MinSoFar(es, n - 1, nowMs))
  }

  /** The running maximum of the whole ages of the first n employees, as
      the loop keeps it: -Infinity before any employee. */
  function MaxSoFar(es: seq<Employee>, n: nat, nowMs: int): Extreme
    requires n <= |es|
  {
    if n == 0 then NegInfinity
    else
      HigherOf(WholeAge(es[n - 1], nowMs), MaxSoFar(es, n - 1, nowMs))
  }

  /** The extremes stay infinite for no employees; otherwise they are the
      smallest and the largest whole age among the first n employees, and
      both are ages one of them has. */
  lemma {:induction false} WholeAgeExtremes(es: seq<Employee>, n: nat, nowMs: int)
    requires n <= |es|
    ensures n == 0 ==> MinSoFar(es, n, nowMs) == PosInfinity && MaxSoFar(es, n, nowMs) == NegInfinity
    ensures n > 0 ==> MinSoFar(es, n, nowMs).Years? && MaxSoFar(es, n, nowMs).Years?
    ensures n > 0 ==>
      var lo, hi := MinSoFar(es, n, nowMs).years, MaxSoFar(es, n, nowMs).years;
      && (forall k | 0 <= k < n :: lo <= WholeAge(es[k], nowMs) <= hi)
      && (exists k | 0 <= k < n :: lo == WholeAge(es[k], nowMs))
      && (exists k | 0 <= k < n :: hi == WholeAge(es[k], nowMs))
  {
    if n > 1 {
      WholeAgeExtremes(es, n - 1, nowMs);
      var lo0 :| 0 <= lo0 < n - 1 && MinSoFar(es, n - 1, nowMs).years == WholeAge(es[lo0], nowMs);
      var hi0 :| 0 <= hi0 < n - 1 && MaxSoFar(es, n - 1, nowMs).years == WholeAge(es[hi0], nowMs);
      var last := WholeAge(es[n - 1], nowMs);
      var lo := if last < MinSoFar(es, n - 1, nowMs).years then n - 1 else lo0;
      var hi := if last > MaxSoFar(es, n - 1, nowMs).years then n - 1 else hi0;
      assert MinSoFar(es, n, nowMs).years == WholeAge(es[lo], nowMs);
      assert MaxSoFar(es, n, nowMs).years == WholeAge(es[hi], nowMs);
    } else if n == 1 {
      assert MinSoFar(es, 1, nowMs) == Years(WholeAge(es[0], nowMs));
      assert MaxSoFar(es, 1, nowMs) == Years(WholeAge(es[0], nowMs));
    }
  }

  /** The workloads in input order. */
  function WorkloadsOf(es: seq<Employee>): (ws: seq<int>)
    ensures |ws| == |es| && forall k | 0 <= k < |es| :: ws[k] == es[k].workload
  {
    seq(|es|, k requires 0 <= k < |es| => es[k].workload)
  }

  /** The fractional ages in input order. */
  function AgesOf(es: seq<Employee>, nowMs: int): (ages: seq<real>)
    ensures |ages| == |es| && forall k | 0 <= k < |es| :: ages[k] == AgeOf(es[k], nowMs)
  {
    seq(|es|, k requires 0 <= k < |es| => AgeOf(es[k], nowMs))
  }

  /** Whole numbers as numbers with fractions, for the median. */
  function AsReals(xs: seq<int>): (rs: seq<real>)
    ensures |rs| == |xs| && forall k | 0 <= k < |xs| :: rs[k] == xs[k] as real
  {
    seq(|xs|, k requires 0 <= k < |xs| => xs[k] as real)
  }

  /** The four tier counters never exceed the number of employees counted,
      and add up to it exactly when every workload is a tier. */
  lemma {:induction false} TierCountsAddUp(es: seq<Employee>, n: nat)
    requires n <= |es|
    ensures TierCount(es, n, 10) + TierCount(es, n, 20) + TierCount(es, n, 30) + TierCount(es, n, 40) <= n
    ensures (forall k | 0 <= k < n :: es[k].workload in Workloads) ==>
              TierCount(es, n, 10) + TierCount(es, n, 20) + TierCount(es, n, 30) + TierCount(es, n, 40) == n
  {
    if n > 0 {
      TierCountsAddUp(es, n - 1);
    }
  }

  /** The women's workloads add up to between 10 and 40 hours per woman when
      every workload is a tier. */
  lemma {:induction false} WomenWorkloadBounds(es: seq<Employee>, n: nat)
    requires n <= |es|
    requires forall k | 0 <= k < n :: es[k].workload in Workloads
    ensures 10 * WomenCount(es, n) <= WomenWorkloadSum(es, n) <= 40 * WomenCount(es, n)
  {
    if n > 0 {
      WomenWorkloadBounds(es, n - 1);
    }
  }

  /** Ages that all lie in [lo, hi) add up, over n employees, to between
      n * lo (inclusive) and n * hi (exclusive). */
  lemma {:induction false} AgeSumBounds(es: seq<Employee>, n: nat, nowMs: int, lo: real, hi: real)
    requires 0 < n <= |es|
    requires forall k | 0 <= k < n :: lo <= AgeOf(es[k], nowMs) < hi
    ensures n as real * lo <= AgeSum(es, n, nowMs) < n as real * hi
  {
    var age := AgeOf(es[n - 1], nowMs);
    if n == 1 {
      assert AgeSum(es, n, nowMs) == age;
    } else {
      AgeSumBounds(es, n - 1, nowMs, lo, hi);
      SumStep((n - 1) as real, AgeSum(es, n - 1, nowMs), age, lo, hi);
    }
  }

  /** n values in [lo, hi) plus one more make n + 1 values in [lo, hi). */
  lemma SumStep(n: real, sum: real, x: real, lo: real, hi: real)
    requires n * lo <= sum < n * hi
    requires lo <= x < hi
    ensures (n + 1.0) * lo <= sum + x < (n + 1.0) * hi
  {
    assert (n + 1.0) * lo == n * lo + lo;
    assert (n + 1.0) * hi == n * hi + hi;
  }

  /** The workload counters after one more employee: one more for its
      workload when that is a tier, the same otherwise. */
  lemma CountersStep(es: seq<Employee>, i: nat)
    requires i < |es|
    ensures TierCounters(es, i + 1) == Tally(TierCounters(es, i), es[i].workload)
  {
    var before, w := TierCounters(es, i), es[i].workload;
    var after := TierCounters(es, i + 1);
    forall t | t in after.Keys
      ensures after[t] == before[t] + (if w == t then 1 else 0)
    {
    }
  }

  /** buildAggregates: one pass over the employees that fills the workload
      counters, the workloads and ages in input order, the age sum, the
      extremes of the whole ages (still infinite for no employees) and the
      women's count and workload sum. Workloads that are not a tier are
      counted nowhere. */
  method BuildAggregates(employees: seq<Employee>, nowMs: int)
    returns (workloadCounters: map<int, nat>, workloads: array<int>, ages: array<real>,
             ageSum: real, minAgeInt: Extreme, maxAgeInt: Extreme,
             womenWorkloadSum: int, womenCount: nat)
    ensures fresh(workloads) && fresh(ages)
    ensures workloadCounters == TierCounters(employees, |employees|)
    ensures workloads[..] == WorkloadsOf(employees)
    ensures ages[..] == AgesOf(employees, nowMs)
    ensures ageSum == AgeSum(employees, |employees|, nowMs)
    ensures minAgeInt == MinSoFar(employees, |employees|, nowMs)
    ensures maxAgeInt == MaxSoFar(employees, |employees|, nowMs)
    ensures womenCount == WomenCount(employees, |employees|)
    ensures womenWorkloadSum == WomenWorkloadSum(employees, |employees|)
  {
    var total := |employees|;
    workloadCounters := map[10 := 0, 20 := 0, 30 := 0, 40 := 0];
    workloads := new int[total];
    ages := new real[total];
    ageSum := 0.0;
    minAgeInt := PosInfinity;
    maxAgeInt := NegInfinity;
    womenWorkloadSum := 0;
    womenCount := 0;
    var i := 0;
    while i < total
      invariant 0 <= i <= total
      invariant workloadCounters == TierCounters(employees, i)
      invariant forall k | 0 <= k < i :: workloads[k] == employees[k].workload
      invariant forall k | 0 <= k < i :: ages[k] == AgeOf(employees[k], nowMs)
      invariant ageSum == AgeSum(employees, i, nowMs)
      invariant minAgeInt == MinSoFar(employees, i, nowMs)
      invariant maxAgeInt == MaxSoFar(employees, i, nowMs)
      invariant womenCount == WomenCount(employees, i)
      invariant womenWorkloadSum == WomenWorkloadSum(employees, i)
    {
      var e := employees[i];
      CountersStep(employees, i);
      workloadCounters := Tally(workloadCounters, e.workload);
      workloads[i] := e.workload;
      var ageF := AgeInYears(e.birthMs, nowMs);
      ages[i] := ageF;
      ageSum := ageSum + ageF;
      var ageI := ageF.Floor;
      minAgeInt := LowerOf(ageI, minAgeInt);
      maxAgeInt := HigherOf(ageI, maxAgeInt);
      if e.gender == Female {
        womenCount := womenCount + 1;
        womenWorkloadSum := womenWorkloadSum + e.workload;
      }
      i := i + 1;
    }
  }

  /** With every workload a tier, the median workload lies between 10 and
      40 hours. */
  lemma MedianWorkloadWithinTiers(es: seq<Employee>)
    requires |es| > 0
    requires forall k | 0 <= k < |es| :: es[k].workload in Workloads
    ensures 10.0 <= Median(AsReals(WorkloadsOf(es))) <= 40.0
  {
    var xs := AsReals(WorkloadsOf(es));
    forall k | 0 <= k < |xs| ensures 10.0 <= xs[k] <= 40.0 {
      assert es[k].workload in Workloads;
    }
    MedianWithinClosed(xs, 10.0, 40.0);
  }

  /** With every workload a tier, the women's rounded average workload lies
      between 10 and 40 hours whenever there are women. */
  lemma WomenAverageWithinTiers(es: seq<Employee>)
    requires forall k | 0 <= k < |es| :: es[k].workload in Workloads
    ensures var count, sum := WomenCount(es, |es|), WomenWorkloadSum(es, |es|);
      count > 0 ==> 10.0 <= RoundTo1Decimal(sum as real / count as real) <= 40.0
  {
    var count, sum := WomenCount(es, |es|), WomenWorkloadSum(es, |es|);
    if count > 0 {
      WomenWorkloadBounds(es, |es|);
      var x := sum as real / count as real;
      QuotientWithinClosed(sum as real, count as real, 10.0, 40.0);
      RoundWithin(x, 100, 400);
    }
  }

  /** When every age lies in [lo, hi), every whole age is above lo - 1 and
      below hi. */
  lemma WholeAgesWithin(es: seq<Employee>, nowMs: int, lo: real, hi: real)
    requires forall k | 0 <= k < |es| :: lo <= AgeOf(es[k], nowMs) < hi
    ensures forall k | 0 <= k < |es| :: lo - 1.0 < WholeAge(es[k], nowMs) as real < hi
  {
  }

  /** When every age lies in [lo, hi), so does the median age, and its whole
      part is above lo - 1 and below hi. */
  lemma MedianAgeWithin(es: seq<Employee>, nowMs: int, lo: real, hi: real)
    requires |es| > 0
    requires forall k | 0 <= k < |es| :: lo <= AgeOf(es[k], nowMs) < hi
    ensures lo <= Median(AgesOf(es, nowMs)) < hi
    ensures var m := Median(AgesOf(es, nowMs)).Floor; lo - 1.0 < m as real < hi
  {
    MedianWithinHalfOpen(AgesOf(es, nowMs), lo, hi);
  }

  /** When every age lies in [lo, hi), so does the average age, and rounding
      it to one decimal moves it by at most 0.05. */
  lemma AverageAgeWithin(es: seq<Employee>, nowMs: int, lo: real, hi: real)
    requires |es| > 0
    requires forall k | 0 <= k < |es| :: lo <= AgeOf(es[k], nowMs) < hi
    ensures lo <= AgeSum(es, |es|, nowMs) / |es| as real < hi
    ensures var avg := RoundTo1Decimal(AgeSum(es, |es|, nowMs) / |es| as real);
      lo - 0.05 <= avg < hi + 0.05
  {
    AgeSumBounds(es, |es|, nowMs, lo, hi);
    QuotientWithinHalfOpen(AgeSum(es, |es|, nowMs), |es| as real, lo, hi);
  }

  /** A sum of n values in [lo, hi) divided by n lies in [lo, hi). */
  lemma QuotientWithinHalfOpen(sum: real, n: real, lo: real, hi: real)
    requires n > 0.0 && n * lo <= sum < n * hi
    ensures lo <= sum / n < hi
  {
    var x := sum / n;
    assert (x - lo) * n == sum - n * lo;
    assert (hi - x) * n == n * hi - sum;
  }

  /** A sum of n values in [lo, hi] divided by n lies in [lo, hi]. */
  lemma QuotientWithinClosed(sum: real, n: real, lo: real, hi: real)
    requires n > 0.0 && n * lo <= sum <= n * hi
    ensures lo <= sum / n <= hi
  {
    var x := sum / n;
    assert (x - lo) * n == sum - n * lo;
    assert (hi - x) * n == n * hi - sum;
  }

  /** dtoOut of getEmployeeStatistics. */
  datatype Summary = Summary(
    total: nat,
    workload10: nat,
    workload20: nat,
    workload30: nat,
    workload40: nat,
    averageAge: real,
    minAge: int,
    maxAge: int,
    medianAge: int,
    medianWorkload: real,
    averageWomenWorkload: real,
    sortedByWorkload: seq<Employee>)

  /** getEmployeeStatistics: the counters per tier; for a non-empty list the
      average age rounded to one decimal, the smallest and largest whole age
      (both ages someone has), the whole part of the median age and the
      median workload, and 0 for each of these for an empty list; the
      women's average workload rounded to one decimal, 0 when there are no
      women; and the list sorted stably by workload. */
  method GetEmployeeStatistics(employees: seq<Employee>, nowMs: int) returns (dtoOut: Summary)
    ensures dtoOut.total == |employees|
    ensures dtoOut.workload10 == TierCount(employees, |employees|, 10)
    ensures dtoOut.workload20 == TierCount(employees, |employees|, 20)
    ensures dtoOut.workload30 == TierCount(employees, |employees|, 30)
    ensures dtoOut.workload40 == TierCount(employees, |employees|, 40)
    ensures |employees| == 0 ==>
              && dtoOut.averageAge == 0.0 && dtoOut.minAge == 0 && dtoOut.maxAge == 0
              && dtoOut.medianAge == 0 && dtoOut.medianWorkload == 0.0
    ensures |employees| > 0 ==>
              dtoOut.averageAge == RoundTo1Decimal(AgeSum(employees, |employees|, nowMs) / |employees| as real)
    ensures |employees| > 0 ==>
              && (forall k | 0 <= k < |employees| ::
                    dtoOut.minAge <= WholeAge(employees[k], nowMs) <= dtoOut.maxAge)
              && (exists k | 0 <= k < |employees| :: dtoOut.minAge == WholeAge(employees[k], nowMs))
              && (exists k | 0 <= k < |employees| :: dtoOut.maxAge == WholeAge(employees[k], nowMs))
    ensures |employees| > 0 ==> dtoOut.medianAge == Median(AgesOf(employees, nowMs)).Floor
    ensures |employees| > 0 ==> dtoOut.medianWorkload == Median(AsReals(WorkloadsOf(employees)))
    ensures dtoOut.averageWomenWorkload
              == if WomenCount(employees, |employees|) == 0 then 0.0
                 else RoundTo1Decimal(WomenWorkloadSum(employees, |employees|) as real
                                        / WomenCount(employees, |employees|) as real)
    ensures dtoOut.sortedByWorkload == StableSortByWorkload(employees)
  {
    var total := |employees|;
    var workloadCounters, workloads, ages, ageSum, minAgeInt, maxAgeInt, womenWorkloadSum, womenCount
      := BuildAggregates(employees, nowMs);
    WholeAgeExtremes(employees, total, nowMs);
    var averageAge := if total == 0 then 0.0 else RoundTo1Decimal(ageSum / total as real);
    var minAge := if total == 0 then 0 else minAgeInt.years;
    var maxAge := if total == 0 then 0 else maxAgeInt.years;
    var medianAge := if total == 0 then 0 else Median(ages[..]).Floor;
    var medianWorkload := if total == 0 then 0.0 else Median(AsReals(workloads[..]));
    var averageWomenWorkload :=
      if womenCount == 0 then 0.0 else RoundTo1Decimal(womenWorkloadSum as real / womenCount as real);
    var sortedByWorkload := StableSortByWorkload(employees);
    dtoOut := Summary(total, workloadCounters[10], workloadCounters[20], workloadCounters[30],
                      workloadCounters[40], averageAge, minAge, maxAge, medianAge, medianWorkload,
                      averageWomenWorkload, sortedByWorkload);
  }
}

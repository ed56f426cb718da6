/** main: generate the employees, then compute their statistics. */
module App {
  import opened Ages
  import opened Employees
  import opened Statistics

  /** main, with the clock reading and the Math.random() values as inputs.
      The summary counts one employee per integer below count, every
      employee in exactly one workload tier; the median workload and the
      women's average workload lie between 10 and 40 hours; and when the
      age range leaves room for a birth instant, the whole ages, the median
      age and the rounded average age stay within the range. */
  method Run(tables: NameTables, dtoIn: Request, nowMs: int, draws: seq<Draws>) returns (dtoOut: Summary)
    requires tables.Drawable() && AllValid(draws)
    requires Iterations(dtoIn.count) <= |draws|
    ensures dtoOut.total == Iterations(dtoIn.count)
    ensures dtoOut.workload10 + dtoOut.workload20 + dtoOut.workload30 + dtoOut.workload40 == dtoOut.total
    ensures |dtoOut.sortedByWorkload| == dtoOut.total
    ensures dtoOut.total > 0 ==> 10.0 <= dtoOut.medianWorkload <= 40.0
    ensures dtoOut.averageWomenWorkload == 0.0 || 10.0 <= dtoOut.averageWomenWorkload <= 40.0
    ensures var range := NormalizeAgeRange(dtoIn.age.minAge, dtoIn.age.maxAge);
      dtoOut.total > 0 && WindowHoldsAMillisecond(range, nowMs) ==>
        && range.minAge - 1.0 < dtoOut.minAge as real
        && dtoOut.minAge <= dtoOut.maxAge
        && dtoOut.maxAge as real < range.maxAge
        && range.minAge - 1.0 < dtoOut.medianAge as real < range.maxAge
        && range.minAge - 0.05 <= dtoOut.averageAge < range.maxAge + 0.05
  {
    var employees := GenerateEmployeeData(tables, dtoIn, nowMs, draws);
    var range := NormalizeAgeRange(dtoIn.age.minAge, dtoIn.age.maxAge);
    GeneratedAreWellFormed(tables, dtoIn, nowMs, draws, employees);
    dtoOut := GetEmployeeStatistics(employees, nowMs);
    TierCountsAddUp(employees, |employees|);
    WomenAverageWithinTiers(employees);
    if |employees| > 0 {
      MedianWorkloadWithinTiers(employees);
      if WindowHoldsAMillisecond(range, nowMs) {
        WholeAgesWithin(employees, nowMs, range.minAge, range.maxAge);
        MedianAgeWithin(employees, nowMs, range.minAge, range.maxAge);
        AverageAgeWithin(employees, nowMs, range.minAge, range.maxAge);
      }
    }
  }
}

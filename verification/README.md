# Employee generator and statistics, modelled in Dafny

`main.js` generates fictitious employees and summarises them. `main(dtoIn)`
reads the clock and calls `generateEmployeeData`. That function builds
`count` employee records, each with:

- a gender drawn with probability one half;
- a birth instant drawn uniformly from the window that gives an age in
  `[min, max)` years, when the range has room for one (for `min == max` it
  falls within a millisecond of the `min` instant instead);
- a first name and a surname from the tables for that gender;
- a workload of 10, 20, 30 or 40 hours.

`getEmployeeStatistics` then makes one aggregation pass (`buildAggregates`)
and turns the result into the summary (`dtoOut`):

- the total and the number of employees in each workload tier;
- the rounded average age, the whole-year minimum, maximum and median age;
- the median workload and the rounded average workload of the women;
- the employees sorted stably by workload.

The model keeps this structure, one module per concern:

- `Randomness` (`randomness.dfy`): `getRandomItem` and `randomIntInclusive`.
  Each draw of `Math.random()` is a caller-supplied real in `[0, 1)`.
- `Ages` (`ages.dfy`): `normalizeAgeRange`, `ageInYears` and
  `generateBirthdate`, with the birth window in whole milliseconds. It also
  holds the proof of the documented promise `minAge <= age < maxAge`.
- `Employees` (`employees.dfy`): `generateEmployee`, with five draws per
  employee, and `generateEmployeeData`, as a method with a counted loop.
- `Medians` (`median.dfy`): `computeMedian`, over an ascending sort of a
  copy.
- `WorkloadSort` (`workload_sort.dfy`): `stableSortByWorkload` as
  decorate, sort, undecorate.
- `Rounding` (`rounding.dfy`): `roundTo1Decimal` on exact reals.
- `Statistics` (`statistics.dfy`):
  - `buildAggregates`, as a method that allocates the `workloads` and
    `ages` arrays and updates its accumulators in a loop;
  - prefix-length specification functions for each accumulator;
  - `getEmployeeStatistics`.
- `App` (`app.dfy`): `main`, with the clock reading and the draws as
  inputs.

Some representation choices:

- Ages are exact reals. A birth date is an integer number of milliseconds.
- `YEAR_MS` is the whole number 31 557 600 000.
- The running minimum and maximum start at the sentinels `PosInfinity` and
  `NegInfinity` of `Statistics.Extreme`, as the source starts them at
  `Infinity` and `-Infinity`.
- `getEmployeeStatistics` is a method, because it calls the imperative
  `buildAggregates` and reads the arrays it returns.

## Model

| member | source | states |
|---|---|---|
| Randomness.RandomIndex | main.js:91 | `Math.floor(u * n)` for a draw `u` in [0, 1) is an index in [0, n) |
| Randomness.ScaledDrawBelow | main.js:91 | scaling a draw by n and flooring lands in [0, n) |
| Randomness.RandomIntInclusive | main.js:112-114 | for any draw, the result lies in [min, max] whenever min <= max |
| Randomness.GetRandomItem | main.js:90-92 | for any draw, the picked item is an element of the non-empty array |
| Ages.NormalizeAgeRange | main.js:100-104 | the result has minAge <= maxAge, holds the same two values, and is the input unchanged when it is already ordered |
| Ages.NormalizeIdempotent | main.js:100-104 | normalising a normalised range changes nothing (generateEmployee and generateBirthdate both normalise) |
| Ages.AgeInYears | main.js:168-171 | no contract of its own; `Ages.AgeInYearsScales` states its meaning |
| Ages.OldestExclusive | main.js:127 | no contract of its own; `Ages.BirthWindow` and `Ages.BirthdateHonoursAgeRange` state what it bounds |
| Ages.YoungestInclusive | main.js:128 | no contract of its own; `Ages.BirthWindow` and `Ages.BirthdateHonoursAgeRange` state what it bounds |
| Ages.AgeInYearsScales | main.js:168-171 | age times the year length is the elapsed time, so the age is non-negative exactly when the birth is not after nowMs |
| Ages.BirthWindow | main.js:127-134 | the window of birth instants is ordered: safeMin <= safeMax |
| Ages.GenerateBirthdate | main.js:124-136 | for any draw, the drawn birth instant lies inside the window |
| Ages.WideRangeHoldsAMillisecond | main.js:127-131 | a range at least one millisecond wide leaves a whole millisecond between the maxAge and minAge instants, for any nowMs |
| Ages.WholeYearRangeSpansAMillisecond | main.js:100-104 | two distinct whole-year ages, in either order, give a range at least one millisecond wide |
| Ages.BirthdateHonoursAgeRange | main.js:116-136 | the documented promise: for any draw, minAge <= (nowMs - birthMs) / YEAR_MS < maxAge for the normalised range, whenever the window holds a whole millisecond (so for any two distinct whole-year ages) |
| Ages.WholeYearBirthdateHonoursAgeRange | main.js:116-136 | the documented promise for whole-year ages: for two distinct whole-year bounds, in either order, and any draw, the smaller bound <= age < the larger bound |
| Ages.NarrowRangeBirthdate | main.js:130-136 | when no whole millisecond fits (for example minAge == maxAge), the swapped bounds yield a birth within one millisecond of the minAge instant |
| Employees.TablesAreDrawable | main.js:47-79 | the four name tables each hold 25 names, so every pick from them is defined |
| Employees.GenderFromDraw | main.js:148 | male exactly when the draw is below 0.5 |
| Employees.GenerateEmployee | main.js:146-160 | no contract of its own; `Employees.GenerateEmployeeIsWellFormed` states its promises |
| Employees.GenerateEmployeeIsWellFormed | main.js:146-160 | a generated employee has the gender its draw picks, a workload in {10, 20, 30, 40}, a first name and a surname from the tables of its own gender, and an age in the normalised range when the window holds a millisecond |
| Employees.Iterations | main.js:279-281 | the number of integers i with 0 <= i < count: at least count, fewer than count + 1, and 0 for a non-numeric or non-positive count |
| Employees.GeneratedAreWellFormed | main.js:277-287 | every employee generated from valid draws is well formed |
| Employees.GenerateEmployeeData | main.js:277-287 | returns exactly as many employees as the loop runs, the k-th one built by generateEmployee from the k-th draws |
| Rounding.RoundTo1Decimal | main.js:178-180 | the result is a whole number of tenths, within 0.05 of the value, with halves rounded away from zero |
| Rounding.RoundMonotone | main.js:178-180 | rounding preserves order |
| Rounding.RoundOfTenths | main.js:178-180 | a whole number of tenths is left as it is |
| Rounding.RoundWithin | main.js:178-180 | a value between two whole numbers of tenths rounds to a value between them |
| Rounding.RoundingExamples | main.js:178-180 | 34.45 rounds to 34.5, 34.449 to 34.4, and -34.45 to -34.5 |
| Medians.InsertAscending | main.js:189 | inserting into an ascending sequence yields an ascending sequence with exactly one more element |
| Medians.SortAscending | main.js:189 | the sorted copy is ascending and a permutation of the input |
| Medians.AscendingUnique | main.js:189 | two ascending permutations of the same numbers are equal, so the median does not depend on the sort algorithm |
| Medians.SortOfAscending | main.js:189 | sorting an ascending sequence leaves it unchanged |
| Medians.Median | main.js:187-194 | 0 for no numbers; otherwise the mean of two of the numbers, lying between them |
| Medians.MedianOfAscending | main.js:187-194 | for ascending input: the middle element for an odd count, and the mean of the two middle elements for an even count |
| Medians.MedianIgnoresOrder | main.js:187-194 | the median depends only on the multiset of the numbers |
| Medians.MedianWithinHalfOpen | main.js:187-194 | numbers all in [lo, hi) have their median in [lo, hi) |
| Medians.MedianWithinClosed | main.js:187-194 | numbers all in [lo, hi] have their median in [lo, hi] |
| Medians.MedianOfFour | main.js:187-194 | four ascending numbers have the mean of the middle two as median ([10, 20, 30, 40] gives 25) |
| Medians.MedianOfThree | main.js:187-194 | three ascending numbers have the middle one as median ([10, 20, 30] gives 20) |
| WorkloadSort.Before | main.js:204 | no contract of its own; `WorkloadSort.SortTagged` and `WorkloadSort.StableSortByWorkloadIsStablePermutation` state the order it induces |
| WorkloadSort.Decorate | main.js:203 | the k-th pair holds the k-th employee and the index k |
| WorkloadSort.Undecorate | main.js:205 | the k-th employee is the k-th pair's employee |
| WorkloadSort.InsertTagged | main.js:204 | inserting keeps the pairs ordered by (workload, index) and adds exactly the inserted pair |
| WorkloadSort.SortTagged | main.js:204 | the sorted pairs are ordered by (workload, index) and a permutation of the input pairs |
| WorkloadSort.InsertKeepsTagsDistinct | main.js:204 | inserting a pair with a new index keeps the indices distinct |
| WorkloadSort.SortKeepsTagsDistinct | main.js:204 | sorting keeps the indices distinct |
| WorkloadSort.UndecorateCons | main.js:205 | undecorating a pair put in front puts its employee in front |
| WorkloadSort.InsertUndecorated | main.js:204-205 | inserting a pair adds exactly its employee to the undecorated result |
| WorkloadSort.UndecorateFirst | main.js:205 | the undecorated elements are the first pair's employee plus those of the rest |
| WorkloadSort.SortUndecorated | main.js:204-205 | sorting the pairs rearranges the employees they carry |
| WorkloadSort.StableSortByWorkload | main.js:201-206 | the result has the input's length and is ascending by workload |
| WorkloadSort.Origins | main.js:201-206 | one input position is recorded for each position of the result |
| WorkloadSort.StableSortByWorkloadIsStablePermutation | main.js:201-206 | the result is a permutation of the input. Each result position holds the input employee at a distinct origin. Employees with equal workload keep their input order |
| Statistics.WholeAge | main.js:237 | the floored age is the whole number with floor <= age < floor + 1 |
| Statistics.TierCount | main.js:229 | a tier's counter never exceeds the number of employees seen |
| Statistics.TierCounters | main.js:216-229 | the counters object has exactly the keys 10, 20, 30 and 40 |
| Statistics.WomenCount | main.js:241-242 | the number of women never exceeds the number of employees seen |
| Statistics.Tally | main.js:229 | no contract of its own; `Statistics.CountersStep` states the step it takes |
| Statistics.LowerOf | main.js:238 | no contract of its own; `Statistics.WholeAgeExtremes` states the minimum it accumulates |
| Statistics.HigherOf | main.js:239 | no contract of its own; `Statistics.WholeAgeExtremes` states the maximum it accumulates |
| Statistics.MinSoFar | main.js:221-238 | no contract of its own; `Statistics.WholeAgeExtremes` states that it is plus Infinity on no employees, else the attained lower bound of the floored ages |
| Statistics.MaxSoFar | main.js:222-239 | no contract of its own; `Statistics.WholeAgeExtremes` states that it is minus Infinity on no employees, else the attained upper bound of the floored ages |
| Statistics.WomenWorkloadSum | main.js:241-244 | no contract of its own; `Statistics.WomenWorkloadBounds` bounds it by the women's count |
| Statistics.AgeSum | main.js:220-235 | no contract of its own; `Statistics.AgeSumBounds` and `Statistics.AverageAgeWithin` bound it |
| Statistics.CountersStep | main.js:229 | one loop step increments the counter of the employee's workload when it is a tier, and changes nothing otherwise |
| Statistics.WholeAgeExtremes | main.js:221-239 | on no employees the extremes stay at plus and minus Infinity. Otherwise both are whole numbers bounding every floored age, and each is attained |
| Statistics.WorkloadsOf | main.js:231 | the k-th workload is the k-th employee's workload |
| Statistics.AgesOf | main.js:233-234 | the k-th age is the k-th employee's age at nowMs |
| Statistics.AsReals | main.js:313 | the workloads as numbers, element by element |
| Statistics.TierCountsAddUp | main.js:216-229 | the four counters sum to at most the total, and exactly to the total when every workload is a tier |
| Statistics.WomenWorkloadBounds | main.js:241-244 | the women's workload sum lies between 10 and 40 times their number |
| Statistics.AgeSumBounds | main.js:235 | n ages all in [lo, hi) sum to at least n times lo and to less than n times hi |
| Statistics.BuildAggregates | main.js:214-257 | returns new arrays with workloads[i] the workload and ages[i] the age of employee i. The counters, age sum, floored-age extremes, women's count and women's workload sum equal their specification functions over all employees |
| Statistics.MedianWorkloadWithinTiers | main.js:313 | with every workload a tier, the median workload lies in [10, 40] |
| Statistics.WomenAverageWithinTiers | main.js:314 | with every workload a tier, the women's rounded average workload lies in [10, 40] |
| Statistics.WholeAgesWithin | main.js:237 | ages in [lo, hi) have floored ages above lo - 1 and below hi |
| Statistics.MedianAgeWithin | main.js:312 | ages in [lo, hi) have their median in [lo, hi), and its floor above lo - 1 and below hi |
| Statistics.AverageAgeWithin | main.js:309 | ages in [lo, hi) have their mean in [lo, hi), and the rounded mean within 0.05 of that interval |
| Statistics.GetEmployeeStatistics | main.js:295-333 | see below the table |
| App.Run | main.js:264-269 | see below the table |

`Statistics.GetEmployeeStatistics` ensures the following:

- total is the number of employees;
- each tier count is that tier's counter;
- with no employees, every age statistic and the median workload are 0;
- otherwise:
  - the average age is the rounded mean age;
  - the minimum and maximum age bound every floored age and are each
    attained;
  - the median age is the floor of the median age;
  - the median workload is the median of the workloads;
- the women's average workload is 0 when there are no women, and
  otherwise their rounded mean workload;
- sortedByWorkload is the stable sort of the input.

`App.Run` ensures the following:

- the summary counts one employee per integer below count;
- the four tiers add up to the total;
- sortedByWorkload has the total's length;
- the median workload and the women's average workload lie in [10, 40]
  (the latter, or 0);
- when the range leaves room for a birth instant:
  - min and max age lie above range.minAge - 1 and below range.maxAge;
  - so does the median age;
  - the rounded average age lies within 0.05 of [minAge, maxAge).

## Left out

- Floating point: ages, averages and the median are exact reals, not IEEE-754 doubles. `YEAR_MS` is an exact whole number. So for whole-year ages (below about 285 000 years, where `age * YEAR_MS` stays under 2^53) the birth window is the same in both.
- Ages.BirthdateHonoursAgeRange: proved on exact reals. For fractional ages, the source's double-precision products can put the window's lower end 1 ms earlier. For example, maxAge = 32.2 and nowMs = 1 760 000 000 000 give 743 845 280 000 in doubles against 743 845 280 001 exactly. That admits a birth at exactly maxAge, so the source does not keep `age < maxAge` there. `Ages.WholeYearBirthdateHonoursAgeRange` states the promise for whole-year ages, where both agree.
- Rounding.RoundTo1Decimal: models `Number(value.toFixed(1))` as exact round-half-away-from-zero to tenths. The decimal-string conversion of a double, whose result can differ for values near a half, is not modelled.
- ISO-8601 rendering in `generateBirthdate` (`toISOString`, main.js:137) and parsing in `ageInYears` (`new Date(iso).getTime()`, main.js:169): a birth date is kept as integer milliseconds. The `RangeError` thrown for instants outside the `Date` range is not modelled.
- `Math.random()`: each value is a caller-supplied real in [0, 1), five per employee in the order the source consumes them (`Employees.Draws`). No generator is modelled.
- `Date.now()` (main.js:265, 277, 295): `nowMs` is a parameter.
- `Number(...)` coercion (main.js:101-102, 279): the ages are numbers, and `count` is either a number or not a number (`Employees.Count`). An infinite count, for which the source loop does not end, is outside the model, since the model's numbers are finite.
- Employees.GenerateEmployee: takes the name tables as a value (`NameTables`), so proofs do not depend on the 100 literal strings. `Employees.Tables` is built from the source's own tables (main.js:47-77), and `Employees.TablesAreDrawable` shows that they are non-empty.
- Randomness.GetRandomItem: requires a non-empty array. The source reads `undefined` from an empty one, but it is only ever applied to the non-empty constant tables.
- `Array.prototype.sort` is modelled as an insertion sort. `Medians.AscendingUnique` shows that the numeric sorted copy does not depend on the algorithm. For the workload sort, the comparator orders on distinct indices, which makes the order total.
- `Statistics.BuildAggregates` returns the tier counters as a `map` from workload to count, rather than an object with four keys. A workload outside the tiers is ignored, as in the source.
- App.Run: states bounds and counts on the summary. The exact values are stated by `GetEmployeeStatistics` and `GenerateEmployeeData`, which it calls.

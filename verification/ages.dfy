/** Time constants, age ranges, fractional ages and the window of birth
    instants the generator draws from. */
module Ages {
  import opened Randomness

  /** Milliseconds in one day. */
  const DayMs: int := 24 * 60 * 60 * 1000

  /** The average year of 365.25 days, in milliseconds (a whole number). */
  const YearMs: real := 365.25 * DayMs as real

  /** An age range in years, as given ({min, max}) or after normalisation. */
  datatype AgeRange = AgeRange(minAge: real, maxAge: real)

  /** A closed interval [lo, hi] of birth instants in milliseconds. */
  datatype Window = Window(lo: int, hi: int)

  function Min(a: int, b: int): int { if a <= b then a else b }
  function Max(a: int, b: int): int { if a <= b then b else a }

  /** normalizeAgeRange: the same two bounds, swapped when given inverted. */
  function NormalizeAgeRange(minAge: real, maxAge: real): (r: AgeRange)
    ensures r.minAge <= r.maxAge
    ensures multiset{r.minAge, r.maxAge} == multiset{minAge, maxAge}
    ensures minAge <= maxAge ==> r == AgeRange(minAge, maxAge)
  {
    if minAge > maxAge then AgeRange(maxAge, minAge) else AgeRange(minAge, maxAge)
  }

  /** Normalising a range that is already normalised changes nothing. */
  lemma NormalizeIdempotent(minAge: real, maxAge: real)
    ensures var r := NormalizeAgeRange(minAge, maxAge);
            NormalizeAgeRange(r.minAge, r.maxAge) == r
  {
  }

  /** ageInYears: elapsed milliseconds divided by the average year length. */
  function AgeInYears(birthMs: int, nowMs: int): real {
    (nowMs - birthMs) as real / YearMs
  }

  /** An age scaled back by the year length is the elapsed time, so it is
      negative exactly for a birth after nowMs. */
  lemma AgeInYearsScales(birthMs: int, nowMs: int)
    ensures var age := AgeInYears(birthMs, nowMs);
      && age * YearMs == (nowMs - birthMs) as real
      && (age >= 0.0 <==> birthMs <= nowMs)
  {
  }

  /** The instant at which a person born then is exactly maxAge old: births
      must come strictly after it. */
  function OldestExclusive(range: AgeRange, nowMs: int): real {
    nowMs as real - range.maxAge * YearMs
  }

  /** The instant at which a person born then is exactly minAge old: births
      may come at or before it. */
  function YoungestInclusive(range: AgeRange, nowMs: int): real {
    nowMs as real - range.minAge * YearMs
  }

  /** The birth-instant window of generateBirthdate for a normalised range:
      one millisecond after the instant at which the person would be exactly
      maxAge old, up to the instant at which they are exactly minAge old; its
      bounds are put in order when they cross. */
  function BirthWindow(range: AgeRange, nowMs: int): (w: Window)
    ensures w.lo <= w.hi
  {
    var minMs := OldestExclusive(range, nowMs).Floor + 1;
    var maxMs := YoungestInclusive(range, nowMs).Floor;
    Window(Min(minMs, maxMs), Max(minMs, maxMs))
  }

  /** generateBirthdate: a birth instant drawn uniformly from the window,
      with the draw u standing for Math.random(). */
  function GenerateBirthdate(minAge: real, maxAge: real, nowMs: int, u: real): (birthMs: int)
    requires IsUnitDraw(u)
    ensures var w := BirthWindow(NormalizeAgeRange(minAge, maxAge), nowMs);
            w.lo <= birthMs <= w.hi
  {
    var range := NormalizeAgeRange(minAge, maxAge);
    var w := BirthWindow(range, nowMs);
    RandomIntInclusive(u, w.lo, w.hi)
  }

  /** The window of birth instants holds at least one whole millisecond:
      some integer instant lies after the maxAge instant and at or before
      the minAge instant, so the window's bounds do not cross. */
  predicate WindowHoldsAMillisecond(range: AgeRange, nowMs: int) {
    OldestExclusive(range, nowMs).Floor + 1 <= YoungestInclusive(range, nowMs).Floor
  }

  /** A range at least one millisecond wide. */
  predicate SpansAMillisecond(range: AgeRange) {
    (range.maxAge - range.minAge) * YearMs >= 1.0
  }

  /** A range one millisecond wide always leaves a whole millisecond in the
      window, whatever nowMs is. */
  lemma WideRangeHoldsAMillisecond(range: AgeRange, nowMs: int)
    requires SpansAMillisecond(range)
    ensures WindowHoldsAMillisecond(range, nowMs)
  {
    var a := OldestExclusive(range, nowMs);
    var b := YoungestInclusive(range, nowMs);
    assert a + 1.0 <= b;
    assert (a.Floor + 1) as real <= a + 1.0;
  }

  /** Two distinct whole-year ages always span a millisecond. */
  lemma WholeYearRangeSpansAMillisecond(minAge: int, maxAge: int)
    requires minAge != maxAge
    ensures SpansAMillisecond(NormalizeAgeRange(minAge as real, maxAge as real))
  {
  }

  /** The promise of generateBirthdate: for any draw, the person's age at
      nowMs is at least minAge and strictly below maxAge, whichever order the
      bounds were given in, as long as the window holds a whole millisecond
      (in particular for any two distinct whole-year ages). */
  lemma BirthdateHonoursAgeRange(minAge: real, maxAge: real, nowMs: int, u: real)
    requires IsUnitDraw(u)
    requires WindowHoldsAMillisecond(NormalizeAgeRange(minAge, maxAge), nowMs)
    ensures var range := NormalizeAgeRange(minAge, maxAge);
            var age := AgeInYears(GenerateBirthdate(minAge, maxAge, nowMs, u), nowMs);
            range.minAge <= age < range.maxAge
  {
    var range := NormalizeAgeRange(minAge, maxAge);
    var a := OldestExclusive(range, nowMs);
    var b := YoungestInclusive(range, nowMs);
    var w := BirthWindow(range, nowMs);
    assert w == Window(a.Floor + 1, b.Floor);
    var birthMs := GenerateBirthdate(minAge, maxAge, nowMs, u);
    assert a < birthMs as real <= b;
    var age := AgeInYears(birthMs, nowMs);
    AgeInYearsScales(birthMs, nowMs);
    assert range.minAge * YearMs <= age * YearMs < range.maxAge * YearMs;
  }

  /** The promise for whole-year ages: for two distinct whole-year bounds,
      given in either order, and any draw, the age at nowMs is at least the
      smaller bound and below the larger one. */
  lemma WholeYearBirthdateHonoursAgeRange(minAge: int, maxAge: int, nowMs: int, u: real)
    requires IsUnitDraw(u) && minAge != maxAge
    ensures var range := NormalizeAgeRange(minAge as real, maxAge as real);
            var age := AgeInYears(GenerateBirthdate(minAge as real, maxAge as real, nowMs, u), nowMs);
            range.minAge <= age < range.maxAge
  {
    WholeYearRangeSpansAMillisecond(minAge, maxAge);
    WideRangeHoldsAMillisecond(NormalizeAgeRange(minAge as real, maxAge as real), nowMs);
    BirthdateHonoursAgeRange(minAge as real, maxAge as real, nowMs, u);
  }

  /** When no whole millisecond fits (for instance minAge == maxAge) the
      crossed bounds are swapped into a two-millisecond window, and the drawn
      age lies within one millisecond of minAge instead of in the range. */
  lemma NarrowRangeBirthdate(minAge: real, maxAge: real, nowMs: int, u: real)
    requires IsUnitDraw(u)
    requires !WindowHoldsAMillisecond(NormalizeAgeRange(minAge, maxAge), nowMs)
    ensures var range := NormalizeAgeRange(minAge, maxAge);
            var age := AgeInYears(GenerateBirthdate(minAge, maxAge, nowMs, u), nowMs);
            range.minAge * YearMs - 1.0 <= age * YearMs < range.minAge * YearMs + 1.0
  {
    var range := NormalizeAgeRange(minAge, maxAge);
    var a := OldestExclusive(range, nowMs);
    var b := YoungestInclusive(range, nowMs);
    var f := b.Floor;
    assert a <= b;
    assert a.Floor as real <= a && b < (f + 1) as real;
    assert a.Floor <= f;
    assert !WindowHoldsAMillisecond(range, nowMs);
    assert !(a.Floor + 1 <= b.Floor);
    assert a.Floor == f;
    var w := BirthWindow(range, nowMs);
    assert w == Window(f, f + 1);
    var birthMs := GenerateBirthdate(minAge, maxAge, nowMs, u);
    assert f <= birthMs <= f + 1;
    AgeInYearsScales(birthMs, nowMs);
    assert f as real <= b < (f + 1) as real;
  }
}

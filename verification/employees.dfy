/** Employee records and the generator that synthesises them. */
module Employees {
  import opened Randomness
  import opened Ages

  datatype Gender = Male | Female

  /** An employee record; the birth date is kept as integer milliseconds
      since the epoch (the instant its ISO 8601 text denotes). The workload
      is any integer, since statistics may be asked of records made
      elsewhere. */
  datatype Employee = Employee(
    gender: Gender,
    birthMs: int,
    name: string,
    surname: string,
    workload: int)

  const MaleNames: seq<string> := [
    "Adam", "Aleš", "Daniel", "David", "Filip",
    "Jaroslav", "Jan", "Jiří", "Karel", "Martin",
    "Milan", "Miloš", "Ondřej", "Pavel", "Radek",
    "Stanislav", "Tomáš", "Viktor", "Vladimír", "Vojtěch",
    "Vratislav", "Zdeněk", "Šimon", "Štěpán", "Marek"]

  const FemaleNames: seq<string> := [
    "Alžběta", "Barbora", "Božena", "Denisa", "Eva",
    "Hana", "Helena", "Irena", "Ivana", "Jitka",
    "Kateřina", "Kristýna", "Lenka", "Lucie", "Magdaléna",
    "Marie", "Michaela", "Petra", "Radka", "Romana",
    "Simona", "Šárka", "Tereza", "Veronika", "Zdeňka"]

  const MaleSurnames: seq<string> := [
    "Balog", "Bartoš", "Beneš", "Beran", "Doležal",
    "Dvořák", "Fiala", "Hájek", "Horák", "Hruška",
    "Jelínek", "Kadlec", "Král", "Krejčí", "Kříž",
    "Kučera", "Malý", "Marek", "Mareš", "Navrátil",
    "Němec", "Novák", "Novotný", "Polák", "Pospíšil"]

  const FemaleSurnames: seq<string> := [
    "Adamová", "Balogová", "Bartošová", "Benešová", "Beranová",
    "Doležalová", "Dvořáková", "Fialová", "Hájeková", "Horáková",
    "Hrušková", "Jelínková", "Kadlecová", "Králová", "Krejčíová",
    "Kučerová", "Malá", "Marešová", "Navrátilová", "Němcová",
    "Nováková", "Novotná", "Poláková", "Pospíšilová", "Procházková"]

  /** The four workload tiers, in hours per week. */
  const Workloads: seq<int> := [10, 20, 30, 40]

  /** The four name tables generateEmployee draws from. The generator
      takes them as a value; Tables below holds the module's own. */
  datatype NameTables = NameTables(
    maleNames: seq<string>,
    femaleNames: seq<string>,
    maleSurnames: seq<string>,
    femaleSurnames: seq<string>)
  {
    /** Every table has a name to draw. */
    predicate Drawable() {
      |maleNames| > 0 && |femaleNames| > 0 && |maleSurnames| > 0 && |femaleSurnames| > 0
    }

    /** The first-name table that goes with a gender. */
    function FirstNamesFor(g: Gender): seq<string> {
      if g == Male then maleNames else femaleNames
    }

    /** The surname table that goes with a gender. */
    function SurnamesFor(g: Gender): seq<string> {
      if g == Male then maleSurnames else femaleSurnames
    }
  }

  /** The tables of the generator module. */
  const Tables: NameTables := NameTables(MaleNames, FemaleNames, MaleSurnames, FemaleSurnames)

  /** The module's tables hold 25 names each, so every draw finds one. */
  lemma TablesAreDrawable()
    ensures Tables.Drawable()
    ensures |MaleNames| == |FemaleNames| == |MaleSurnames| == |FemaleSurnames| == 25
  {
  }

  /** The value of dtoIn.count after Number(...): a number, or NaN. */
  datatype Count = Numeric(value: real) | NotANumber

  /** The generator's input: how many employees, and the age range as given
      (not necessarily with min <= max). */
  datatype Request = Request(count: Count, age: AgeRange)

  /** The five Math.random() values one call of generateEmployee consumes,
      in the order it consumes them: gender, birth instant, first name,
      surname, workload. */
  datatype Draws = Draws(gender: real, birth: real, name: real, surname: real, workload: real)

  predicate ValidDraws(d: Draws) {
    IsUnitDraw(d.gender) && IsUnitDraw(d.birth) && IsUnitDraw(d.name)
      && IsUnitDraw(d.surname) && IsUnitDraw(d.workload)
  }

  /** Math.random() < 0.5 chooses male, anything else female. */
  function GenderFromDraw(u: real): (g: Gender)
    ensures g == Male <==> u < 0.5
  {
    if u < 0.5 then Male else Female
  }

  /** What a generated employee is promised to satisfy: a workload tier,
      names from the tables of its own gender, and an age in the range when
      the range leaves room for one. */
  ghost predicate WellFormed(e: Employee, tables: NameTables, range: AgeRange, nowMs: int) {
    && e.workload in Workloads
    && e.name in tables.FirstNamesFor(e.gender)
    && e.surname in tables.SurnamesFor(e.gender)
    && (WindowHoldsAMillisecond(range, nowMs) ==>
          range.minAge <= AgeInYears(e.birthMs, nowMs) < range.maxAge)
  }

  /** generateEmployee: one record built from one set of draws. */
  function GenerateEmployee(tables: NameTables, dtoIn: Request, nowMs: int, d: Draws): Employee
    requires tables.Drawable() && ValidDraws(d)
  {
    var range := NormalizeAgeRange(dtoIn.age.minAge, dtoIn.age.maxAge);
    var gender := GenderFromDraw(d.gender);
    Employee(gender, GenerateBirthdate(range.minAge, range.maxAge, nowMs, d.birth),
             GetRandomItem(tables.FirstNamesFor(gender), d.name),
             GetRandomItem(tables.SurnamesFor(gender), d.surname),
             GetRandomItem(Workloads, d.workload))
  }

  /** A generated employee has the gender its draw picks and is well formed
      for the normalized age range. */
  lemma GenerateEmployeeIsWellFormed(tables: NameTables, dtoIn: Request, nowMs: int, d: Draws)
    requires tables.Drawable() && ValidDraws(d)
    ensures var e := GenerateEmployee(tables, dtoIn, nowMs, d);
      && (e.gender == Male <==> d.gender < 0.5)
      && WellFormed(e, tables, NormalizeAgeRange(dtoIn.age.minAge, dtoIn.age.maxAge), nowMs)
  {
    var range := NormalizeAgeRange(dtoIn.age.minAge, dtoIn.age.maxAge);
    NormalizeIdempotent(dtoIn.age.minAge, dtoIn.age.maxAge);
    if WindowHoldsAMillisecond(range, nowMs) {
      BirthdateHonoursAgeRange(range.minAge, range.maxAge, nowMs, d.birth);
    }
  }

  /** How many times the generator's loop runs: the number of integers i
      with 0 <= i < count, and none when count is not a number. */
  function Iterations(count: Count): (n: nat)
    ensures count.NotANumber? ==> n == 0
    ensures count.Numeric? ==> count.value <= n as real && (n == 0 || ((n - 1) as real) < count.value)
  {
    if count.NotANumber? || count.value <= 0.0 then 0
    else -((-count.value).Floor)
  }

  /** Every set of draws is a set of Math.random() values. */
  predicate AllValid(draws: seq<Draws>) {
    forall k | 0 <= k < |draws| :: ValidDraws(draws[k])
  }

  /** Employees generated one per set of draws are all well formed for the
      normalized age range. */
  lemma GeneratedAreWellFormed(tables: NameTables, dtoIn: Request, nowMs: int, draws: seq<Draws>,
                               employees: seq<Employee>)
    requires tables.Drawable() && AllValid(draws) && |employees| <= |draws|
    requires forall k | 0 <= k < |employees| ::
               employees[k] == GenerateEmployee(tables, dtoIn, nowMs, draws[k])
    ensures forall k | 0 <= k < |employees| ::
              WellFormed(employees[k], tables, NormalizeAgeRange(dtoIn.age.minAge, dtoIn.age.maxAge), nowMs)
  {
    forall k | 0 <= k < |employees|
      ensures WellFormed(employees[k], tables, NormalizeAgeRange(dtoIn.age.minAge, dtoIn.age.maxAge), nowMs)
    {
      GenerateEmployeeIsWellFormed(tables, dtoIn, nowMs, draws[k]);
    }
  }

  /** generateEmployeeData: one employee per integer below count, the
      k-th generated from draws[k]. */
  method GenerateEmployeeData(tables: NameTables, dtoIn: Request, nowMs: int, draws: seq<Draws>)
    returns (employees: seq<Employee>)
    requires tables.Drawable() && AllValid(draws)
    requires Iterations(dtoIn.count) <= |draws|
    ensures |employees| == Iterations(dtoIn.count)
    ensures forall k | 0 <= k < |employees| ::
              employees[k] == GenerateEmployee(tables, dtoIn, nowMs, draws[k])
  {
    employees := [];
    var count := if dtoIn.count.Numeric? then dtoIn.count.value else 0.0;
    var i := 0;
    while (i as real) < count
      invariant 0 <= i <= Iterations(dtoIn.count)
      invariant |employees| == i
      invariant forall k | 0 <= k < i :: employees[k] == GenerateEmployee(tables, dtoIn, nowMs, draws[k])
      decreases Iterations(dtoIn.count) - i
    {
      var e := GenerateEmployee(tables, dtoIn, nowMs, draws[i]);
      employees := employees + [e];
      i := i + 1;
    }
  }
}

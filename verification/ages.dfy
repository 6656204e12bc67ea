/** Age and eligibility utilities: current age, the statutory retirement
    age schedule and the flexible claiming window. */
module Ages {
  import opened Policy

  /** Year-month `(y1, m1)` is not later than `(y2, m2)`. */
  predicate NotLater(y1: int, m1: int, y2: int, m2: int) {
    y1 < y2 || (y1 == y2 && m1 <= m2)
  }

  /** Whole years of age at the month `(nowYear, nowMonth)`, the month being
      1-based; the current month is a parameter rather than read from a clock. */
  function AgeFromBirth(year: int, month: int, nowYear: int, nowMonth: int): (age: int)
    // The `age`-th birthday has passed, the next one has not.
    ensures NotLater(year + age, month, nowYear, nowMonth)
    ensures !NotLater(year + age + 1, month, nowYear, nowMonth)
  {
    var age := nowYear - year;
    if nowMonth < month then age - 1 else age
  }

  /** The birthday characterisation determines the age uniquely. */
  lemma AgeFromBirthUnique(year: int, month: int, nowYear: int, nowMonth: int, a: int)
    requires NotLater(year + a, month, nowYear, nowMonth)
    requires !NotLater(year + a + 1, month, nowYear, nowMonth)
    ensures a == AgeFromBirth(year, month, nowYear, nowMonth)
  {
  }

  /** Statutory retirement age: rises by 0.2 per birth year after 1975 for
      women and by 0.15 per birth year after 1965 for men, clamped to the
      policy bounds. */
  function LegalRetirementAge(gender: Gender, birthYear: int): (age: real)
    ensures gender == Female ==> 50.0 <= age <= 55.0
    ensures gender == Male ==> 60.0 <= age <= 63.0
    ensures gender == Female && birthYear <= 1975 ==> age == 50.0
    ensures gender == Female && 1975 <= birthYear <= 2000 ==>
      age == 50.0 + (birthYear - 1975) as real / 5.0
    ensures gender == Female && birthYear >= 2000 ==> age == 55.0
    ensures gender == Male && birthYear <= 1965 ==> age == 60.0
    ensures gender == Male && 1965 <= birthYear <= 1985 ==>
      age == 60.0 + (birthYear - 1965) as real * 3.0 / 20.0
    ensures gender == Male && birthYear >= 1985 ==> age == 63.0
  {
    if gender == Female then
      var r := 50.0 + (birthYear - 1975) as real * 0.2;
      Min(Max(r, 50.0), 55.0)
    else
      var r := 60.0 + (birthYear - 1965) as real * 0.15;
      Min(Max(r, 60.0), 63.0)
  }

  /** A later birth cohort never retires earlier. */
  lemma LegalRetirementAgeMonotone(gender: Gender, y1: int, y2: int)
    requires y1 <= y2
    ensures LegalRetirementAge(gender, y1) <= LegalRetirementAge(gender, y2)
  {
  }

  /** The pre-reform retirement age: the floor of the statutory schedule. */
  function OriginalRetirementAge(gender: Gender): (age: real)
    ensures forall y :: age <= LegalRetirementAge(gender, y)
    ensures age == LegalRetirementAge(gender, if gender == Female then 1975 else 1965)
  {
    if gender == Female then 50.0 else 60.0
  }

  datatype FlexRange = FlexRange(legalAge: real, originalAge: real, earliest: real, latest: real)

  /** The flexible claiming window: up to three years either side of the
      statutory age, but never before the pre-reform age nor after 65. */
  function FlexibleRetirementRange(gender: Gender, birthYear: int): (fr: FlexRange)
    ensures fr.legalAge == LegalRetirementAge(gender, birthYear)
    ensures fr.originalAge == OriginalRetirementAge(gender)
    ensures fr.originalAge <= fr.earliest <= fr.legalAge <= fr.latest <= LatestClaimAge
    ensures fr.legalAge - 3.0 <= fr.earliest && fr.latest <= fr.legalAge + 3.0
    // The window is as wide as the two bounds allow.
    ensures fr.earliest == fr.legalAge - 3.0 || fr.earliest == fr.originalAge
    ensures fr.latest == fr.legalAge + 3.0 || fr.latest == LatestClaimAge
  {
    var legalAge := LegalRetirementAge(gender, birthYear);
    var origAge := OriginalRetirementAge(gender);
    FlexRange(legalAge, origAge, Max(legalAge - 3.0, origAge), Min(legalAge + 3.0, LatestClaimAge))
  }
}

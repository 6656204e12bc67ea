/** Shared vocabulary of the retirement engine: the profile a user supplies,
    the enumerations the engine branches on, and every fixed policy figure
    as a named constant, so that a policy change touches one place. */
module Policy {

  datatype Option<+T> = None | Some(value: T)

  datatype Gender = Male | Female

  /** Household registration: Beijing-registered ("yes") or not ("no"). */
  datatype Hukou = Beijing | NonBeijing

  /** What the user does after quitting: self-pay right up to the claim age,
      or stop as soon as the statutory minimum of contribution years is met. */
  datatype Strategy = PayThrough | StopAtMin

  /** The profile; it is never mutated. */
  datatype UserData = UserData(
    birthYear: int,
    birthMonth: int,
    gender: Gender,
    hukou: Hukou,
    yearsPaidNow: real,
    balanceNow: real)

  // Contribution figures (currency per month unless stated otherwise).
  const MinBase: real := 6326.0
  const FlexMonthlyBeijing: real := 1800.0
  const FlexMonthlyProxy: real := 2800.0
  const AccountRate: real := 0.08

  // Pension figures.
  const MinPensionYears: real := 20.0
  const AvgWage: real := 14000.0
  const BasePensionRate: real := 0.01
  const BasePensionFactor: real := 0.9
  const LifeExpectancy: real := 80.0

  // Medical-insurance figures.
  const MedicalYearsFemale: real := 20.0
  const MedicalYearsMale: real := 25.0
  const MedicalMonthly: real := 500.0

  // The "4050" subsidy.
  const SubsidyRate: real := 0.6
  const SubsidyAgeFemale: real := 40.0
  const SubsidyAgeMale: real := 50.0
  const SubsidyFullGapLimit: real := 5.0
  const SubsidyCappedYears: real := 3.0

  // The flexible claiming window never extends past this age.
  const LatestClaimAge: real := 65.0

  function Max(a: real, b: real): (m: real)
    ensures m >= a && m >= b
    ensures m == a || m == b
  {
    if a >= b then a else b
  }

  function Min(a: real, b: real): (m: real)
    ensures m <= a && m <= b
    ensures m == a || m == b
  {
    if a <= b then a else b
  }

  /** Rounding an integer up leaves it unchanged. */
  lemma CeilOfInt(n: int)
    ensures Ceil(n as real) == n
  {
  }

  /** `Math.ceil`: the least integer not below `x`. */
  function Ceil(x: real): (c: int)
    ensures c as real - 1.0 < x <= c as real
  {
    -((-x).Floor)
  }
}

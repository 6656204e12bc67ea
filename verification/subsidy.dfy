/** The "4050" unemployment subsidy: for Beijing-registered workers who quit
    at 40 or older (women) or 50 or older (men), 60% of the self-paid
    contributions is refunded for a number of years before claiming. */
module Subsidy {
  import opened Policy

  /** Why a Beijing-registered worker is refused: the quit age is below the
      age threshold carried here, which the message displays. */
  datatype IneligibleReason = BelowAgeThreshold(threshold: real)

  datatype Subsidy4050 = Subsidy4050(
    eligible: bool,
    subsidyYears: real,
    subsidyAmount: real,
    subsidyRate: real,
    reason: Option<IneligibleReason>,
    yearsToRetire: Option<real>)

  const NotEligible: Subsidy4050 := Subsidy4050(false, 0.0, 0.0, 0.0, None, None)

  /** The minimum quit age for the subsidy: 40 for women, 50 for men. */
  function AgeThreshold(gender: Gender): (t: real)
    ensures gender == Female ==> t == 40.0
    ensures gender == Male ==> t == 50.0
  {
    if gender == Female then SubsidyAgeFemale else SubsidyAgeMale
  }

  function Calc4050Subsidy(gender: Gender, quitAge: real, claimAge: real,
                           flexMonthly: real, hukou: Hukou): (s: Subsidy4050)
    // Outcome 1: not Beijing-registered, nothing and no reason.
    ensures hukou == NonBeijing ==> s == NotEligible
    // Outcome 2: too young at quitting, nothing but a reason.
    ensures hukou == Beijing && quitAge < AgeThreshold(gender) ==>
      s == NotEligible.(reason := Some(BelowAgeThreshold(AgeThreshold(gender))))
    // Outcome 3: eligible exactly otherwise, at the fixed rate.
    ensures s.eligible <==> hukou == Beijing && quitAge >= AgeThreshold(gender)
    ensures s.eligible ==>
      && s.subsidyRate == SubsidyRate
      && s.reason == None
      && s.yearsToRetire == Some(claimAge - quitAge)
    // A gap of at most five years is covered in full (never below zero), a
    // longer one for three years only.
    ensures s.eligible && claimAge - quitAge <= 5.0 ==> s.subsidyYears == Max(claimAge - quitAge, 0.0)
    ensures s.eligible && claimAge - quitAge > 5.0 ==> s.subsidyYears == 3.0
    ensures 0.0 <= s.subsidyYears <= 5.0
    ensures s.subsidyYears <= Max(claimAge - quitAge, 0.0)
    ensures !s.eligible ==> s.subsidyYears == 0.0 && s.subsidyAmount == 0.0
    // The amount is the rate applied to the self-paid contributions of the
    // subsidised years.
    ensures s.subsidyAmount == flexMonthly * 12.0 * s.subsidyYears * s.subsidyRate
    ensures flexMonthly >= 0.0 ==> s.subsidyAmount >= 0.0
  {
    if hukou != Beijing then
      NotEligible
    else
      var threshold := AgeThreshold(gender);
      if quitAge < threshold then
        NotEligible.(reason := Some(BelowAgeThreshold(threshold)))
      else
        var yearsToRetire := claimAge - quitAge;
        var years := if yearsToRetire <= SubsidyFullGapLimit then yearsToRetire else SubsidyCappedYears;
        var subsidyYears := Max(0.0, years);
        Subsidy4050(true, subsidyYears, flexMonthly * 12.0 * subsidyYears * SubsidyRate,
                    SubsidyRate, None, Some(yearsToRetire))
  }

  /** The subsidised years are not monotone in the gap: a gap of five years
      is covered for five years, a slightly longer one for only three. */
  lemma SubsidyYearsDropPastFiveYears(gender: Gender, quitAge: real, flexMonthly: real)
    requires quitAge >= AgeThreshold(gender)
    ensures Calc4050Subsidy(gender, quitAge, quitAge + 5.0, flexMonthly, Beijing).subsidyYears == 5.0
    ensures Calc4050Subsidy(gender, quitAge, quitAge + 5.5, flexMonthly, Beijing).subsidyYears == 3.0
  {
  }
}

/** The retirement projection engine: one profile, one quit age, one
    contribution strategy and an optional claim age give one fully derived
    outcome. Every figure is a pure function of the arguments. */
module Engine {
  import opened Policy
  import opened Ages
  import opened Annuity
  import opened Subsidy

  /** How contributions are made after quitting ("灵活就业" / "公司代缴"). */
  datatype PayMethod = FlexibleEmployment | EmployerProxy

  /** `totalFlexCost / (monthlyPension * 12)`. JavaScript division by zero
      yields Infinity, so a zero pension gives an unbounded horizon. */
  datatype Payback = Finite(years: real) | Unbounded

  /** How the years between quitting and claiming are spent. */
  datatype FlexSplit = FlexSplit(yearsFlexPay: real, stopPayAge: Option<real>, yearsWaiting: real)

  datatype RetirementResult = RetirementResult(
    ageNow: int,
    legalAge: real,
    quitAge: real,
    gender: Gender,
    hukou: Hukou,
    payMethod: PayMethod,
    flexMonthly: real,
    yearsWorking: real,
    yearsFlexPay: real,
    pensionFlexCost: real,
    totalFlexCost: real,
    totalYears: real,
    finalBalance: real,
    monthlyPension: real,
    paybackYears: Payback,
    pensionOK: bool,
    pensionShortfall: real,
    minPensionYearsRequired: real,
    retireYear: int,
    medicalOK: bool,
    medicalShortfall: real,
    needMedicalYears: real,
    medicalExtraCost: real,
    medicalMonthly: real,
    totalReceived: real,
    netGain: real,
    avgYearlyToAccount: real,
    yearlyToAccountFlex: real,
    balanceNow: real,
    strategy: Strategy,
    stopPayAge: Option<real>,
    yearsWaiting: real,
    actualClaimAge: real,
    flexRange: FlexRange,
    subsidy4050: Subsidy4050)

  /** Monthly self-paid contribution: the flexible-employment rate for a
      Beijing hukou, the dearer employer-proxy rate otherwise. */
  function FlexMonthly(hukou: Hukou): (amount: real)
    ensures amount > 0.0
    ensures amount == FlexMonthlyBeijing <==> hukou == Beijing
    ensures hukou == NonBeijing ==> amount == FlexMonthlyProxy && amount > FlexMonthlyBeijing
  {
    if hukou == Beijing then FlexMonthlyBeijing else FlexMonthlyProxy
  }

  /** Beijing-registered workers contribute as flexibly employed, the others
      through an employer proxy, which is exactly when the dearer rate applies. */
  function PayMethodFor(hukou: Hukou): (m: PayMethod)
    ensures m == FlexibleEmployment <==> hukou == Beijing
    ensures m == EmployerProxy <==> FlexMonthly(hukou) == FlexMonthlyProxy
  {
    if hukou == Beijing then FlexibleEmployment else EmployerProxy
  }

  /** Medical-insurance years needed: 20 for women, 25 for men, never fewer
      than the pension minimum. */
  function MedicalYearsRequired(gender: Gender): (n: real)
    ensures gender == Female ==> n == 20.0
    ensures gender == Male ==> n == 25.0
    ensures n >= MinPensionYears
  {
    if gender == Female then MedicalYearsFemale else MedicalYearsMale
  }

  /** The strategy branch: how many years are self-paid between quitting and
      claiming, and, when stopping at the minimum, when paying stops and how
      long the wait for the claim age is. */
  function SplitFlexYears(strategy: Strategy, yearsAtQuit: real,
                          quitAge: real, claimAge: real): (s: FlexSplit)
    ensures strategy == PayThrough ==>
      // Pay every year up to the claim age, none when already past it.
      && s.stopPayAge == None && s.yearsWaiting == 0.0
      && s.yearsFlexPay >= 0.0
      && (quitAge <= claimAge ==> quitAge + s.yearsFlexPay == claimAge)
      && (quitAge >= claimAge ==> s.yearsFlexPay == 0.0)
    ensures strategy == StopAtMin ==>
      && s.stopPayAge == Some(quitAge + s.yearsFlexPay)
      && s.yearsWaiting >= 0.0
      // Never pays past the claim age nor past the minimum.
      && s.yearsFlexPay <= claimAge - quitAge
      && s.yearsFlexPay <= Max(MinPensionYears - yearsAtQuit, 0.0)
      // Before the claim age: paying stops at the minimum or at the claim
      // age, whichever is first, and the rest is waiting.
      && (quitAge <= claimAge ==>
            && s.yearsFlexPay >= 0.0
            && (yearsAtQuit + s.yearsFlexPay >= MinPensionYears || s.stopPayAge == Some(claimAge))
            && s.stopPayAge.value + s.yearsWaiting == claimAge)
      // After the claim age the self-paid years are negative, as written.
      && (quitAge > claimAge ==> s.yearsFlexPay == claimAge - quitAge < 0.0 && s.yearsWaiting == 0.0)
  {
    match strategy
    case StopAtMin =>
      var yearsNeededForMin := Max(MinPensionYears - yearsAtQuit, 0.0);
      var yearsFlexPay := Min(yearsNeededForMin, claimAge - quitAge);
      var stopPayAge := quitAge + yearsFlexPay;
      FlexSplit(yearsFlexPay, Some(stopPayAge), Max(claimAge - stopPayAge, 0.0))
    case PayThrough =>
      FlexSplit(Max(claimAge - quitAge, 0.0), None, 0.0)
  }

  /** Stopping at the minimum never self-pays longer than paying through. */
  lemma StopAtMinPaysNoLonger(yearsAtQuit: real, quitAge: real, claimAge: real)
    ensures SplitFlexYears(StopAtMin, yearsAtQuit, quitAge, claimAge).yearsFlexPay
         <= SplitFlexYears(PayThrough, yearsAtQuit, quitAge, claimAge).yearsFlexPay
  {
  }

  /** The pooled base pension: a share of the average wage per year paid. */
  function BasePension(totalYears: real): (b: real)
    // 0.9% of the average wage, 126 a month, for each year paid.
    ensures b == 126.0 * totalYears
    ensures totalYears >= 0.0 ==> b >= 0.0
    ensures totalYears > 0.0 ==> b > 0.0
  {
    AvgWage * totalYears * BasePensionRate * BasePensionFactor
  }

  /** The monthly pension: the personal account annuitised with the divisor
      of the claim age, plus the pooled base pension for the years paid. */
  function MonthlyPension(finalBalance: real, totalYears: real, claimAge: real): (p: real)
    // The personal part spread over the divisor's months is the balance.
    ensures (p - BasePension(totalYears)) * Divisor(claimAge) as real == finalBalance
    ensures finalBalance >= 0.0 && totalYears > 0.0 ==> p > 0.0
  {
    var months := Divisor(claimAge) as real;
    assert months > 0.0;
    finalBalance / months + BasePension(totalYears)
  }

  /** Average yearly credit to the personal account so far. */
  function AvgYearlyToAccount(balanceNow: real, yearsPaidNow: real): (avg: real)
    requires yearsPaidNow > 0.0
    ensures avg * yearsPaidNow == balanceNow
    ensures balanceNow >= 0.0 ==> avg >= 0.0
  {
    balanceNow / yearsPaidNow
  }

  /** A balance credited `yearlyCredit` for each of `years` years. */
  function Accrue(balance: real, yearlyCredit: real, years: real): (b: real)
    ensures years == 0.0 ==> b == balance
    // Each year adds exactly the yearly credit.
    ensures years != 0.0 ==> (b - balance) / years == yearlyCredit
    ensures yearlyCredit >= 0.0 && years >= 0.0 ==> b >= balance
    ensures yearlyCredit > 0.0 && years > 0.0 ==> b > balance
  {
    balance + yearlyCredit * years
  }

  /** Contributions paid at `monthly` for `years` years. */
  function ContributionCost(monthly: real, years: real): (cost: real)
    ensures years == 0.0 ==> cost == 0.0
    ensures monthly > 0.0 ==> (cost == 0.0 <==> years == 0.0)
    // Each year costs twelve monthly contributions.
    ensures years != 0.0 ==> cost / years == 12.0 * monthly
    ensures monthly >= 0.0 && years >= 0.0 ==> cost >= 0.0
    ensures monthly > 0.0 && years < 0.0 ==> cost < 0.0
  {
    monthly * 12.0 * years
  }

  /** Whether `totalYears` reaches `need`, and by how much it falls short. */
  datatype Threshold = Threshold(ok: bool, shortfall: real)

  function CheckThreshold(totalYears: real, need: real): (t: Threshold)
    ensures t.ok <==> totalYears >= need
    ensures t.shortfall >= 0.0
    ensures t.shortfall == 0.0 <==> t.ok
    ensures !t.ok ==> totalYears + t.shortfall == need
  {
    var ok := totalYears >= need;
    Threshold(ok, if ok then 0.0 else need - totalYears)
  }

  /** Years of pension needed to recoup the self-funded cost; none when there
      is no cost, unbounded when the pension is zero. */
  function PaybackHorizon(totalFlexCost: real, monthlyPension: real): (p: Payback)
    ensures totalFlexCost <= 0.0 ==> p == Finite(0.0)
    ensures totalFlexCost > 0.0 && monthlyPension != 0.0 ==>
      p.Finite? && p.years * (monthlyPension * 12.0) == totalFlexCost
    ensures totalFlexCost > 0.0 && monthlyPension == 0.0 ==> p == Unbounded
    ensures monthlyPension > 0.0 ==> p.Finite? && p.years >= 0.0
  {
    if totalFlexCost > 0.0 then
      if monthlyPension * 12.0 != 0.0 then Finite(totalFlexCost / (monthlyPension * 12.0)) else Unbounded
    else Finite(0.0)
  }

  /** Pension received from the claim age to the assumed life expectancy. */
  function LifetimePension(monthlyPension: real, claimAge: real): (total: real)
    ensures claimAge == LifeExpectancy ==> total == 0.0
    // Each year until the life expectancy pays twelve monthly pensions.
    ensures claimAge != LifeExpectancy ==> total / (LifeExpectancy - claimAge) == 12.0 * monthlyPension
    ensures monthlyPension >= 0.0 && claimAge <= LifeExpectancy ==> total >= 0.0
    ensures monthlyPension > 0.0 && claimAge < LifeExpectancy ==> total > 0.0
  {
    monthlyPension * 12.0 * (LifeExpectancy - claimAge)
  }

  /** The years from today to the claim age: employed until quitting (never
      negative), then split by the strategy; the total counts towards the
      pension and medical thresholds. */
  datatype Years = Years(yearsWorking: real, yearsAtQuit: real, split: FlexSplit, totalYears: real)

  function YearsFor(yearsPaidNow: real, ageNow: int, quitAge: real,
                    strategy: Strategy, claimAge: real): (y: Years)
    ensures y.yearsWorking >= 0.0
    ensures y.yearsWorking >= quitAge - ageNow as real
    ensures y.yearsWorking == 0.0 || y.yearsWorking == quitAge - ageNow as real
    ensures y.yearsAtQuit == yearsPaidNow + y.yearsWorking
    ensures y.split == SplitFlexYears(strategy, y.yearsAtQuit, quitAge, claimAge)
    ensures y.totalYears == yearsPaidNow + y.yearsWorking + y.split.yearsFlexPay
  {
    var yearsWorking := Max(quitAge - ageNow as real, 0.0);
    var yearsAtQuit := yearsPaidNow + yearsWorking;
    var split := SplitFlexYears(strategy, yearsAtQuit, quitAge, claimAge);
    Years(yearsWorking, yearsAtQuit, split, yearsAtQuit + split.yearsFlexPay)
  }

  /** The pension and medical thresholds for a total of contribution years,
      and the one-off medical buy-in for a shortfall. */
  datatype Eligibility = Eligibility(pension: Threshold, needMedicalYears: real,
                                     medical: Threshold, medicalExtraCost: real)

  function EligibilityFor(gender: Gender, totalYears: real): (e: Eligibility)
    ensures e.pension.ok <==> totalYears >= MinPensionYears
    ensures e.pension.shortfall >= 0.0 && (e.pension.shortfall == 0.0 <==> e.pension.ok)
    ensures !e.pension.ok ==> totalYears + e.pension.shortfall == MinPensionYears
    ensures e.needMedicalYears == MedicalYearsRequired(gender)
    ensures e.medical.ok <==> totalYears >= e.needMedicalYears
    ensures e.medical.shortfall >= 0.0 && (e.medical.shortfall == 0.0 <==> e.medical.ok)
    ensures !e.medical.ok ==> totalYears + e.medical.shortfall == e.needMedicalYears
    ensures e.medicalExtraCost == ContributionCost(MedicalMonthly, e.medical.shortfall)
    ensures e.medicalExtraCost >= 0.0 && (e.medicalExtraCost == 0.0 <==> e.medical.ok)
  {
    var pension := CheckThreshold(totalYears, MinPensionYears);
    var need := MedicalYearsRequired(gender);
    var medical := CheckThreshold(totalYears, need);
    Eligibility(pension, need, medical, if medical.ok then 0.0 else ContributionCost(MedicalMonthly, medical.shortfall))
  }

  /** The projection for today's age `ageNow` and an explicit claim age. The
      average yearly credit divides by the years already paid, so those must
      be positive; every other input is taken as given. */
  function Project(user: UserData, ageNow: int, quitAge: real,
                   strategy: Strategy, claimAge: real): (r: RetirementResult)
    requires user.yearsPaidNow > 0.0
    ensures r.ageNow == ageNow && r.actualClaimAge == claimAge
    ensures r.flexRange == FlexibleRetirementRange(user.gender, user.birthYear)
    ensures r.legalAge == LegalRetirementAge(user.gender, user.birthYear)
    ensures r.quitAge == quitAge && r.strategy == strategy
    ensures r.gender == user.gender && r.hukou == user.hukou && r.balanceNow == user.balanceNow
    // The first calendar year at or after reaching the claim age.
    ensures (r.retireYear - 1) as real < user.birthYear as real + claimAge <= r.retireYear as real
    // Employed years until quitting, never negative.
    ensures r.yearsWorking >= 0.0
    ensures r.yearsWorking >= quitAge - ageNow as real
    ensures r.yearsWorking == 0.0 || r.yearsWorking == quitAge - ageNow as real
    // The strategy branch.
    ensures FlexSplit(r.yearsFlexPay, r.stopPayAge, r.yearsWaiting)
         == SplitFlexYears(strategy, user.yearsPaidNow + r.yearsWorking, quitAge, claimAge)
    // Contribution years and the pension threshold.
    ensures r.totalYears == user.yearsPaidNow + r.yearsWorking + r.yearsFlexPay
    ensures r.minPensionYearsRequired == MinPensionYears
    ensures r.pensionOK <==> r.totalYears >= MinPensionYears
    ensures r.pensionShortfall >= 0.0
    ensures r.pensionShortfall == 0.0 <==> r.pensionOK
    ensures !r.pensionOK ==> r.totalYears + r.pensionShortfall == MinPensionYears
    // The medical-insurance threshold and the buy-in for a shortfall.
    ensures r.needMedicalYears == MedicalYearsRequired(user.gender)
    ensures r.medicalOK <==> r.totalYears >= r.needMedicalYears
    ensures r.medicalShortfall >= 0.0
    ensures r.medicalShortfall == 0.0 <==> r.medicalOK
    ensures !r.medicalOK ==> r.totalYears + r.medicalShortfall == r.needMedicalYears
    ensures r.medicalMonthly == MedicalMonthly
    ensures r.medicalExtraCost == ContributionCost(r.medicalMonthly, r.medicalShortfall)
    ensures r.medicalExtraCost == 0.0 <==> r.medicalOK
    // Costs.
    ensures r.flexMonthly == FlexMonthly(user.hukou) && r.payMethod == PayMethodFor(user.hukou)
    ensures r.pensionFlexCost == ContributionCost(r.flexMonthly, r.yearsFlexPay)
    ensures r.totalFlexCost == r.pensionFlexCost + r.medicalExtraCost
    ensures r.paybackYears == PaybackHorizon(r.totalFlexCost, r.monthlyPension)
    // The personal account.
    ensures r.avgYearlyToAccount == AvgYearlyToAccount(user.balanceNow, user.yearsPaidNow)
    ensures r.yearlyToAccountFlex == MinBase * AccountRate * 12.0
    ensures r.finalBalance ==
      Accrue(Accrue(user.balanceNow, r.avgYearlyToAccount, r.yearsWorking), r.yearlyToAccountFlex, r.yearsFlexPay)
    ensures r.monthlyPension == MonthlyPension(r.finalBalance, r.totalYears, claimAge)
    // Lifetime figures up to the assumed life expectancy.
    ensures r.totalReceived == LifetimePension(r.monthlyPension, claimAge)
    ensures r.netGain == r.totalReceived - r.totalFlexCost
    ensures r.subsidy4050 == Calc4050Subsidy(user.gender, quitAge, claimAge, r.flexMonthly, user.hukou)
  {
    var flexMonthly := FlexMonthly(user.hukou);
    var flexRange := FlexibleRetirementRange(user.gender, user.birthYear);
    var retireYear := user.birthYear + Ceil(claimAge);

    var years := YearsFor(user.yearsPaidNow, ageNow, quitAge, strategy, claimAge);
    var split := years.split;
    var avgYearlyToAccount := AvgYearlyToAccount(user.balanceNow, user.yearsPaidNow);
    var balanceAtQuit := Accrue(user.balanceNow, avgYearlyToAccount, years.yearsWorking);

    var yearlyToAccountFlex := MinBase * AccountRate * 12.0;
    var pensionFlexCost := ContributionCost(flexMonthly, split.yearsFlexPay);
    var subsidy := Calc4050Subsidy(user.gender, quitAge, claimAge, flexMonthly, user.hukou);

    var finalBalance := Accrue(balanceAtQuit, yearlyToAccountFlex, split.yearsFlexPay);
    var monthlyPension := MonthlyPension(finalBalance, years.totalYears, claimAge);
    var e := EligibilityFor(user.gender, years.totalYears);

    var totalFlexCost := pensionFlexCost + e.medicalExtraCost;
    var paybackYears := PaybackHorizon(totalFlexCost, monthlyPension);
    var totalReceived := LifetimePension(monthlyPension, claimAge);

    RetirementResult(
      ageNow, flexRange.legalAge, quitAge, user.gender, user.hukou, PayMethodFor(user.hukou),
      flexMonthly, years.yearsWorking, split.yearsFlexPay, pensionFlexCost, totalFlexCost,
      years.totalYears, finalBalance, monthlyPension, paybackYears,
      e.pension.ok, e.pension.shortfall, MinPensionYears, retireYear,
      e.medical.ok, e.medical.shortfall, e.needMedicalYears, e.medicalExtraCost, MedicalMonthly,
      totalReceived, totalReceived - totalFlexCost, avgYearlyToAccount, yearlyToAccountFlex, user.balanceNow,
      strategy, split.stopPayAge, split.yearsWaiting, claimAge,
      flexRange, subsidy)
  }

  /** `computeRetirement`, with the current date as explicit arguments: today's
      age comes from the birth date, and the claim age defaults to the
      statutory age. */
  function ComputeRetirement(user: UserData, nowYear: int, nowMonth: int, quitAge: real,
                             strategy: Strategy, claimAge: Option<real>): (r: RetirementResult)
    requires user.yearsPaidNow > 0.0
    ensures r.ageNow == AgeFromBirth(user.birthYear, user.birthMonth, nowYear, nowMonth)
    ensures r.actualClaimAge == (if claimAge.Some? then claimAge.value else r.legalAge)
    ensures r.legalAge == LegalRetirementAge(user.gender, user.birthYear)
  {
    var ageNow := AgeFromBirth(user.birthYear, user.birthMonth, nowYear, nowMonth);
    var actualClaimAge := if claimAge.Some? then claimAge.value else LegalRetirementAge(user.gender, user.birthYear);
    Project(user, ageNow, quitAge, strategy, actualClaimAge)
  }

  /** For the same inputs, stopping at the minimum never self-pays longer
      than paying through to the claim age. */
  lemma StopAtMinNeverPaysLonger(user: UserData, nowYear: int, nowMonth: int,
                                 quitAge: real, claimAge: Option<real>)
    requires user.yearsPaidNow > 0.0
    ensures ComputeRetirement(user, nowYear, nowMonth, quitAge, StopAtMin, claimAge).yearsFlexPay
         <= ComputeRetirement(user, nowYear, nowMonth, quitAge, PayThrough, claimAge).yearsFlexPay
  {
    var stop := ComputeRetirement(user, nowYear, nowMonth, quitAge, StopAtMin, claimAge);
    StopAtMinPaysNoLonger(user.yearsPaidNow + stop.yearsWorking, quitAge, stop.actualClaimAge);
  }

  /** Claiming explicitly at the statutory age is the same as leaving the
      claim age unspecified. */
  lemma DefaultClaimIsLegalAge(user: UserData, nowYear: int, nowMonth: int,
                               quitAge: real, strategy: Strategy)
    requires user.yearsPaidNow > 0.0
    ensures
      var legalAge := FlexibleRetirementRange(user.gender, user.birthYear).legalAge;
      ComputeRetirement(user, nowYear, nowMonth, quitAge, strategy, Some(legalAge))
        == ComputeRetirement(user, nowYear, nowMonth, quitAge, strategy, None)
  {
  }

  /** Without a Beijing hukou the contributions go through an employer proxy
      at the dearer rate, and the subsidy is never granted. */
  lemma NonBeijingPaysMoreWithoutSubsidy(user: UserData, nowYear: int, nowMonth: int, quitAge: real,
                                         strategy: Strategy, claimAge: Option<real>)
    requires user.yearsPaidNow > 0.0 && user.hukou == NonBeijing
    ensures
      var r := ComputeRetirement(user, nowYear, nowMonth, quitAge, strategy, claimAge);
      var local := ComputeRetirement(user.(hukou := Beijing), nowYear, nowMonth, quitAge, strategy, claimAge);
      && r.payMethod == EmployerProxy
      && r.flexMonthly > local.flexMonthly
      && !r.subsidy4050.eligible && r.subsidy4050.subsidyAmount == 0.0
  {
  }

  /** Quitting exactly at the claim age leaves nothing to self-pay and nothing
      to wait for, whichever the strategy. */
  lemma QuitAtClaimAge(user: UserData, nowYear: int, nowMonth: int, strategy: Strategy, claimAge: real)
    requires user.yearsPaidNow > 0.0
    ensures
      var r := ComputeRetirement(user, nowYear, nowMonth, claimAge, strategy, Some(claimAge));
      r.yearsFlexPay == 0.0 && r.yearsWaiting == 0.0
  {
  }

  /** Quitting after the claim age: paying through self-pays nothing, while
      stopping at the minimum reports a negative number of self-paid years. */
  lemma QuitAfterClaimAge(user: UserData, nowYear: int, nowMonth: int, quitAge: real, claimAge: real)
    requires user.yearsPaidNow > 0.0 && quitAge > claimAge
    ensures ComputeRetirement(user, nowYear, nowMonth, quitAge, PayThrough, Some(claimAge)).yearsFlexPay == 0.0
    ensures ComputeRetirement(user, nowYear, nowMonth, quitAge, StopAtMin, Some(claimAge)).yearsFlexPay
         == claimAge - quitAge < 0.0
  {
  }

  /** Paying through: when the quit age lies between today and the claim
      age, the total contribution years do not depend on the quit age. */
  lemma PayThroughTotalYearsFixed(user: UserData, nowYear: int, nowMonth: int,
                                  q1: real, q2: real, claimAge: real)
    requires user.yearsPaidNow > 0.0
    requires var ageNow := AgeFromBirth(user.birthYear, user.birthMonth, nowYear, nowMonth) as real;
      ageNow <= q1 <= claimAge && ageNow <= q2 <= claimAge
    ensures ComputeRetirement(user, nowYear, nowMonth, q1, PayThrough, Some(claimAge)).totalYears
         == ComputeRetirement(user, nowYear, nowMonth, q2, PayThrough, Some(claimAge)).totalYears
  {
  }

  /** A profile that passes the input form (positive years paid and balance)
      and a quit age no later than the claim age give a positive pension and
      a finite payback horizon. */
  lemma ValidProfileHasPension(user: UserData, nowYear: int, nowMonth: int, quitAge: real,
                               strategy: Strategy, claimAge: Option<real>)
    requires user.yearsPaidNow > 0.0 && user.balanceNow > 0.0
    requires quitAge <= (if claimAge.Some? then claimAge.value
                         else LegalRetirementAge(user.gender, user.birthYear))
    ensures
      var r := ComputeRetirement(user, nowYear, nowMonth, quitAge, strategy, claimAge);
      r.monthlyPension > 0.0 && r.paybackYears.Finite? && r.paybackYears.years >= 0.0
  {
    var r := ComputeRetirement(user, nowYear, nowMonth, quitAge, strategy, claimAge);
    assert r.yearsFlexPay >= 0.0;
    assert r.totalYears > 0.0;
    var atQuit := Accrue(user.balanceNow, r.avgYearlyToAccount, r.yearsWorking);
    assert atQuit >= user.balanceNow;
    assert r.yearlyToAccountFlex > 0.0;
    assert r.finalBalance >= atQuit;
    assert r.monthlyPension > 0.0;
  }

  /** Whoever reaches the medical-insurance threshold also reaches the
      pension threshold: both sexes need at least as many medical years. */
  lemma MedicalCoverImpliesPension(user: UserData, nowYear: int, nowMonth: int, quitAge: real,
                                   strategy: Strategy, claimAge: Option<real>)
    requires user.yearsPaidNow > 0.0
    ensures
      var r := ComputeRetirement(user, nowYear, nowMonth, quitAge, strategy, claimAge);
      && (r.medicalOK ==> r.pensionOK)
      && r.pensionShortfall <= r.medicalShortfall
  {
  }

  /** Spreading a non-negative amount over more months gives less per month. */
  lemma DivideByMore(x: real, more: real, fewer: real)
    requires x >= 0.0 && more >= fewer > 0.0
    ensures x / more <= x / fewer
  {
    assert x / fewer * more >= x / fewer * fewer;
  }

  /** For the same balance and years, claiming later never lowers the monthly
      pension: the annuity divisor only shrinks with the claim age. */
  lemma LaterClaimPaysMorePerMonth(finalBalance: real, totalYears: real, earlier: real, later: real)
    requires finalBalance >= 0.0 && earlier <= later
    ensures MonthlyPension(finalBalance, totalYears, earlier) <= MonthlyPension(finalBalance, totalYears, later)
  {
    DivisorMonotone(earlier, later);
    DivideByMore(finalBalance, Divisor(earlier) as real, Divisor(later) as real);
  }
}

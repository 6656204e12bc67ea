# Early-retirement advisor: the projection engine in Dafny

This project models the computational core of an early-retirement advisor for
Beijing pension rules. A user profile holds the birth date, gender, hukou
(household registration), years already contributed and the personal-account
balance. Given that profile, a planned quit age, a contribution strategy and an
optional pension claim age, the engine derives one projection:

- the statutory retirement age and the flexible claiming window;
- employed and self-paid contribution years;
- the personal-account balance and the monthly pension (personal account
  annuitised with an age-indexed divisor, plus a pooled base pension);
- the pension and medical-insurance thresholds and the medical buy-in;
- lifetime costs and receipts, the payback horizon and the net gain;
- the "4050" subsidy for Beijing-registered workers who quit late in their
  careers.

Two decision layers run the engine several times:

- the comparison table (a few candidate quit ages and the best net gain);
- the advice rules (a short list of tagged advice items).

Layout, one module per file:

- `policy.dfy` (`Policy`): the profile, the enumerations and every fixed policy
  figure as a named constant. `minPensionYears()` becomes the constant
  `MinPensionYears`.
- `ages.dfy` (`Ages`): current age, the retirement-age schedule and the
  claiming window.
- `divisor.dfy` (`Annuity`): the annuity divisor table and its lookup.
- `subsidy.dfy` (`Subsidy`): the "4050" subsidy.
- `engine.dfy` (`Engine`): `computeRetirement` and its stages.
- `comparison.dfy` (`Comparison`): candidate quit ages, per-age results and
  the best result.
- `advice.dfy` (`Advice`): the advice rules.

Modelling choices:

- JavaScript numbers are exact Dafny `real`s. Ages from the birth date are `int`.
- The wall clock is an explicit `nowYear`/`nowMonth` pair, with the month 1-based.
- Strings that only select a branch are enumerations. The `"yes"`/`"no"` hukou
  becomes `Hukou`, the `"female"`/other gender becomes `Gender`, and the
  `stopAtMinYears` flag becomes `Strategy`.
- Nullable values are `Option`s.
- `Math.floor` is `real.Floor`. `Math.ceil` is `Policy.Ceil`. `Math.max` and `Math.min` are `Policy.Max` and `Policy.Min`.
- The payback horizon divides by the monthly pension. Floating-point division
  by zero yields `Infinity`, so the horizon is a `Payback` value that is either
  `Finite(years)` or `Unbounded`.

In the stop-at-minimum branch (lib/retirement.ts:210) the self-paid years
`Math.min(yearsNeededForMin, actualClaimAge - quitAge)` are not floored at zero,
unlike the pay-through branch (lib/retirement.ts:214). A quit age after the
claim age therefore gives a negative number of self-paid years
(`claimAge - quitAge`). `Engine.SplitFlexYears` and `Engine.QuitAfterClaimAge`
state this as written.

## Model

| member | source | states |
|---|---|---|
| Policy.Ceil | lib/retirement.ts:193 | `Math.ceil`: the result is the least integer not below its argument (c - 1 < x <= c) |
| Policy.CeilOfInt | components/comparison-table.tsx:28 | rounding a whole age up leaves it unchanged |
| Ages.AgeFromBirth | lib/retirement.ts:65-70 | the age is the number of birthdays passed by the given month: the age-th birthday is not later than today, the next one is later |
| Ages.AgeFromBirthUnique | lib/retirement.ts:65-70 | the birthday characterisation determines the age uniquely, so the function is the only age meeting it |
| Ages.LegalRetirementAge | lib/retirement.ts:72-83 | women retire between 50 and 55 and men between 60 and 63; inside the reform cohorts the age is exactly 50 + (year-1975)/5 or 60 + 3(year-1965)/20; earlier cohorts get the lower bound and later ones the upper bound |
| Ages.LegalRetirementAgeMonotone | lib/retirement.ts:72-83 | for a fixed gender a later birth year never gives an earlier statutory age |
| Ages.OriginalRetirementAge | lib/retirement.ts:85-87 | the pre-reform age is a lower bound of the statutory schedule for every birth year and equals the schedule at its first reform cohort |
| Ages.FlexibleRetirementRange | lib/retirement.ts:89-98 | originalAge <= earliest <= legalAge <= latest <= 65; the window reaches at most three years either side of the statutory age and is cut only by the pre-reform age or by 65 |
| Annuity.DivisorsNonIncreasing | lib/retirement.ts:101-108 | the divisor table never increases from one age to a later one |
| Annuity.LookupKey | lib/retirement.ts:109-110 | the looked-up key is always in 40..70: the floored age when it is in range, 40 below it and 70 above it |
| Annuity.TableEntry | lib/retirement.ts:101-111 | an in-range key yields its table entry and a missing key yields the fallback 139 |
| Annuity.Divisor | lib/retirement.ts:100-112 | the result is always the table entry of the clamped key, so the 139 fallback is never taken; it lies in 56..233, ages below 41 get 233 and ages of 70 or more get 56 |
| Annuity.DivisorMonotone | lib/retirement.ts:100-112 | a later claim age never gets a larger divisor |
| Subsidy.AgeThreshold | lib/retirement.ts:141 | the minimum quit age for the subsidy is 40 for women and 50 for men |
| Subsidy.Calc4050Subsidy | lib/retirement.ts:126-171 | three outcomes: non-Beijing gives nothing and no reason; below the age threshold (40 women, 50 men) gives nothing with the threshold as reason; otherwise eligible at rate 0.6, covering a gap of up to 5 years in full (never below 0) and a longer gap for 3 years; years stay in 0..5 and never exceed the gap; the amount is the rate times the subsidised contributions and is non-negative for a non-negative monthly rate |
| Subsidy.SubsidyYearsDropPastFiveYears | lib/retirement.ts:153-160 | the subsidised years are not monotone in the gap: a 5-year gap is covered for 5 years, a 5.5-year gap for only 3 |
| Engine.FlexMonthly | lib/retirement.ts:183 | the monthly self-paid contribution is 1800 for a Beijing hukou and 2800 otherwise, so it is dearer without one |
| Engine.PayMethodFor | lib/retirement.ts:184 | contributions are paid as flexible employment exactly with a Beijing hukou, and through an employer proxy exactly when the dearer rate applies |
| Engine.Accrue | lib/retirement.ts:199 | the balance grows by exactly the yearly credit per year (no change over zero years) and never shrinks for non-negative credit and years; the same accrual gives the final balance at lib/retirement.ts:229 |
| Engine.ContributionCost | lib/retirement.ts:218 | each self-paid year costs twelve monthly contributions; zero years cost nothing, and for a positive monthly rate (the engine passes 500, 1800 or 2800) the cost is zero exactly for zero years and negative for negative years; it is non-negative for a non-negative rate and years; the medical buy-in at lib/retirement.ts:248 uses the same cost |
| Engine.BasePension | lib/retirement.ts:232-233 | the pooled base pension is 0.9% of the 14000 average wage, 126 a month, per year paid, positive for positive years |
| Engine.MedicalYearsRequired | lib/retirement.ts:241 | medical cover needs 20 years for women and 25 for men, never fewer than the pension minimum |
| Engine.LifetimePension | lib/retirement.ts:258-260 | each year from the claim age to the life expectancy of 80 pays twelve monthly pensions, zero when claiming at 80, positive for a positive pension claimed earlier; the net gain built from it is carried by `Engine.Project` |
| Engine.SplitFlexYears | lib/retirement.ts:201-215 | paying through self-pays exactly up to the claim age (none when past it) with no stop age or waiting; stopping at the minimum never pays past the claim age or the 20-year minimum, stops at the minimum or at the claim age, and waits the rest (stop age + waiting = claim age); after the claim age its years are negative |
| Engine.StopAtMinPaysNoLonger | lib/retirement.ts:205-215 | for the same years, quit age and claim age, stopping at the minimum never self-pays longer than paying through |
| Engine.AvgYearlyToAccount | lib/retirement.ts:197 | the average yearly credit times the years paid gives back the current balance, and it is non-negative for a non-negative balance |
| Engine.MonthlyPension | lib/retirement.ts:231-234 | the personal part of the pension, multiplied by the claim-age divisor, gives back the final balance; the pension is positive for a non-negative balance and positive years |
| Engine.CheckThreshold | lib/retirement.ts:236-243 | a threshold is met exactly when the years reach it; the shortfall is 0 exactly when it is met, and otherwise closes the gap to it |
| Engine.EligibilityFor | lib/retirement.ts:236-248 | the pension is met iff at least 20 years; the medical threshold is 20 years for women and 25 for men; shortfalls close the gap; the medical buy-in is the shortfall at 500 a month, never negative, and 0 exactly when medical cover is met |
| Engine.PaybackHorizon | lib/retirement.ts:252-253 | no cost gives a zero horizon; otherwise the horizon times the yearly pension equals the cost, unbounded when the pension is zero, and finite and non-negative for a positive pension |
| Engine.YearsFor | lib/retirement.ts:196-228 | employed years are never negative and equal the time from today to quitting when that is positive; the total is the years already paid plus employed plus self-paid years |
| Engine.Project | lib/retirement.ts:182-261 | the result carries the inputs, the claiming window and the statutory age; retireYear is the first year at or after the claim age; yearsWorking >= 0; the strategy split; totalYears is the sum of the three kinds of years; pensionOK iff totalYears >= 20 and medicalOK iff totalYears >= the gender's medical years, with shortfalls and the buy-in; totalFlexCost = pensionFlexCost + medicalExtraCost; netGain = lifetime pension - totalFlexCost; the subsidy uses the actual claim age |
| Engine.ComputeRetirement | lib/retirement.ts:187-191 | today's age comes from the birth date; the actual claim age is the given one, or the statutory age when none is given |
| Engine.StopAtMinNeverPaysLonger | lib/retirement.ts:205-215 | for the same profile, quit age and claim age, the stop-at-minimum projection never self-pays longer than the pay-through one |
| Engine.DefaultClaimIsLegalAge | lib/retirement.ts:189-191 | leaving the claim age out gives the same projection as claiming at the statutory age |
| Engine.NonBeijingPaysMoreWithoutSubsidy | lib/retirement.ts:183-184 | without a Beijing hukou the contributions go through an employer proxy at a dearer rate than with one, and the subsidy is never granted |
| Engine.QuitAtClaimAge | lib/retirement.ts:205-215 | quitting exactly at the claim age leaves no self-paid years and no waiting, whichever the strategy |
| Engine.QuitAfterClaimAge | lib/retirement.ts:205-215 | quitting after the claim age: paying through self-pays nothing, stopping at the minimum reports claimAge - quitAge < 0 self-paid years |
| Engine.PayThroughTotalYearsFixed | lib/retirement.ts:196-228 | paying through with a quit age between today and the claim age gives total contribution years that do not depend on the quit age |
| Engine.ValidProfileHasPension | lib/retirement.ts:228-253 | a profile with positive years and balance and a quit age no later than the claim age gets a positive pension and a finite, non-negative payback horizon |
| Engine.MedicalCoverImpliesPension | lib/retirement.ts:236-243 | reaching the medical threshold implies reaching the pension threshold, and the pension shortfall never exceeds the medical one |
| Engine.LaterClaimPaysMorePerMonth | lib/retirement.ts:231-234 | for the same non-negative final balance and years, a later claim age never gives a smaller monthly pension |
| Comparison.RawCandidates | components/comparison-table.tsx:27-32 | four candidates: today's age (a whole age, which rounding up leaves unchanged), the chosen age, and the chosen age plus 3 and plus 5 each capped at the claim age |
| Comparison.IndexOf | components/comparison-table.tsx:34-35 | the first position holding the value, or -1 exactly when it is absent |
| Comparison.FilterPrefix | components/comparison-table.tsx:33-36 | the filter, whose per-position test `Comparison.Keep` is the callback of components/comparison-table.tsx:34-35 (first occurrence and within range), keeps no duplicates and keeps exactly the values in [ageNow, claimAge] |
| Comparison.Insert | components/comparison-table.tsx:37 | inserting a new value into a strictly ascending list keeps it strictly ascending, adds one element and loses none |
| Comparison.SortAscending | components/comparison-table.tsx:37 | the sorted list is strictly ascending with the same elements and length as its duplicate-free input |
| Comparison.CandidateAges | components/comparison-table.tsx:27-37 | the candidate ages are strictly ascending (sorted, no duplicates), at most four, and are exactly the raw candidates within [ageNow, claimAge] |
| Comparison.ResultsFor | components/comparison-table.tsx:39-42 | one result per candidate age, in candidate order, each with that quit age and the same strategy and claim age |
| Comparison.ReduceBest | components/comparison-table.tsx:44-47 | the reduction ends at a valid index whose net gain is at least that of the starting best, either the starting best or a later result |
| Comparison.ReduceBestIsFirstMaximum | components/comparison-table.tsx:44-47 | the strict-greater reduction ends at a result of maximal net gain that no earlier result equals |
| Comparison.BestIndex | components/comparison-table.tsx:44-47 | the chosen result has maximal net gain and every earlier result is strictly worse |
| Comparison.FirstBestHasEarliestAge | components/comparison-table.tsx:44-47 | with ascending ages, the first best result has the earliest quit age among all results of equal net gain |
| Comparison.Compare | components/comparison-table.tsx:24-47 | there is a best result exactly when some candidate survives; it is one of the results, no result beats it, and among ties the earliest quit age wins |
| Advice.FreeYearsAdvice | components/advice-section.tsx:62-95 | rule 1 speaks exactly when quitting now is earlier; it says working longer pays iff the net-gain difference is positive and quit-now otherwise; the pension item comes only with a gain and a pension difference above 100; the figures are the gain per extra year worked or the gain of quitting now |
| Advice.StrategyAdvice | components/advice-section.tsx:97-122 | rule 2 gives at most one item, exactly when the strategies differ by more than 10000; it recommends the strategy with the larger net gain and is a success exactly when that is the chosen one |
| Advice.WarningAdvice | components/advice-section.tsx:124-141 | a pension warning exactly when the pension threshold is missed and a medical warning exactly when medical cover is missed, all marked as warnings |
| Advice.Assemble | components/advice-section.tsx:143-151 | the advice is never empty; when some rule produced an item it is exactly the rules' items in order, and otherwise it is the default item alone |
| Advice.AssembleTopics | components/advice-section.tsx:144-151 | the assembled advice's topics are the rules' topics in order, or the default alone when no rule produced an item |
| Advice.AssembleTones | components/advice-section.tsx:144-151 | assembling keeps every rule item's tone, and the default is neutral |
| Advice.AssembleStrategyItems | components/advice-section.tsx:144-151 | when only the middle rule recommends strategies, the assembled advice recommends exactly as it does |
| Advice.RuleTopics | components/advice-section.tsx:62-141 | the three rules' topics, concatenated in rule order, are exactly the reference topics: rule 1's verdict (and pension difference), the strategy topic, then the pension and medical risks, each under its condition |
| Advice.EvaluateRules | components/advice-section.tsx:60-151 | the advice is never empty; its topics are exactly the reference sequence, each rule's topics once and in rule order, or the default alone when no rule fired |
| Advice.EvaluateRulesTones | components/advice-section.tsx:72-140 | every item has the tone of its kind: quitting now is a success, the risks are warnings, a recommendation is a success exactly when it is the chosen strategy, the rest are neutral |
| Advice.EvaluateRulesStrategyItems | components/advice-section.tsx:97-122 | every strategy recommendation in the advice names the strategy with the larger net gain and is a success exactly when it is the chosen one |
| Advice.FreeYearsTopicsMembers | components/advice-section.tsx:62-95 | rule 1 fires exactly when quitting now is earlier; it says working longer pays iff the gain is positive, quitting now otherwise, and the pension difference only with a gain and a difference above 100; it raises no other topic |
| Advice.FiredTopicsMembers | components/advice-section.tsx:62-141 | the fired topics hold rule 1's topics, the strategy topic iff the strategies differ by more than 10000, each risk iff its threshold is missed, nothing else; they are empty exactly when no rule fires |
| Advice.FallbackFromTopics | components/advice-section.tsx:143-151 | advice with the reference topics mentions the default exactly when no rule fired |
| Advice.FreeYearsFromTopics | components/advice-section.tsx:62-95 | advice with the reference topics mentions working longer pays, quitting now and the pension difference under exactly rule 1's conditions |
| Advice.OtherRulesFromTopics | components/advice-section.tsx:97-141 | advice with the reference topics mentions the strategy topic and each risk under exactly their rule's conditions |
| Advice.RunEngine | components/advice-section.tsx:40-99 | the runs use the chosen age and strategy, quitting now (today's age rounded up) only when that is earlier, and both strategies at the chosen age, all with the same claim age |
| Advice.AdviceFromRuns | components/advice-section.tsx:60-151 | over any runs whose quit-now result is present exactly when quitting now is earlier (as components/advice-section.tsx:50-58 builds them): the advice is never empty; the default appears, alone, exactly when no rule fired; rule 1 gives a verdict exactly when quitting now is earlier, working longer pays iff the gain is positive and quitting now otherwise; the pension difference appears iff there is a gain and the difference exceeds 100; the strategy item and each warning appear under exactly their conditions; the topics are each rule's topics once, in rule order; every item has its kind's tone; recommendations name the better strategy |
| Advice.AdviceFor | components/advice-section.tsx:40-151 | the advice for a profile satisfies all of `Advice.AdviceFromRuns`'s properties over the engine runs it makes (the chosen age, quitting now when earlier, and both strategies) |

## Left out

- `purchasingPower` and the `realPension` field (lib/retirement.ts:114-120 and 255-256) are left out. They use `Math.pow` with a real exponent, which is floating-point numerics.
- Floating-point rounding is not modelled: reals are exact. For example, `(birthYear - 1975) * 0.2` is computed exactly.
- The wall clock (`new Date()`) is replaced by `nowYear`/`nowMonth` parameters.
- Display text is not modelled: the `payMethod` labels, the subsidy's reason sentence, and the advice titles, descriptions, icons and number formatting (`toFixed`, `Math.round`). They become the `PayMethod` enumeration, the threshold carried by `BelowAgeThreshold`, and advice kinds carrying the figures they display.
- The comparison rows' extra `age` field (`{ age, ...r }`) is not modelled because it always equals the row's `quitAge`.
- JSX rendering, styling and React state are left out. This covers the table and advice markup, components/results.tsx, components/timeline.tsx, components/hero.tsx, components/step-indicator.tsx, app/page.tsx and app/layout.tsx.
- The input form's navigation is left out. Of its checks, only `yearsPaidNow > 0` is a precondition, because the engine divides by it. The engine handles any balance and quit age. `Engine.ValidProfileHasPension` adds the positive balance as a hypothesis.
- The copy of the divisor table in components/results.tsx is left out. It is identical to the engine's and is used only for a label.

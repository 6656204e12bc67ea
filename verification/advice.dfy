/** The advice rules: a fixed sequence of rules over a few engine results,
    each contributing at most a couple of advice items. An item is a kind
    tag carrying the figures it displays, and a tone. */
module Advice {
  import opened Policy
  import opened Ages
  import opened Engine

  /** The visual tone of an item: "default", "success" or "warning". */
  datatype Tone = Neutral | Success | Warning

  datatype AdviceKind =
    | WorkLongerPaysMore(moneyDiff: real, yearlyValue: real)
    | PensionGap(pensionDiff: real)
    | QuitNowBest(freeYears: real, extraGain: real)
    | StrategyChoice(recommended: Strategy, strategyDiff: real)
    | PensionWarning(shortfall: real)
    | MedicalWarning(shortfall: real, extraCost: real)
    | TryOtherAges

  datatype AdviceItem = AdviceItem(kind: AdviceKind, tone: Tone)

  /** The constructor of a kind, without its figures. */
  datatype Topic = FreeTimeValue | PensionDifference | QuitNow | StrategyTopic
                 | PensionRisk | MedicalRisk | Fallback

  function TopicOf(k: AdviceKind): Topic {
    match k
    case WorkLongerPaysMore(_, _) => FreeTimeValue
    case PensionGap(_) => PensionDifference
    case QuitNowBest(_, _) => QuitNow
    case StrategyChoice(_, _) => StrategyTopic
    case PensionWarning(_) => PensionRisk
    case MedicalWarning(_, _) => MedicalRisk
    case TryOtherAges => Fallback
  }

  /** The topics of `items`, in order. */
  function Topics(items: seq<AdviceItem>): (ts: seq<Topic>)
    ensures |ts| == |items|
  {
    if items == [] then [] else [TopicOf(items[0].kind)] + Topics(items[1..])
  }

  /** Some item of `items` is about `topic`. */
  predicate Mentions(items: seq<AdviceItem>, topic: Topic) {
    topic in Topics(items)
  }

  lemma {:induction false} TopicsConcat(a: seq<AdviceItem>, b: seq<AdviceItem>)
    ensures Topics(a + b) == Topics(a) + Topics(b)
  {
    if a != [] {
      assert (a + b)[1..] == a[1..] + b;
      TopicsConcat(a[1..], b);
      assert Topics(a + b) == [TopicOf(a[0].kind)] + Topics(a[1..] + b);
    } else {
      assert a + b == b;
    }
  }

  // Thresholds of the rules.
  const PensionDiffThreshold: real := 100.0
  const StrategyDiffThreshold: real := 10000.0

  function Abs(x: real): real {
    if x >= 0.0 then x else -x
  }

  /** No item of `items` is a strategy recommendation. */
  predicate NoStrategyItems(items: seq<AdviceItem>) {
    forall i :: 0 <= i < |items| ==> !items[i].kind.StrategyChoice?
  }

  /** Rule 1 fires when quitting now is earlier than the chosen age. */
  predicate FreeYearsRuleFires(currentAge: real, immediateAge: int, immediate: Option<RetirementResult>) {
    immediate.Some? && currentAge > immediateAge as real
  }

  /** The topics rule 1 produces: the verdict, and after a "working longer
      pays" verdict the pension difference when it exceeds the threshold. */
  function FreeYearsTopics(currentAge: real, immediateAge: int, current: RetirementResult,
                           immediate: Option<RetirementResult>): seq<Topic>
  {
    if !FreeYearsRuleFires(currentAge, immediateAge, immediate) then []
    else if current.netGain - immediate.value.netGain <= 0.0 then [QuitNow]
    else if current.monthlyPension - immediate.value.monthlyPension > PensionDiffThreshold
    then [FreeTimeValue, PensionDifference]
    else [FreeTimeValue]
  }

  /** The topics rules 1 to 3 produce, in rule order. */
  function FiredTopics(currentAge: real, immediateAge: int, current: RetirementResult,
                       immediate: Option<RetirementResult>, full: RetirementResult,
                       min: RetirementResult): seq<Topic>
  {
    FreeYearsTopics(currentAge, immediateAge, current, immediate)
    + (if Abs(full.netGain - min.netGain) > StrategyDiffThreshold then [StrategyTopic] else [])
    + (if !current.pensionOK then [PensionRisk] else [])
    + (if !current.medicalOK then [MedicalRisk] else [])
  }

  /** The topics of the whole advice: those of the rules that fired, or the
      default alone when none did. */
  function ExpectedTopics(currentAge: real, immediateAge: int, current: RetirementResult,
                          immediate: Option<RetirementResult>, full: RetirementResult,
                          min: RetirementResult): seq<Topic>
  {
    var fired := FiredTopics(currentAge, immediateAge, current, immediate, full, min);
    if fired == [] then [Fallback] else fired
  }

  /** The tone each kind of item is shown with: quitting now is good news,
      the risks are warnings, a recommendation is a success when it is the
      strategy already chosen, and everything else is neutral. */
  function ToneFor(kind: AdviceKind, chosen: Strategy): Tone {
    match kind
    case QuitNowBest(_, _) => Success
    case PensionWarning(_) => Warning
    case MedicalWarning(_, _) => Warning
    case StrategyChoice(recommended, _) => if recommended == chosen then Success else Neutral
    case _ => Neutral
  }

  predicate TonesAgree(items: seq<AdviceItem>, chosen: Strategy) {
    forall i :: 0 <= i < |items| ==> items[i].tone == ToneFor(items[i].kind, chosen)
  }

  /** Rule 1, the value of the years still worked: compares quitting at the
      chosen age with quitting now. Working longer either pays more (and
      possibly a noticeably larger pension) or quitting now is best. */
  function FreeYearsAdvice(currentAge: real, immediateAge: int, current: RetirementResult,
                           immediate: Option<RetirementResult>): (items: seq<AdviceItem>)
    ensures items == [] <==> !FreeYearsRuleFires(currentAge, immediateAge, immediate)
    ensures FreeTimeValue in Topics(items) <==>
      FreeYearsRuleFires(currentAge, immediateAge, immediate)
      && current.netGain - immediate.value.netGain > 0.0
    ensures QuitNow in Topics(items) <==>
      FreeYearsRuleFires(currentAge, immediateAge, immediate)
      && current.netGain - immediate.value.netGain <= 0.0
    ensures PensionDifference in Topics(items) <==>
      FreeYearsRuleFires(currentAge, immediateAge, immediate)
      && current.netGain - immediate.value.netGain > 0.0
      && current.monthlyPension - immediate.value.monthlyPension > PensionDiffThreshold
    ensures StrategyTopic !in Topics(items) && PensionRisk !in Topics(items)
      && MedicalRisk !in Topics(items) && Fallback !in Topics(items)
    ensures NoStrategyItems(items)
    ensures Topics(items) == FreeYearsTopics(currentAge, immediateAge, current, immediate)
    ensures TonesAgree(items, PayThrough) && TonesAgree(items, StopAtMin)
    // The figures shown: the gain per year worked, or the gain of quitting now.
    ensures forall i :: 0 <= i < |items| && items[i].kind.WorkLongerPaysMore? ==>
      items[i].kind.moneyDiff == current.netGain - immediate.value.netGain
      && items[i].kind.yearlyValue * (currentAge - immediateAge as real) == items[i].kind.moneyDiff
    ensures forall i :: 0 <= i < |items| && items[i].kind.QuitNowBest? ==>
      items[i].tone == Success && items[i].kind.extraGain == immediate.value.netGain - current.netGain
  {
    if FreeYearsRuleFires(currentAge, immediateAge, immediate) then
      var freeYears := currentAge - immediateAge as real;
      var moneyDiff := current.netGain - immediate.value.netGain;
      var pensionDiff := current.monthlyPension - immediate.value.monthlyPension;
      if moneyDiff > 0.0 then
        var worth := AdviceItem(WorkLongerPaysMore(moneyDiff, moneyDiff / freeYears), Neutral);
        if pensionDiff > PensionDiffThreshold then [worth, AdviceItem(PensionGap(pensionDiff), Neutral)]
        else [worth]
      else
        [AdviceItem(QuitNowBest(freeYears, -moneyDiff), Success)]
    else
      []
  }

  /** Rule 2, the contribution strategy: when the two strategies differ by
      more than the threshold, recommend the one with the larger net gain;
      the item is a success when it is the strategy already chosen. */
  function StrategyAdvice(chosen: Strategy, full: RetirementResult, min: RetirementResult): (items: seq<AdviceItem>)
    ensures items == [] <==> Abs(full.netGain - min.netGain) <= StrategyDiffThreshold
    ensures Topics(items) == if items == [] then [] else [StrategyTopic]
    ensures |items| <= 1
    ensures forall i :: 0 <= i < |items| ==>
      && items[i].kind.StrategyChoice?
      && (items[i].kind.recommended == PayThrough <==> full.netGain > min.netGain)
      && (items[i].kind.recommended == StopAtMin <==> min.netGain > full.netGain)
      && (items[i].tone == Success <==> items[i].kind.recommended == chosen)
      && (items[i].tone == Neutral <==> items[i].kind.recommended != chosen)
    // The same facts in the shape the assembled advice is checked against.
    ensures StrategyItemsAgree(items, chosen, full, min)
    ensures TonesAgree(items, chosen)
  {
    var strategyDiff := Abs(full.netGain - min.netGain);
    if strategyDiff > StrategyDiffThreshold then
      if full.netGain > min.netGain then
        [AdviceItem(StrategyChoice(PayThrough, strategyDiff), if chosen == StopAtMin then Neutral else Success)]
      else
        [AdviceItem(StrategyChoice(StopAtMin, strategyDiff), if chosen != StopAtMin then Neutral else Success)]
    else
      []
  }

  /** Rule 3, risk warnings for the chosen quit age. */
  function WarningAdvice(current: RetirementResult): (items: seq<AdviceItem>)
    ensures PensionRisk in Topics(items) <==> !current.pensionOK
    ensures MedicalRisk in Topics(items) <==> !current.medicalOK
    ensures FreeTimeValue !in Topics(items) && PensionDifference !in Topics(items) && QuitNow !in Topics(items)
      && StrategyTopic !in Topics(items) && Fallback !in Topics(items)
    ensures forall i :: 0 <= i < |items| ==> items[i].tone == Warning
    ensures NoStrategyItems(items)
    ensures Topics(items) == (if !current.pensionOK then [PensionRisk] else [])
                           + (if !current.medicalOK then [MedicalRisk] else [])
    ensures TonesAgree(items, PayThrough) && TonesAgree(items, StopAtMin)
  {
    var pension := if !current.pensionOK then [AdviceItem(PensionWarning(current.pensionShortfall), Warning)] else [];
    var medical :=
      if !current.medicalOK then [AdviceItem(MedicalWarning(current.medicalShortfall, current.medicalExtraCost), Warning)]
      else [];
    TopicsConcat(pension, medical);
    pension + medical
  }

  const DefaultAdvice: AdviceItem := AdviceItem(TryOtherAges, Neutral)

  /** Every strategy recommendation names the strategy with the larger net
      gain, and is marked a success exactly when it is the chosen one. */
  predicate StrategyItemsAgree(items: seq<AdviceItem>, strategy: Strategy,
                               full: RetirementResult, min: RetirementResult)
  {
    forall i :: 0 <= i < |items| && items[i].kind.StrategyChoice? ==>
      && (items[i].kind.recommended == PayThrough <==> full.netGain > min.netGain)
      && (items[i].kind.recommended == StopAtMin <==> min.netGain > full.netGain)
      && (items[i].tone == Success <==> items[i].kind.recommended == strategy)
  }

  /** The items of the three rules in order, or the default item alone when
      none fired. */
  function Assemble(free: seq<AdviceItem>, strategy: seq<AdviceItem>, warnings: seq<AdviceItem>): (items: seq<AdviceItem>)
    ensures |items| > 0
    ensures items == [DefaultAdvice] || items == free + strategy + warnings
    // The default is pushed only onto an empty list.
    ensures free + strategy + warnings != [] ==> items == free + strategy + warnings
  {
    var fired := free + strategy + warnings;
    if |fired| == 0 then [DefaultAdvice] else fired
  }

  /** The topics of the assembled advice are those of the rules in order, or
      the default alone. */
  lemma AssembleTopics(free: seq<AdviceItem>, strategy: seq<AdviceItem>, warnings: seq<AdviceItem>)
    ensures var fired := Topics(free) + Topics(strategy) + Topics(warnings);
      Topics(Assemble(free, strategy, warnings)) == if fired == [] then [Fallback] else fired
  {
    TopicsConcat(free, strategy);
    TopicsConcat(free + strategy, warnings);
    if |free + strategy + warnings| == 0 {
      assert Topics([DefaultAdvice]) == [Fallback];
    }
  }

  /** Assembling keeps the tones of the rules' items. */
  lemma AssembleTones(free: seq<AdviceItem>, strategy: seq<AdviceItem>, warnings: seq<AdviceItem>, chosen: Strategy)
    requires TonesAgree(free, chosen) && TonesAgree(strategy, chosen) && TonesAgree(warnings, chosen)
    ensures TonesAgree(Assemble(free, strategy, warnings), chosen)
  {
    var items := Assemble(free, strategy, warnings);
    if items != [DefaultAdvice] {
      forall i | 0 <= i < |items|
        ensures items[i].tone == ToneFor(items[i].kind, chosen)
      {
        if i < |free| {
          assert items[i] == free[i];
        } else if i < |free| + |strategy| {
          assert items[i] == strategy[i - |free|];
        } else {
          assert items[i] == warnings[i - |free| - |strategy|];
        }
      }
    }
  }

  /** When only the middle rule recommends strategies, the assembled advice
      recommends exactly as it does. */
  lemma AssembleStrategyItems(free: seq<AdviceItem>, strategy: seq<AdviceItem>, warnings: seq<AdviceItem>,
                              chosen: Strategy, full: RetirementResult, min: RetirementResult)
    requires NoStrategyItems(free) && NoStrategyItems(warnings)
    requires StrategyItemsAgree(strategy, chosen, full, min)
    ensures StrategyItemsAgree(Assemble(free, strategy, warnings), chosen, full, min)
  {
    var items := Assemble(free, strategy, warnings);
    if items != [DefaultAdvice] {
      forall i | 0 <= i < |items| && items[i].kind.StrategyChoice?
        ensures items[i] == strategy[i - |free|]
      {
      }
    }
  }

  /** The three rules' topics, in order, are the reference ones. */
  lemma RuleTopics(chosen: Strategy, currentAge: real, immediateAge: int,
                   current: RetirementResult, immediate: Option<RetirementResult>,
                   full: RetirementResult, min: RetirementResult)
    ensures Topics(FreeYearsAdvice(currentAge, immediateAge, current, immediate))
          + Topics(StrategyAdvice(chosen, full, min)) + Topics(WarningAdvice(current))
         == FiredTopics(currentAge, immediateAge, current, immediate, full, min)
  {
    var strategy := StrategyAdvice(chosen, full, min);
    assert Topics(strategy) == if Abs(full.netGain - min.netGain) > StrategyDiffThreshold then [StrategyTopic] else [];
  }

  /** The rules in order, with the default item when none fired. */
  function EvaluateRules(chosen: Strategy, currentAge: real, immediateAge: int,
                         current: RetirementResult, immediate: Option<RetirementResult>,
                         full: RetirementResult, min: RetirementResult): (items: seq<AdviceItem>)
    ensures |items| > 0
    // The topics, in order, are exactly the reference sequence: each rule's
    // topics once and in rule order, or the default alone.
    ensures Topics(items) == ExpectedTopics(currentAge, immediateAge, current, immediate, full, min)
    ensures Mentions(items, Fallback) ==> items == [DefaultAdvice]
  {
    var free := FreeYearsAdvice(currentAge, immediateAge, current, immediate);
    var strategy := StrategyAdvice(chosen, full, min);
    var warnings := WarningAdvice(current);
    AssembleTopics(free, strategy, warnings);
    RuleTopics(chosen, currentAge, immediateAge, current, immediate, full, min);
    Assemble(free, strategy, warnings)
  }

  /** Every item carries the tone of its kind. */
  lemma EvaluateRulesTones(chosen: Strategy, currentAge: real, immediateAge: int,
                           current: RetirementResult, immediate: Option<RetirementResult>,
                           full: RetirementResult, min: RetirementResult)
    ensures TonesAgree(EvaluateRules(chosen, currentAge, immediateAge, current, immediate, full, min), chosen)
  {
    AssembleTones(FreeYearsAdvice(currentAge, immediateAge, current, immediate), StrategyAdvice(chosen, full, min),
                  WarningAdvice(current), chosen);
  }

  /** Only rule 2 recommends a strategy, so every recommendation in the
      advice names the better strategy. */
  lemma EvaluateRulesStrategyItems(chosen: Strategy, currentAge: real, immediateAge: int,
                                   current: RetirementResult, immediate: Option<RetirementResult>,
                                   full: RetirementResult, min: RetirementResult)
    ensures StrategyItemsAgree(EvaluateRules(chosen, currentAge, immediateAge, current, immediate, full, min),
                               chosen, full, min)
  {
    AssembleStrategyItems(FreeYearsAdvice(currentAge, immediateAge, current, immediate),
                          StrategyAdvice(chosen, full, min), WarningAdvice(current), chosen, full, min);
  }

  /** The default is mentioned exactly when no rule fired. */
  predicate FallbackMentioned(items: seq<AdviceItem>, currentAge: real, immediateAge: int,
                              current: RetirementResult, immediate: Option<RetirementResult>,
                              full: RetirementResult, min: RetirementResult)
  {
    Mentions(items, Fallback) <==>
      && !FreeYearsRuleFires(currentAge, immediateAge, immediate)
      && Abs(full.netGain - min.netGain) <= StrategyDiffThreshold
      && current.pensionOK && current.medicalOK
  }

  /** Rule 1's topics are mentioned exactly under their conditions. */
  predicate FreeYearsMentioned(items: seq<AdviceItem>, currentAge: real, immediateAge: int,
                               current: RetirementResult, immediate: Option<RetirementResult>)
  {
    var fires := FreeYearsRuleFires(currentAge, immediateAge, immediate);
    && (Mentions(items, FreeTimeValue) <==> fires && current.netGain - immediate.value.netGain > 0.0)
    && (Mentions(items, QuitNow) <==> fires && current.netGain - immediate.value.netGain <= 0.0)
    && (Mentions(items, PensionDifference) <==>
          && fires && current.netGain - immediate.value.netGain > 0.0
          && current.monthlyPension - immediate.value.monthlyPension > PensionDiffThreshold)
  }

  /** The topics of rules 2 and 3 are mentioned exactly under their conditions. */
  predicate OtherRulesMentioned(items: seq<AdviceItem>, current: RetirementResult,
                                full: RetirementResult, min: RetirementResult)
  {
    && (Mentions(items, StrategyTopic) <==> Abs(full.netGain - min.netGain) > StrategyDiffThreshold)
    && (Mentions(items, PensionRisk) <==> !current.pensionOK)
    && (Mentions(items, MedicalRisk) <==> !current.medicalOK)
  }

  /** Rule 1's topics, topic by topic. */
  lemma FreeYearsTopicsMembers(currentAge: real, immediateAge: int, current: RetirementResult,
                               immediate: Option<RetirementResult>)
    ensures var ts := FreeYearsTopics(currentAge, immediateAge, current, immediate);
      var fires := FreeYearsRuleFires(currentAge, immediateAge, immediate);
      && (ts == [] <==> !fires)
      && (FreeTimeValue in ts <==> fires && current.netGain - immediate.value.netGain > 0.0)
      && (QuitNow in ts <==> fires && current.netGain - immediate.value.netGain <= 0.0)
      && (PensionDifference in ts <==>
            && fires && current.netGain - immediate.value.netGain > 0.0
            && current.monthlyPension - immediate.value.monthlyPension > PensionDiffThreshold)
      && StrategyTopic !in ts && PensionRisk !in ts && MedicalRisk !in ts && Fallback !in ts
  {
  }

  /** The topics the rules fire, as a membership test: rule 1's, then the
      strategy topic and the two risks under their conditions; never the
      default. */
  lemma FiredTopicsMembers(currentAge: real, immediateAge: int, current: RetirementResult,
                           immediate: Option<RetirementResult>, full: RetirementResult,
                           min: RetirementResult)
    ensures var fired := FiredTopics(currentAge, immediateAge, current, immediate, full, min);
      var free := FreeYearsTopics(currentAge, immediateAge, current, immediate);
      && (forall t :: t in free ==> t in fired)
      && (StrategyTopic in fired <==> Abs(full.netGain - min.netGain) > StrategyDiffThreshold)
      && (PensionRisk in fired <==> !current.pensionOK)
      && (MedicalRisk in fired <==> !current.medicalOK)
      && (forall t :: t in fired && t != StrategyTopic && t != PensionRisk && t != MedicalRisk ==> t in free)
      && (fired == [] <==> free == [] && Abs(full.netGain - min.netGain) <= StrategyDiffThreshold
                           && current.pensionOK && current.medicalOK)
  {
    FreeYearsTopicsMembers(currentAge, immediateAge, current, immediate);
  }

  /** Any advice whose topics are the reference ones mentions the default
      exactly when no rule fired. */
  lemma FallbackFromTopics(items: seq<AdviceItem>, currentAge: real, immediateAge: int,
                           current: RetirementResult, immediate: Option<RetirementResult>,
                           full: RetirementResult, min: RetirementResult)
    requires Topics(items) == ExpectedTopics(currentAge, immediateAge, current, immediate, full, min)
    ensures FallbackMentioned(items, currentAge, immediateAge, current, immediate, full, min)
  {
    FreeYearsTopicsMembers(currentAge, immediateAge, current, immediate);
    FiredTopicsMembers(currentAge, immediateAge, current, immediate, full, min);
  }

  /** Any advice whose topics are the reference ones mentions rule 1's
      topics under exactly their conditions. */
  lemma FreeYearsFromTopics(items: seq<AdviceItem>, currentAge: real, immediateAge: int,
                            current: RetirementResult, immediate: Option<RetirementResult>,
                            full: RetirementResult, min: RetirementResult)
    requires Topics(items) == ExpectedTopics(currentAge, immediateAge, current, immediate, full, min)
    ensures FreeYearsMentioned(items, currentAge, immediateAge, current, immediate)
  {
    FreeYearsTopicsMembers(currentAge, immediateAge, current, immediate);
    FiredTopicsMembers(currentAge, immediateAge, current, immediate, full, min);
  }

  /** Any advice whose topics are the reference ones mentions the topics of
      rules 2 and 3 under exactly their conditions. */
  lemma OtherRulesFromTopics(items: seq<AdviceItem>, currentAge: real, immediateAge: int,
                             current: RetirementResult, immediate: Option<RetirementResult>,
                             full: RetirementResult, min: RetirementResult)
    requires Topics(items) == ExpectedTopics(currentAge, immediateAge, current, immediate, full, min)
    ensures OtherRulesMentioned(items, current, full, min)
  {
    FiredTopicsMembers(currentAge, immediateAge, current, immediate, full, min);
  }

  /** The engine runs the advice is drawn from. */
  datatype Runs = Runs(
    immediateAge: int,
    current: RetirementResult,
    immediate: Option<RetirementResult>,
    full: RetirementResult,
    min: RetirementResult)

  /** The engine is run for the chosen quit age, for quitting now (today's
      age rounded up) when that is earlier, and for both strategies, always
      with the same claim age. */
  function RunEngine(user: UserData, nowYear: int, nowMonth: int, currentAge: real,
                     strategy: Strategy, claimAge: real): (runs: Runs)
    requires user.yearsPaidNow > 0.0
    ensures runs.immediateAge == Ceil(AgeFromBirth(user.birthYear, user.birthMonth, nowYear, nowMonth) as real)
    ensures runs.immediate.Some? <==> (runs.immediateAge as real) < currentAge
    ensures runs.current.quitAge == currentAge && runs.current.strategy == strategy
    ensures runs.immediate.Some? ==>
      runs.immediate.value.quitAge == runs.immediateAge as real && runs.immediate.value.strategy == strategy
      && runs.immediate.value.actualClaimAge == claimAge
    ensures runs.full.quitAge == currentAge && runs.full.strategy == PayThrough
    ensures runs.min.quitAge == currentAge && runs.min.strategy == StopAtMin
    ensures runs.current.actualClaimAge == claimAge && runs.full.actualClaimAge == claimAge
      && runs.min.actualClaimAge == claimAge
  {
    var ageNow := AgeFromBirth(user.birthYear, user.birthMonth, nowYear, nowMonth);
    var immediateAge := Ceil(ageNow as real);
    Runs(
      immediateAge,
      ComputeRetirement(user, nowYear, nowMonth, currentAge, strategy, Some(claimAge)),
      if (immediateAge as real) < currentAge
      then Some(ComputeRetirement(user, nowYear, nowMonth, immediateAge as real, strategy, Some(claimAge)))
      else None,
      ComputeRetirement(user, nowYear, nowMonth, currentAge, PayThrough, Some(claimAge)),
      ComputeRetirement(user, nowYear, nowMonth, currentAge, StopAtMin, Some(claimAge)))
  }

  /** What the advice says about a set of runs. Something is always said.
      The default item appears, alone, exactly when no rule fired. Rule 1
      speaks exactly when quitting now is earlier: "working longer pays"
      exactly when it gains net, "quit now" otherwise, and the pension
      difference only after a gain and above the threshold. The warnings
      name exactly the thresholds the chosen quit age misses. A strategy is
      recommended exactly when the two differ by more than the threshold,
      and then the better one. The topics come once each, in rule order,
      and every item carries the tone of its kind. */
  predicate FollowsRules(items: seq<AdviceItem>, strategy: Strategy, currentAge: real, runs: Runs) {
    // The next three conjuncts follow from the rest; they are kept as the
    // direct statements of non-emptiness, a lone default and a rule-1 verdict.
    && |items| > 0
    && (Mentions(items, Fallback) ==> items == [DefaultAdvice])
    && (Mentions(items, FreeTimeValue) || Mentions(items, QuitNow) <==> (runs.immediateAge as real) < currentAge)
    && FallbackMentioned(items, currentAge, runs.immediateAge, runs.current, runs.immediate, runs.full, runs.min)
    && FreeYearsMentioned(items, currentAge, runs.immediateAge, runs.current, runs.immediate)
    && OtherRulesMentioned(items, runs.current, runs.full, runs.min)
    && Topics(items) == ExpectedTopics(currentAge, runs.immediateAge, runs.current, runs.immediate, runs.full, runs.min)
    && StrategyItemsAgree(items, strategy, runs.full, runs.min)
    && TonesAgree(items, strategy)
  }

  /** The advice for a profile, the chosen quit age and strategy and a claim
      age. */
  function AdviceFor(user: UserData, nowYear: int, nowMonth: int, currentAge: real,
                     strategy: Strategy, claimAge: real): (items: seq<AdviceItem>)
    requires user.yearsPaidNow > 0.0
    ensures FollowsRules(items, strategy, currentAge, RunEngine(user, nowYear, nowMonth, currentAge, strategy, claimAge))
  {
    var runs := RunEngine(user, nowYear, nowMonth, currentAge, strategy, claimAge);
    AdviceFromRuns(strategy, currentAge, runs)
  }

  /** The rules applied to a set of runs. */
  function AdviceFromRuns(strategy: Strategy, currentAge: real, runs: Runs): (items: seq<AdviceItem>)
    requires runs.immediate.Some? <==> (runs.immediateAge as real) < currentAge
    ensures FollowsRules(items, strategy, currentAge, runs)
  {
    var items := EvaluateRules(strategy, currentAge, runs.immediateAge, runs.current, runs.immediate, runs.full, runs.min);
    FallbackFromTopics(items, currentAge, runs.immediateAge, runs.current, runs.immediate, runs.full, runs.min);
    FreeYearsFromTopics(items, currentAge, runs.immediateAge, runs.current, runs.immediate, runs.full, runs.min);
    OtherRulesFromTopics(items, currentAge, runs.immediateAge, runs.current, runs.immediate, runs.full, runs.min);
    EvaluateRulesTones(strategy, currentAge, runs.immediateAge, runs.current, runs.immediate, runs.full, runs.min);
    EvaluateRulesStrategyItems(strategy, currentAge, runs.immediateAge, runs.current, runs.immediate,
                               runs.full, runs.min);
    items
  }
}

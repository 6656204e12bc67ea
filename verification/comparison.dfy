/** The scenario comparator: runs the engine for a handful of candidate quit
    ages between today and the claim age and picks the best net gain. */
module Comparison {
  import opened Policy
  import opened Ages
  import opened Engine

  /** Strictly ascending: sorted and free of duplicates. */
  predicate StrictlyIncreasing(s: seq<real>) {
    forall i, j :: 0 <= i < j < |s| ==> s[i] < s[j]
  }

  predicate Distinct(s: seq<real>) {
    forall i, j :: 0 <= i < j < |s| ==> s[i] != s[j]
  }

  /** The candidates before filtering: quit now (today's age rounded up),
      the chosen age, and three and five years after it, capped at the
      claim age. */
  function RawCandidates(ageNow: int, currentAge: real, claimAge: real): (c: seq<real>)
    ensures |c| == 4
    ensures c[0] == ageNow as real && c[1] == currentAge
    ensures c[2] <= claimAge && c[2] <= currentAge + 3.0
    ensures c[2] == currentAge + 3.0 || c[2] == claimAge
    ensures c[3] <= claimAge && c[3] <= currentAge + 5.0
    ensures c[3] == currentAge + 5.0 || c[3] == claimAge
  {
    CeilOfInt(ageNow);
    [Ceil(ageNow as real) as real, currentAge, Min(currentAge + 3.0, claimAge), Min(currentAge + 5.0, claimAge)]
  }

  /** `Array.indexOf`: the first position of `v`, or -1. */
  function IndexOf(a: seq<real>, v: real): (i: int)
    ensures -1 <= i < |a|
    ensures i == -1 <==> v !in a
    ensures i >= 0 ==> a[i] == v && forall j :: 0 <= j < i ==> a[j] != v
  {
    if |a| == 0 then -1
    else if a[0] == v then 0
    else
      var k := IndexOf(a[1..], v);
      if k < 0 then -1 else k + 1
  }

  /** The filter's test for position `i`: the first occurrence of its value,
      and within `[lo, hi]`. */
  predicate Keep(a: seq<real>, i: int, lo: real, hi: real)
    requires 0 <= i < |a|
  {
    IndexOf(a, a[i]) == i && lo <= a[i] <= hi
  }

  /** `a.filter(...)` applied to the first `n` positions of `a`. */
  function FilterPrefix(a: seq<real>, n: nat, lo: real, hi: real): (f: seq<real>)
    requires n <= |a|
    ensures |f| <= n
    ensures Distinct(f)
    ensures forall x :: x in f <==> x in a[..n] && lo <= x <= hi
  {
    if n == 0 then []
    else
      var f := FilterPrefix(a, n - 1, lo, hi);
      assert a[..n] == a[..n - 1] + [a[n - 1]];
      if Keep(a, n - 1, lo, hi) then
        assert a[n - 1] !in a[..n - 1];
        f + [a[n - 1]]
      else
        assert a[n - 1] in a[..n - 1] || !(lo <= a[n - 1] <= hi) by {
          if lo <= a[n - 1] <= hi {
            var k := IndexOf(a, a[n - 1]);
            assert 0 <= k < n - 1;
            assert a[..n - 1][k] == a[n - 1];
          }
        }
        f
  }

  /** Insert `x` into a strictly ascending list that does not hold it. */
  function Insert(x: real, s: seq<real>): (r: seq<real>)
    requires StrictlyIncreasing(s) && x !in s
    ensures StrictlyIncreasing(r)
    ensures |r| == |s| + 1
    ensures forall y :: y in r <==> y == x || y in s
  {
    if |s| == 0 then [x]
    else if x < s[0] then [x] + s
    else
      var t := Insert(x, s[1..]);
      assert forall k :: 0 <= k < |t| ==> s[0] < t[k] by {
        forall k | 0 <= k < |t|
          ensures s[0] < t[k]
        {
          assert t[k] in t;
          if t[k] != x {
            var m :| 0 <= m < |s[1..]| && s[1..][m] == t[k];
            assert s[m + 1] == t[k];
          }
        }
      }
      [s[0]] + t
  }

  /** `sort((a, b) => a - b)` on a list without duplicates: the same elements
      (a permutation, since both lists are duplicate-free and equally long) in
      ascending order. */
  function SortAscending(s: seq<real>): (r: seq<real>)
    requires Distinct(s)
    ensures StrictlyIncreasing(r)
    ensures |r| == |s|
    ensures forall y :: y in r <==> y in s
  {
    if |s| == 0 then []
    else
      var t := SortAscending(s[..|s| - 1]);
      assert s == s[..|s| - 1] + [s[|s| - 1]];
      assert s[|s| - 1] !in s[..|s| - 1];
      Insert(s[|s| - 1], t)
  }

  /** The quit ages compared: the raw candidates deduplicated, restricted to
      `[ageNow, claimAge]` and sorted. */
  function CandidateAges(ageNow: int, currentAge: real, claimAge: real): (ages: seq<real>)
    ensures StrictlyIncreasing(ages)
    ensures forall v :: v in ages <==>
      v in RawCandidates(ageNow, currentAge, claimAge) && ageNow as real <= v <= claimAge
    ensures |ages| <= 4
  {
    var raw := RawCandidates(ageNow, currentAge, claimAge);
    assert raw[..4] == raw;
    SortAscending(FilterPrefix(raw, 4, ageNow as real, claimAge))
  }

  /** One engine run per candidate age, in order, all with the same strategy
      and claim age. */
  function ResultsFor(user: UserData, nowYear: int, nowMonth: int, ages: seq<real>,
                      strategy: Strategy, claimAge: real): (rs: seq<RetirementResult>)
    requires user.yearsPaidNow > 0.0
    ensures |rs| == |ages|
    ensures forall i :: 0 <= i < |rs| ==>
      && rs[i].quitAge == ages[i]
      && rs[i].strategy == strategy
      && rs[i].actualClaimAge == claimAge
  {
    seq(|ages|, i requires 0 <= i < |ages| =>
      ComputeRetirement(user, nowYear, nowMonth, ages[i], strategy, Some(claimAge)))
  }

  /** The `reduce` over the results, as a position: a later result replaces
      the best so far only when its net gain is strictly larger. */
  function ReduceBest(rs: seq<RetirementResult>, best: nat, i: nat): (k: nat)
    requires best < |rs| && i <= |rs|
    ensures k < |rs|
    // Either the best so far survives or a later result replaced it.
    ensures k == best || i <= k
    ensures rs[k].netGain >= rs[best].netGain
    decreases |rs| - i
  {
    if i == |rs| then best
    else ReduceBest(rs, if rs[i].netGain > rs[best].netGain then i else best, i + 1)
  }

  lemma {:induction false} ReduceBestIsFirstMaximum(rs: seq<RetirementResult>, best: nat, i: nat)
    requires best < |rs| && i <= |rs|
    requires best <= i
    requires forall j :: 0 <= j < i ==> rs[j].netGain <= rs[best].netGain
    requires forall j :: 0 <= j < best ==> rs[j].netGain < rs[best].netGain
    ensures var k := ReduceBest(rs, best, i);
      && k < |rs|
      && (forall j :: 0 <= j < |rs| ==> rs[j].netGain <= rs[k].netGain)
      && (forall j :: 0 <= j < k ==> rs[j].netGain < rs[k].netGain)
    decreases |rs| - i
  {
    if i < |rs| {
      var next := if rs[i].netGain > rs[best].netGain then i else best;
      ReduceBestIsFirstMaximum(rs, next, i + 1);
    }
  }

  /** The best result: the first one with the maximal net gain. */
  function BestIndex(rs: seq<RetirementResult>): (k: nat)
    requires |rs| > 0
    ensures k < |rs|
    ensures forall j :: 0 <= j < |rs| ==> rs[j].netGain <= rs[k].netGain
    ensures forall j :: 0 <= j < k ==> rs[j].netGain < rs[k].netGain
  {
    ReduceBestIsFirstMaximum(rs, 0, 0);
    ReduceBest(rs, 0, 0)
  }

  /** When the ages ascend, the first of the best results has the earliest
      quit age among all equally good ones. */
  lemma FirstBestHasEarliestAge(rs: seq<RetirementResult>, ages: seq<real>, k: nat)
    requires |rs| == |ages| && k < |rs| && StrictlyIncreasing(ages)
    requires forall i :: 0 <= i < |rs| ==> rs[i].quitAge == ages[i]
    requires forall j :: 0 <= j < k ==> rs[j].netGain < rs[k].netGain
    ensures forall r :: r in rs && r.netGain == rs[k].netGain ==> rs[k].quitAge <= r.quitAge
  {
    forall r | r in rs && r.netGain == rs[k].netGain
      ensures rs[k].quitAge <= r.quitAge
    {
      var j :| 0 <= j < |rs| && rs[j] == r;
      assert k <= j;
    }
  }

  datatype ComparisonTable = ComparisonTable(
    ages: seq<real>,
    results: seq<RetirementResult>,
    best: Option<RetirementResult>)

  /** The comparison table for a profile, the chosen quit age, strategy and
      claim age; there is no best result when no candidate survives. */
  function Compare(user: UserData, nowYear: int, nowMonth: int, currentAge: real,
                   strategy: Strategy, claimAge: real): (t: ComparisonTable)
    requires user.yearsPaidNow > 0.0
    ensures t.ages == CandidateAges(AgeFromBirth(user.birthYear, user.birthMonth, nowYear, nowMonth),
                                    currentAge, claimAge)
    ensures |t.results| == |t.ages|
    ensures forall i :: 0 <= i < |t.results| ==>
      t.results[i].quitAge == t.ages[i] && t.results[i].strategy == strategy
    ensures t.best.Some? <==> |t.results| > 0
    ensures t.best.Some? ==>
      && t.best.value in t.results
      && forall r :: r in t.results ==> r.netGain <= t.best.value.netGain
    // Among equally good results the earliest quit age wins.
    ensures t.best.Some? ==> forall r :: r in t.results && r.netGain == t.best.value.netGain ==>
      t.best.value.quitAge <= r.quitAge
  {
    var ageNow := AgeFromBirth(user.birthYear, user.birthMonth, nowYear, nowMonth);
    var ages := CandidateAges(ageNow, currentAge, claimAge);
    var results := ResultsFor(user, nowYear, nowMonth, ages, strategy, claimAge);
    if |results| == 0 then ComparisonTable(ages, results, None)
    else
      var k := BestIndex(results);
      FirstBestHasEarliestAge(results, ages, k);
      ComparisonTable(ages, results, Some(results[k]))
  }
}

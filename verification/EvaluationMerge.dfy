/** What the merged evaluation of singleton runs says about the single reports. */
module EvaluationMerge {
  import opened Collections
  import opened RolloutGate
  import opened Aggregation

  /** How often a report counts an outcome. */
  function Occurrences(name: string): EvalReport -> Option<int> {
    (r: EvalReport) => Some(if name in r.confusion then r.confusion[name] else 0)
  }

  predicate CasePassed(c: CaseResult) { c.passed }

  predicate CaseFailedByProvider(c: CaseResult) { c.providerFailure }

  function CasesIn(r: EvalReport): Option<int> { Some(|r.cases|) }

  function PassesIn(r: EvalReport): Option<int> { Some(Count(CasePassed, r.cases)) }

  function ProviderFailuresIn(r: EvalReport): Option<int> { Some(Count(CaseFailedByProvider, r.cases)) }

  function RetriesIn(r: EvalReport): Option<int> { Some(r.providerRetries) }

  function CostIn(r: EvalReport): Option<int> { Some(r.totalCost) }

  function Total(f: EvalReport -> Option<int>, reports: seq<EvalReport>): int { Sum(FilterMap(f, reports)) }

  lemma TotalLast(f: EvalReport -> Option<int>, reports: seq<EvalReport>, r: EvalReport)
    requires f(r).Some?
    ensures Total(f, reports + [r]) == Total(f, reports) + f(r).value
  {
    FilterMapLast(f, reports, r);
    SumLast(FilterMap(f, reports), f(r).value);
  }

  lemma TotalNone(f: EvalReport -> Option<int>)
    ensures Total(f, []) == 0
  {
  }

  /** Every outcome is counted as often as in all reports together. */
  lemma {:induction false} OutcomesAdd(reports: seq<EvalReport>, name: string)
    ensures (if name in MergedOutcomes(reports) then MergedOutcomes(reports)[name] else 0) ==
            Total(Occurrences(name), reports)
    ensures name in MergedOutcomes(reports) <==> exists r :: r in reports && name in r.confusion
  {
    hide Total;
    if reports == [] {
      TotalNone(Occurrences(name));
    } else {
      var front, last := reports[..|reports| - 1], reports[|reports| - 1];
      assert reports == front + [last];
      OutcomesAdd(front, name);
      TotalLast(Occurrences(name), front, last);
    }
  }

  lemma CasesLast(front: seq<EvalReport>, last: EvalReport)
    ensures CasesOf(front + [last]) == CasesOf(front) + last.cases
  {
    var all := seq(|front| + 1, i requires 0 <= i < |front| + 1 => (front + [last])[i].cases);
    var before := seq(|front|, i requires 0 <= i < |front| => front[i].cases);
    assert all[..|front|] == before && all[|front|] == last.cases;
    assert CasesOf(front + [last]) == Flatten(all);
  }

  /** The cases of the merge are those of the reports, and so are their numbers. */
  lemma {:induction false} CasesAdd(reports: seq<EvalReport>)
    ensures |CasesOf(reports)| == Total(CasesIn, reports)
    ensures Count(CasePassed, CasesOf(reports)) == Total(PassesIn, reports)
    ensures Count(CaseFailedByProvider, CasesOf(reports)) == Total(ProviderFailuresIn, reports)
    ensures forall c :: c in CasesOf(reports) <==> exists r :: r in reports && c in r.cases
  {
    hide Total, Count, CasesOf;
    if reports == [] {
      NoCases();
      TotalNone(CasesIn);
      TotalNone(PassesIn);
      TotalNone(ProviderFailuresIn);
    } else {
      var front, last := reports[..|reports| - 1], reports[|reports| - 1];
      assert reports == front + [last];
      CasesAdd(front);
      CasesLast(front, last);
      TotalLast(CasesIn, front, last);
      TotalLast(PassesIn, front, last);
      TotalLast(ProviderFailuresIn, front, last);
      CountConcat(CasePassed, CasesOf(front), last.cases);
      CountConcat(CaseFailedByProvider, CasesOf(front), last.cases);
    }
  }

  lemma NoCases()
    ensures CasesOf([]) == [] && Count(CasePassed, []) == 0 && Count(CaseFailedByProvider, []) == 0
  {
  }

  /** The merged report as totals of the reports. */
  ghost predicate MergesTo(reports: seq<EvalReport>, m: EvalReport) {
    && m.totalCases == Total(CasesIn, reports)
    && m.passedCases == Total(PassesIn, reports)
    && m.providerFailureCount == Total(ProviderFailuresIn, reports)
    && m.providerRetries == Total(RetriesIn, reports)
    && m.totalCost == Total(CostIn, reports)
    && (forall r :: r in reports ==> m.flags == r.flags)
    && (forall name :: Occurrences(name)(m).value == Total(Occurrences(name), reports))
    && (forall c :: c in m.cases <==> exists r :: r in reports && c in r.cases)
  }

  predicate FlagsAgree(reports: seq<EvalReport>) {
    forall a, b :: a in reports && b in reports ==> a.flags == b.flags
  }

  lemma SameFlags(reports: seq<EvalReport>)
    requires reports != []
    ensures FlagsAgree(reports) <==> forall r :: r in reports ==> r.flags == reports[0].flags
  {
    assert reports[0] in reports;
  }

  lemma CountedCases(reports: seq<EvalReport>)
    ensures Count(IsPassed, CasesOf(reports)) == Count(CasePassed, CasesOf(reports))
    ensures Count(IsProviderFailure, CasesOf(reports)) == Count(CaseFailedByProvider, CasesOf(reports))
  {
    CountCongruent(IsPassed, CasePassed, CasesOf(reports));
    CountCongruent(IsProviderFailure, CaseFailedByProvider, CasesOf(reports));
  }

  lemma CountedTotals(reports: seq<EvalReport>)
    ensures Sum(FilterMap(RetriesOf, reports)) == Total(RetriesIn, reports)
    ensures Sum(FilterMap(TotalCostOf, reports)) == Total(CostIn, reports)
  {
    FilterMapCongruent(RetriesOf, RetriesIn, reports);
    FilterMapCongruent(TotalCostOf, CostIn, reports);
  }

  /** When evaluations can be merged, and into what: there is one, their flags
      agree and no cost is negative; then every number of the merge is the total
      of the reports' numbers. */
  lemma MergedEvaluationMeans(reports: seq<EvalReport>)
    ensures MergedEvaluation(reports).Ok? <==>
            reports != [] && FlagsAgree(reports) && forall r :: r in reports ==> r.totalCost >= 0
    ensures MergedEvaluation(reports) == Err(FlagsDrifted) <==> reports == [] || !FlagsAgree(reports)
    ensures MergedEvaluation(reports).Ok? ==> MergesTo(reports, MergedEvaluation(reports).value)
  {
    hide Total, CasesOf, MergedOutcomes, Sum, FilterMap, Count;
    if reports != [] {
      SameFlags(reports);
    }
    if MergedEvaluation(reports).Ok? {
      CasesAdd(reports);
      CountedCases(reports);
      CountedTotals(reports);
      forall name
        ensures (if name in MergedOutcomes(reports) then MergedOutcomes(reports)[name] else 0) ==
                Total(Occurrences(name), reports)
      {
        OutcomesAdd(reports, name);
      }
    }
  }

  lemma {:induction false} NonNegativeTotal(f: EvalReport -> Option<int>, reports: seq<EvalReport>)
    requires forall r :: r in reports ==> f(r).Some? && f(r).value >= 0
    ensures Total(f, reports) >= 0
    ensures Total(f, reports) == 0 <==> forall r :: r in reports ==> f(r).value == 0
  {
    hide Total;
    if reports == [] {
      TotalNone(f);
    } else {
      var front, last := reports[..|reports| - 1], reports[|reports| - 1];
      assert reports == front + [last];
      assert forall r :: r in front ==> r in reports;
      assert last in reports;
      NonNegativeTotal(f, front);
      TotalLast(f, front, last);
    }
  }

  /** With counts as they should be, an outcome is absent from the merge exactly
      if no single run had it. */
  lemma OutcomeAbsent(reports: seq<EvalReport>, name: string)
    requires MergedEvaluation(reports).Ok?
    requires forall r :: r in reports ==> Occurrences(name)(r).value >= 0
    ensures Occurrences(name)(MergedEvaluation(reports).value).value == 0 <==>
            forall r :: r in reports ==> Occurrences(name)(r).value == 0
  {
    MergedEvaluationMeans(reports);
    NonNegativeTotal(Occurrences(name), reports);
  }
}

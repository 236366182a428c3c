/** The status of a diagnostic run in terms of the summaries of its two series,
    and what a passed run says about the arms that it ran. */
module DiagnosticVerdict {
  import opened Collections
  import opened TraceSnapshot
  import opened LatencyBreakdown
  import opened RolloutGate
  import opened Aggregation
  import opened EvaluationMerge
  import opened GateMeaning
  import opened DiagnosticPlan
  import opened DiagnosticRun
  import opened DiagnosticOutcome
  import opened DiagnosticEvidence

  // ----- the dominant stage of a series

  const LISTED: seq<Stage> := [
    RetrievalTime, ParentContextTime, RerankTime, GenerationTime, CorrectionTime, ClaimRepairTime
  ]

  /** By how much the candidate's median exceeds the baseline's, 0 if the latter is missing. */
  function Excess(s: SeriesSummary, stage: Stage): int
    requires stage in s.candidate.stageSummary
  {
    s.candidate.stageSummary[stage].p50 -
    if stage in s.baseline.stageSummary then s.baseline.stageSummary[stage].p50 else 0
  }

  predicate Slower(s: SeriesSummary, stage: Stage) { stage in s.candidate.stageSummary && Excess(s, stage) > 0 }

  /** The first listed stage with the greatest excess; none if no stage is slower. */
  predicate LeadsFrom(s: SeriesSummary, stages: seq<Stage>, lead: Option<Stage>) {
    match lead
    case None => forall stage :: stage in stages ==> !Slower(s, stage)
    case Some(stage) => exists i :: 0 <= i < |stages| && stages[i] == stage && FirstGreatest(s, stages, i)
  }

  predicate FirstGreatest(s: SeriesSummary, stages: seq<Stage>, i: nat)
    requires i < |stages|
  {
    && Slower(s, stages[i])
    && forall j :: 0 <= j < |stages| && Slower(s, stages[j]) ==>
         && Excess(s, stages[j]) <= Excess(s, stages[i])
         && (j < i ==> Excess(s, stages[j]) < Excess(s, stages[i]))
  }

  predicate Leads(s: SeriesSummary, lead: Option<Stage>) { LeadsFrom(s, LISTED, lead) }

  lemma OverheadIsExcess(s: SeriesSummary, stage: Stage)
    ensures Overhead(s, stage).Some? <==> Slower(s, stage)
    ensures Slower(s, stage) ==> Overhead(s, stage).value == Excess(s, stage) as real
  {
    hide ArmMetric;
    MetricOfOne(s, Candidate, StageMedian(stage));
    MetricOfOne(s, Baseline, StageMedian(stage));
  }

  /** Another stage takes the lead exactly if it is slower, and by more. */
  function NextLead(s: SeriesSummary, best: Option<Stage>, stage: Stage): Option<Stage> {
    if Slower(s, stage) &&
       (best.None? || !Slower(s, best.value) || Excess(s, best.value) < Excess(s, stage))
    then Some(stage) else best
  }

  lemma DominantLast(s: SeriesSummary, stages: seq<Stage>, stage: Stage)
    ensures DominantAmong(s, stages + [stage]) == NextLead(s, DominantAmong(s, stages), stage)
  {
    hide Overhead, Excess;
    assert (stages + [stage])[..|stages|] == stages;
    OverheadIsExcess(s, stage);
    if DominantAmong(s, stages).Some? {
      OverheadIsExcess(s, DominantAmong(s, stages).value);
    }
  }

  lemma LeadTaken(s: SeriesSummary, stages: seq<Stage>, best: Option<Stage>, stage: Stage)
    requires LeadsFrom(s, stages, best)
    ensures LeadsFrom(s, stages + [stage], NextLead(s, best, stage))
  {
    hide Excess, Slower;
    var all := stages + [stage];
    assert all[|stages|] == stage && forall j :: 0 <= j < |stages| ==> all[j] == stages[j];
    if best.Some? {
      var i :| 0 <= i < |stages| && stages[i] == best.value && FirstGreatest(s, stages, i);
      if NextLead(s, best, stage) == best {
        assert FirstGreatest(s, all, i);
      } else {
        assert FirstGreatest(s, all, |stages|);
      }
    } else if NextLead(s, best, stage).Some? {
      assert forall j :: 0 <= j < |stages| ==> stages[j] in stages;
      assert FirstGreatest(s, all, |stages|);
    }
  }

  lemma {:induction false} DominantLeads(s: SeriesSummary, stages: seq<Stage>)
    ensures LeadsFrom(s, stages, DominantAmong(s, stages))
  {
    hide Overhead, Excess, Slower, FirstGreatest, NextLead;
    if stages != [] {
      var front, last := stages[..|stages| - 1], stages[|stages| - 1];
      assert stages == front + [last];
      DominantLeads(s, front);
      DominantLast(s, front, last);
      LeadTaken(s, front, DominantAmong(s, front), last);
    }
  }

  lemma LeadUnique(s: SeriesSummary, stages: seq<Stage>, a: Option<Stage>, b: Option<Stage>)
    requires LeadsFrom(s, stages, a) && LeadsFrom(s, stages, b)
    ensures a == b
  {
    hide Slower, Excess;
    if a.Some? && b.Some? {
      var i :| 0 <= i < |stages| && stages[i] == a.value && FirstGreatest(s, stages, i);
      var j :| 0 <= j < |stages| && stages[j] == b.value && FirstGreatest(s, stages, j);
    }
  }

  lemma DominantExactly(s: SeriesSummary, lead: Option<Stage>)
    ensures DominantStage(s) == lead <==> Leads(s, lead)
  {
    hide DominantAmong, LeadsFrom;
    assert LISTED == STAGES;
    DominantLeads(s, STAGES);
    if Leads(s, lead) {
      LeadUnique(s, STAGES, lead, DominantStage(s));
    }
  }

  // ----- the two readings of a series that are compared

  /** Candidate and baseline of one series in one metric. */
  datatype Compared = Compared(candidate: Option<int>, baseline: Option<int>)

  function TotalMedian(arm: ArmSummary): Option<int> {
    if TotalTime in arm.stageSummary then Some(arm.stageSummary[TotalTime].p50) else None
  }

  function LatencyIn(s: SeriesSummary): Compared { Compared(TotalMedian(s.candidate), TotalMedian(s.baseline)) }

  function CostsIn(s: SeriesSummary): Compared {
    Compared(Some(s.candidate.estimatedCost), Some(s.baseline.estimatedCost))
  }

  predicate Comparable(r: Compared) { r.candidate.Some? && r.baseline.Some? && r.baseline.value > 0 }

  /** Two comparable readings whose ratios are at most 0.10 apart. */
  predicate Steady(a: Compared, b: Compared) {
    && Comparable(a) && Comparable(b)
    && -0.10 <= a.candidate.value as real / a.baseline.value as real -
                b.candidate.value as real / b.baseline.value as real <= 0.10
  }

  /** Together the candidate's readings are at most `num / den` of the baseline's. */
  predicate Within(a: Compared, b: Compared, num: nat, den: nat) {
    && Comparable(a) && Comparable(b)
    && den * (a.candidate.value + b.candidate.value) <= num * (a.baseline.value + b.baseline.value)
  }

  /** The two series agree: the same checks passed, the same stage leads, and
      neither latency nor cost ratio varies by more than 0.10. */
  ghost predicate SeriesAgree(a: SeriesSummary, b: SeriesSummary) {
    && a.checks == b.checks
    && (exists lead :: Leads(a, lead) && Leads(b, lead))
    && Steady(LatencyIn(a), LatencyIn(b)) && Steady(CostsIn(a), CostsIn(b))
  }

  /** Both gates passed, and the pooled ratios are within 1.25 and 1.5. */
  predicate SeriesMeetTarget(a: SeriesSummary, b: SeriesSummary) {
    && Passed(a.checks) && Passed(b.checks)
    && Within(LatencyIn(a), LatencyIn(b), 5, 4) && Within(CostsIn(a), CostsIn(b), 3, 2)
  }

  function ReadingOf(s: SeriesSummary, m: Metric): Compared {
    Compared(MetricOf(Candidate, m)(s), MetricOf(Baseline, m)(s))
  }

  lemma ReadingsOf(s: SeriesSummary)
    ensures ReadingOf(s, TOTAL) == LatencyIn(s) && ReadingOf(s, TotalCostMetric) == CostsIn(s)
  {
  }

  lemma RatioOfOne(s: SeriesSummary, m: Metric)
    requires NonNegative(s, m)
    ensures var r := ReadingOf(s, m);
            && (SeriesRatio(m)(s).Some? <==> Comparable(r))
            && (Comparable(r) ==> SeriesRatio(m)(s).value == r.candidate.value as real / r.baseline.value as real)
  {
    hide ArmMetric;
    MetricOfOne(s, Candidate, m);
    MetricOfOne(s, Baseline, m);
  }

  lemma SteadyExactly(a: SeriesSummary, b: SeriesSummary, m: Metric)
    requires NonNegative(a, m) && NonNegative(b, m)
    ensures var spread := Spread(FilterMap(SeriesRatio(m), [a, b]));
            spread.Some? && spread.value <= MAX_SPREAD <==> Steady(ReadingOf(a, m), ReadingOf(b, m))
  {
    hide SeriesRatio, ReadingOf;
    RatioOfOne(a, m);
    RatioOfOne(b, m);
    FilterMapOfTwo(SeriesRatio(m), a, b);
  }

  lemma ScaledRatio(c: int, b: int, num: nat, den: nat, limit: real)
    requires b > 0 && den > 0 && limit * den as real == num as real
    ensures (c as real / 2.0) / (b as real / 2.0) <= limit <==> den * c <= num * b
  {
    Divide(c as real / 2.0, b as real / 2.0, limit);
    var x, y, d := c as real, b as real, den as real;
    assert c as real / 2.0 <= limit * (b as real / 2.0) <==> x <= limit * y;
    assert x <= limit * y <==> d * x <= d * (limit * y) by {
      ScaleReal(d, x, limit * y);
    }
    assert d * (limit * y) == (limit * d) * y;
    assert d * x == (den * c) as real && num as real * y == (num * b) as real;
  }

  lemma ScaleReal(d: real, x: real, y: real)
    requires d > 0.0
    ensures x <= y <==> d * x <= d * y
  {
  }

  lemma WithinExactly(a: SeriesSummary, b: SeriesSummary, m: Metric, num: nat, den: nat, limit: real)
    requires NonNegative(a, m) && NonNegative(b, m) && den > 0 && limit * den as real == num as real
    requires Comparable(ReadingOf(a, m)) && Comparable(ReadingOf(b, m))
    ensures PooledRatio([a, b], m).Some? && PooledRatio([a, b], m).value <= limit <==>
            Within(ReadingOf(a, m), ReadingOf(b, m), num, den)
  {
    hide ArmMetric, FilterMap, Median;
    MetricOfTwo(a, b, Candidate, m);
    MetricOfTwo(a, b, Baseline, m);
    var x, y := ReadingOf(a, m), ReadingOf(b, m);
    ScaledRatio(x.candidate.value + y.candidate.value, x.baseline.value + y.baseline.value, num, den, limit);
  }

  /** The status of two sound series without failures and retries. */
  lemma StatusOfTwo(a: SeriesSummary, b: SeriesSummary)
    requires SoundSeries(a) && SoundSeries(b)
    requires OutcomeMetrics([a, b]).failures == 0 && OutcomeMetrics([a, b]).retries == 0
    ensures StatusOf(OutcomeMetrics([a, b])) ==
            if !SeriesAgree(a, b) then Inconclusive
            else if SeriesMeetTarget(a, b) then StatusPassed
            else StatusFailed
  {
    hide FilterMap, Spread, PooledRatio, SeriesRatio, DominantStage, Leads, ReadingOf, LatencyIn, CostsIn;
    hide Steady, Within, SoundSeries, Passed, Sum;
    forall m ensures NonNegative(a, m) && NonNegative(b, m) {
      SoundNonNegative(a, m);
      SoundNonNegative(b, m);
    }
    ReadingsOf(a);
    ReadingsOf(b);
    SteadyExactly(a, b, TOTAL);
    SteadyExactly(a, b, TotalCostMetric);
    DominantExactly(a, DominantStage(a));
    DominantExactly(b, DominantStage(b));
    assert DominantStage(a) == DominantStage(b) <==> exists lead :: Leads(a, lead) && Leads(b, lead) by {
      forall lead
        ensures DominantStage(a) == lead <==> Leads(a, lead)
        ensures DominantStage(b) == lead <==> Leads(b, lead)
      {
        DominantExactly(a, lead);
        DominantExactly(b, lead);
      }
    }
    if SeriesAgree(a, b) {
      SteadyComparable(LatencyIn(a), LatencyIn(b));
      SteadyComparable(CostsIn(a), CostsIn(b));
      WithinExactly(a, b, TOTAL, 5, 4, MAX_LATENCY);
      WithinExactly(a, b, TotalCostMetric, 3, 2, MAX_COST);
    }
  }

  lemma SteadyComparable(a: Compared, b: Compared)
    requires Steady(a, b)
    ensures Comparable(a) && Comparable(b)
  {
  }

  // ----- the arms of a live run

  /** One finished query of the case and its trace, without anything that failed,
      fell back or was retried. */
  predicate CleanSingleton(caseId: string, arm: Arm) {
    && arm.eval.totalCases == 1 && |arm.eval.cases| == 1
    && arm.eval.cases[0].id == caseId && !arm.eval.cases[0].providerFailure
    && arm.eval.providerFailureCount == 0 && arm.eval.providerRetries == 0
    && arm.trace.errorEvents == 0 && arm.trace.fallbackEvents == 0 && arm.trace.retryEvents == 0
    && arm.trace.system.queryCount == 1 && arm.latency.queryCount == 1 && arm.latency.parseErrors == 0
    && arm.eval.cases[0].traceId.Some? && arm.eval.cases[0].traceId.value != ""
    && |arm.latency.traces| == 1 && arm.latency.traces[0].id == Sha256(arm.eval.cases[0].traceId.value)
  }

  /** The failures of an arm are the most that one of its three reports shows. */
  lemma FailuresReported(arm: Arm)
    ensures var n := ProviderFailures(arm);
            && n >= arm.eval.providerFailureCount && n >= Count(CaseFailedByProvider, arm.eval.cases)
            && n >= arm.trace.errorEvents + arm.trace.fallbackEvents
            && (n == arm.eval.providerFailureCount || n == Count(CaseFailedByProvider, arm.eval.cases) ||
                n == arm.trace.errorEvents + arm.trace.fallbackEvents)
    ensures var n := ProviderRetries(arm);
            && n >= arm.eval.providerRetries && n >= arm.trace.retryEvents
            && (n == arm.eval.providerRetries || n == arm.trace.retryEvents)
  {
    hide Count;
    CountCongruent(IsProviderFailure, CaseFailedByProvider, arm.eval.cases);
  }

  lemma FailuresOfOne(arm: Arm)
    requires |arm.eval.cases| == 1
    ensures Count(IsProviderFailure, arm.eval.cases) == 0 <==> !arm.eval.cases[0].providerFailure
  {
    CountZero(IsProviderFailure, arm.eval.cases);
  }

  /** An arm goes through exactly if it was produced as a clean singleton of its
      case and nothing had drifted afterwards. */
  lemma ArmGoesThrough(o: Outside, caseId: string, step: Step, arm: Arm)
    ensures RunArm(o, caseId, step) == Yields(arm) && Clean(WorldOf(o), arm) <==>
            o.produce(step) == Yields(arm) && o.recheck(step) == Returns && CleanSingleton(caseId, arm)
  {
    hide Count;
    if |arm.eval.cases| == 1 {
      FailuresOfOne(arm);
    }
  }

  lemma RanArms(o: Outside, ids: seq<string>, s: nat, pairs: seq<Pair>, k: nat)
    requires PairsRan(WorldOf(o), ids, s, pairs) && k < |pairs|
    ensures pairs[k].caseId == ids[k]
    ensures o.produce(Step(s, k, Baseline)) == Yields(pairs[k].baseline) && CleanSingleton(ids[k], pairs[k].baseline)
    ensures o.produce(Step(s, k, Candidate)) == Yields(pairs[k].candidate) && CleanSingleton(ids[k], pairs[k].candidate)
  {
    hide CleanSingleton, RunArm, Clean;
    assert Ran(WorldOf(o), s, k, ids[k], pairs[k]);
    assert RunArm(o, ids[k], Step(s, k, Baseline)) == Yields(pairs[k].baseline) && Clean(WorldOf(o), pairs[k].baseline);
    assert RunArm(o, ids[k], Step(s, k, Candidate)) == Yields(pairs[k].candidate);
    assert Clean(WorldOf(o), pairs[k].candidate);
    ArmGoesThrough(o, ids[k], Step(s, k, Baseline), pairs[k].baseline);
    ArmGoesThrough(o, ids[k], Step(s, k, Candidate), pairs[k].candidate);
  }

  /** The evaluation reports of one side of a series. */
  function Evaluations(pairs: seq<Pair>, side: Label): seq<EvalReport> { FilterMap(EvalOf(side), pairs) }

  lemma {:induction false} EvaluationIn(pairs: seq<Pair>, side: Label, r: EvalReport)
    ensures r in Evaluations(pairs, side) <==> exists pair :: pair in pairs && ArmOf(pair, side).eval == r
  {
    FilterMapMember(EvalOf(side), pairs, r);
  }

  lemma MergedSide(pairs: seq<Pair>, side: Label)
    requires MergeArm(pairs, side).Ok?
    ensures MergedEvaluation(Evaluations(pairs, side)) == Ok(MergeArm(pairs, side).value.eval)
    ensures MergesTo(Evaluations(pairs, side), MergeArm(pairs, side).value.eval)
  {
    hide MergesTo;
    MergedEvaluationMeans(Evaluations(pairs, side));
  }

  predicate EachClean(pairs: seq<Pair>, side: Label) {
    forall pair :: pair in pairs ==> CleanSingleton(pair.caseId, ArmOf(pair, side))
  }

  lemma CleanSideUnfailed(pairs: seq<Pair>, side: Label)
    requires MergeArm(pairs, side).Ok? && EachClean(pairs, side)
    ensures MergeArm(pairs, side).value.eval.providerFailureCount == 0
    ensures MergeArm(pairs, side).value.eval.providerRetries == 0
  {
    hide MergeArm, Evaluations, Total, Count;
    var reports := Evaluations(pairs, side);
    MergedSide(pairs, side);
    forall r | r in reports ensures ProviderFailuresIn(r) == Some(0) && EvaluationMerge.RetriesIn(r) == Some(0) {
      EvaluationIn(pairs, side, r);
      CountZero(CaseFailedByProvider, r.cases);
    }
    NonNegativeTotal(ProviderFailuresIn, reports);
    NonNegativeTotal(EvaluationMerge.RetriesIn, reports);
  }

  lemma RanEachClean(o: Outside, ids: seq<string>, s: nat, pairs: seq<Pair>, side: Label)
    requires PairsRan(WorldOf(o), ids, s, pairs)
    ensures EachClean(pairs, side)
  {
    hide CleanSingleton, PairsRan;
    forall pair | pair in pairs ensures CleanSingleton(pair.caseId, ArmOf(pair, side)) {
      var k :| 0 <= k < |pairs| && pairs[k] == pair;
      RanArms(o, ids, s, pairs, k);
    }
  }

  lemma SummaryUnfailed(o: Outside, ids: seq<string>, s: nat, summary: SeriesSummary)
    requires SeriesRan(WorldOf(o), ids, s, summary)
    ensures summary.baseline.providerFailures == 0 && summary.candidate.providerFailures == 0
    ensures summary.baseline.providerRetries == 0 && summary.candidate.providerRetries == 0
  {
    hide PairsRan, EachClean, SeriesRan, MergeArm;
    var pairs, b, c := SidesOfRun(o, ids, s, summary);
    RanEachClean(o, ids, s, pairs, Baseline);
    RanEachClean(o, ids, s, pairs, Candidate);
    CleanSideUnfailed(pairs, Baseline);
    CleanSideUnfailed(pairs, Candidate);
    SummarisedFailures(pairs, Baseline);
    SummarisedFailures(pairs, Candidate);
  }

  lemma SummarisedFailures(pairs: seq<Pair>, side: Label)
    requires MergeArm(pairs, side).Ok?
    ensures var m := MergeArm(pairs, side).value;
            && m.summary.providerFailures == m.eval.providerFailureCount
            && m.summary.providerRetries == m.eval.providerRetries
  {
  }

  lemma LiveMetrics(o: Outside, ids: seq<string>)
    requires Live(Execute(WorldOf(o), ids))
    ensures var series := Execute(WorldOf(o), ids).state.series;
            && |series| == 2 && SoundSeries(series[0]) && SoundSeries(series[1])
            && OutcomeMetrics(series).failures == 0 && OutcomeMetrics(series).retries == 0
  {
    hide Execute, SeriesRan, SoundSeries, Spread, PooledRatio, Passed;
    var w := WorldOf(o);
    var series := Execute(w, ids).state.series;
    NothingCarriedForward(w, ids);
    FinishedSeries(o, ids);
    assert series == [series[0], series[1]];
    assert SeriesRan(w, ids, 0, series[0]) && SeriesRan(w, ids, 1, series[1]);
    SummaryUnfailed(o, ids, 0, series[0]);
    SummaryUnfailed(o, ids, 1, series[1]);
    FilterMapOfTwo(FailuresOf, series[0], series[1]);
    FilterMapOfTwo(DiagnosticOutcome.RetriesIn, series[0], series[1]);
    SumOfTwo(FilterMap(FailuresOf, series));
    SumOfTwo(FilterMap(DiagnosticOutcome.RetriesIn, series));
  }

  /** The status of a run, exactly. A run that failed or stopped is inconclusive.
      Any other has both series, and is inconclusive if they disagree, passed if
      they meet the target, and failed if they agree on missing it. */
  lemma StatusExactly(o: Outside, ids: seq<string>)
    requires Diagnose(o, ids).Some?
    ensures var state, outcome := Execute(WorldOf(o), ids).state, Diagnose(o, ids).value;
            var live := !state.failed && state.stopped.None?;
            && (live ==> |state.series| == 2)
            && (outcome.status == Inconclusive <==> !live || !SeriesAgree(state.series[0], state.series[1]))
            && (outcome.status == StatusPassed <==>
                live && SeriesAgree(state.series[0], state.series[1]) &&
                SeriesMeetTarget(state.series[0], state.series[1]))
            && (outcome.status == StatusFailed <==>
                live && SeriesAgree(state.series[0], state.series[1]) &&
                !SeriesMeetTarget(state.series[0], state.series[1]))
            && (outcome.targetMet <==> outcome.status == StatusPassed)
  {
    hide Execute, SeriesAgree, SeriesMeetTarget, OutcomeMetrics, SoundSeries, TargetMet;
    var state := Execute(WorldOf(o), ids).state;
    StoppedRunsAreInconclusive(o, ids);
    FinishedSeries(o, ids);
    if !state.failed && state.stopped.None? {
      LiveMetrics(o, ids);
      var series := state.series;
      assert series == [series[0], series[1]];
      StatusOfTwo(series[0], series[1]);
      LiveOutcome(state, ids);
      PassedStatus(OutcomeMetrics(series));
    }
  }

  // ----- the numbers an outcome reports

  lemma {:induction false} NoneReported(series: seq<SeriesSummary>)
    requires forall s :: s in series ==> FailuresOf(s) == Some(0) && DiagnosticOutcome.RetriesIn(s) == Some(0)
    ensures Sum(FilterMap(FailuresOf, series)) == 0 && Sum(FilterMap(DiagnosticOutcome.RetriesIn, series)) == 0
  {
    hide FailuresOf, DiagnosticOutcome.RetriesIn;
    if series != [] {
      assert series[|series| - 1] in series && forall s :: s in series[..|series| - 1] ==> s in series;
      NoneReported(series[..|series| - 1]);
      SumLast(FilterMap(FailuresOf, series[..|series| - 1]), 0);
      SumLast(FilterMap(DiagnosticOutcome.RetriesIn, series[..|series| - 1]), 0);
    }
  }

  /** An outcome reports the failures and retries of the case that stopped the run and
      no others, and the series, pairs and arms that were finished. */
  lemma ReportedExactly(o: Outside, ids: seq<string>)
    requires Diagnose(o, ids).Some?
    ensures var state, outcome := Execute(WorldOf(o), ids).state, Diagnose(o, ids).value;
            && outcome.failures == (if state.stopped.Some? then state.stopped.value.failures else 0)
            && outcome.retries == (if state.stopped.Some? then state.stopped.value.retries else 0)
            && outcome.seriesCount == |state.series|
            && outcome.casePairCount == state.completed && outcome.armRunCount == state.armRuns
            && outcome.executionFailed == state.failed && outcome.stopped == state.stopped
  {
    hide Execute, SeriesRan, Spread, PooledRatio, Passed, FilterMap, Sum;
    var w := WorldOf(o);
    var series := Execute(w, ids).state.series;
    NothingCarriedForward(w, ids);
    DeclaredCasesKept(o, ids);
    forall i | 0 <= i < |series|
      ensures FailuresOf(series[i]) == Some(0) && DiagnosticOutcome.RetriesIn(series[i]) == Some(0)
    {
      assert SeriesRan(w, ids, i, series[i]);
      SummaryUnfailed(o, ids, i, series[i]);
    }
    NoneReported(series);
  }

  // ----- what a passed run says about its arms

  lemma {:induction false} IdsFromArms(pairs: seq<Pair>, id: string)
    ensures id in CorrectionIdsOf(FilterMap(SystemOfArm(Candidate), pairs)) <==>
            exists pair :: pair in pairs && id in pair.candidate.trace.system.correctionIds
    ensures id in RepairIdsOf(FilterMap(SystemOfArm(Candidate), pairs)) <==>
            exists pair :: pair in pairs && id in pair.candidate.trace.system.repairIds
  {
    var f := SystemOfArm(Candidate);
    if pairs != [] {
      var front, last := pairs[..|pairs| - 1], pairs[|pairs| - 1];
      assert pairs == front + [last];
      IdsFromArms(front, id);
      FilterMapLast(f, front, last);
      assert FilterMap(f, pairs)[..|FilterMap(f, front)|] == FilterMap(f, front);
    }
  }

  /** The attempts that a case requires were made in some arm of the series. */
  predicate HasAttempts(row: CaseResult, pairs: seq<Pair>) {
    && (row.requiresCorrection ==>
          && row.traceId.Some?
          && exists other :: other in pairs && row.traceId.value in other.candidate.trace.system.correctionIds)
    && (row.requiresRepair ==>
          && row.traceId.Some?
          && exists other :: other in pairs && row.traceId.value in other.candidate.trace.system.repairIds)
  }

  /** The candidate's case passed, with the features on, and had what it requires. */
  predicate ArmDelivers(pair: Pair, pairs: seq<Pair>)
    requires |pair.candidate.eval.cases| == 1
  {
    var r, row := pair.candidate.eval, pair.candidate.eval.cases[0];
    && row.passed && HasAttempts(row, pairs)
    && Says(r, "crag", "true") && Says(r, "claim_repair", "true") && Says(r, "semantic_cache", "false")
  }

  /** The outcomes counted over all arms of a series. */
  predicate SuiteBetter(baseline: seq<EvalReport>, candidate: seq<EvalReport>) {
    && Total(Occurrences("leakage"), candidate) == 0 && Total(Occurrences("wrong_refusal_type"), candidate) == 0
    && Total(Occurrences("wrong_answer"), candidate) <= Total(Occurrences("wrong_answer"), baseline)
    && (if Total(Occurrences("wrong_refusal"), baseline) > 0
        then Total(Occurrences("wrong_refusal"), candidate) < Total(Occurrences("wrong_refusal"), baseline)
        else Total(Occurrences("wrong_refusal"), candidate) == 0)
  }

  lemma AllPassed(pairs: seq<Pair>, pair: Pair, m: EvalReport)
    requires EachClean(pairs, Candidate) && pair in pairs && MergesTo(Evaluations(pairs, Candidate), m)
    requires m.passedCases == m.totalCases
    ensures pair.candidate.eval.cases[0].passed
  {
    hide Evaluations, Total, Count, CleanSingleton;
    var reports, r := Evaluations(pairs, Candidate), pair.candidate.eval;
    forall r | r in reports
      ensures |r.cases| == 1 && PassesIn(r).value <= 1 && (PassesIn(r).value == 1 <==> r.cases[0].passed)
    {
      EvaluationIn(pairs, Candidate, r);
      OneCase(pairs, r);
      PassesOfOne(r);
    }
    EvaluationIn(pairs, Candidate, r);
    AllPassedReports(reports);
  }

  lemma OneCase(pairs: seq<Pair>, r: EvalReport)
    requires EachClean(pairs, Candidate) && exists pair :: pair in pairs && pair.candidate.eval == r
    ensures |r.cases| == 1
  {
  }

  lemma PassesOfOne(r: EvalReport)
    requires |r.cases| == 1
    ensures PassesIn(r).value <= 1 && (PassesIn(r).value == 1 <==> r.cases[0].passed)
  {
    CountEmpty(CasePassed);
    CountLast(CasePassed, [], r.cases[0]);
    assert [] + [r.cases[0]] == r.cases;
  }

  /** If as many cases passed as there are, each passed. */
  lemma {:induction false} AllPassedReports(reports: seq<EvalReport>)
    requires forall r :: r in reports ==> |r.cases| == 1 && PassesIn(r).value <= 1
    ensures Total(PassesIn, reports) <= Total(CasesIn, reports)
    ensures Total(PassesIn, reports) == Total(CasesIn, reports) ==> forall r :: r in reports ==> PassesIn(r).value == 1
  {
    hide Total, Count;
    if reports == [] {
      TotalNone(PassesIn);
      TotalNone(CasesIn);
    } else {
      var front, last := reports[..|reports| - 1], reports[|reports| - 1];
      assert reports == front + [last] && last in reports;
      assert forall r :: r in front ==> r in reports;
      AllPassedReports(front);
      TotalLast(PassesIn, front, last);
      TotalLast(CasesIn, front, last);
    }
  }

  lemma MergedIds(pairs: seq<Pair>)
    requires MergeArm(pairs, Candidate).Ok?
    ensures var merged, arms := MergeArm(pairs, Candidate).value.system, FilterMap(SystemOfArm(Candidate), pairs);
            merged.correctionIds == CorrectionIdsOf(arms) && merged.repairIds == RepairIdsOf(arms)
  {
  }

  /** A row of the merge had the attempts it requires in some arm. */
  lemma HadAttempts(pairs: seq<Pair>, row: CaseResult, c: EvalReport, sc: SystemMetrics)
    requires row in c.cases && FeaturesExercised(c, sc)
    requires sc.correctionIds == CorrectionIdsOf(FilterMap(SystemOfArm(Candidate), pairs))
    requires sc.repairIds == RepairIdsOf(FilterMap(SystemOfArm(Candidate), pairs))
    ensures HasAttempts(row, pairs)
  {
    hide FilterMap, CorrectionIdsOf, RepairIdsOf;
    if row.traceId.Some? {
      IdsFromArms(pairs, row.traceId.value);
    }
  }

  lemma RowMerged(pairs: seq<Pair>, pair: Pair, m: EvalReport)
    requires pair in pairs && |pair.candidate.eval.cases| == 1 && MergesTo(Evaluations(pairs, Candidate), m)
    ensures pair.candidate.eval.cases[0] in m.cases && m.flags == pair.candidate.eval.flags
  {
    hide Total, Evaluations;
    EvaluationIn(pairs, Candidate, pair.candidate.eval);
    assert pair.candidate.eval.cases[0] in pair.candidate.eval.cases;
  }

  lemma CleanHasCase(pairs: seq<Pair>, pair: Pair)
    requires EachClean(pairs, Candidate) && pair in pairs
    ensures |pair.candidate.eval.cases| == 1
  {
  }

  lemma ReleasedParts(b: MergedArm, c: MergedArm)
    requires Releasable(b.eval, c.eval, b.system, c.system)
    ensures FeaturesExercised(c.eval, c.system) && c.eval.passedCases == c.eval.totalCases
    ensures Says(c.eval, "crag", "true") && Says(c.eval, "claim_repair", "true")
    ensures Says(c.eval, "semantic_cache", "false")
  {
  }

  lemma Delivers(pairs: seq<Pair>, pair: Pair, b: MergedArm, c: MergedArm)
    requires EachClean(pairs, Candidate) && pair in pairs && MergeArm(pairs, Candidate) == Ok(c)
    requires Releasable(b.eval, c.eval, b.system, c.system)
    ensures |pair.candidate.eval.cases| == 1 && ArmDelivers(pair, pairs)
  {
    hide MergeArm, Evaluations, Releasable, FeaturesExercised, EachClean, MergesTo, HasAttempts, Says;
    hide FilterMap, CorrectionIdsOf, RepairIdsOf, MergedEvaluation, Total, CasesSound, OutcomesBetter, WithinLimits;
    CleanHasCase(pairs, pair);
    ReleasedParts(b, c);
    MergedSide(pairs, Candidate);
    MergedIds(pairs);
    AllPassed(pairs, pair, c.eval);
    RowMerged(pairs, pair, c.eval);
    SaysAlike(pair.candidate.eval, c.eval);
    HadAttempts(pairs, pair.candidate.eval.cases[0], c.eval, c.system);
  }

  lemma SaysAlike(a: EvalReport, b: EvalReport)
    requires a.flags == b.flags
    ensures forall flag, text :: Says(a, flag, text) <==> Says(b, flag, text)
  {
  }

  /** A passed run: in each series every arm was a clean singleton of its case,
      every candidate case passed and had what it requires, and over the whole
      suite nothing leaked and no outcome got worse. */
  lemma PassedRunMeans(o: Outside, ids: seq<string>, s: nat) returns (pairs: seq<Pair>)
    requires Diagnose(o, ids).Some? && Diagnose(o, ids).value.status == StatusPassed && s < 2
    ensures |pairs| == |ids|
    ensures forall k :: 0 <= k < |ids| ==>
              && pairs[k].caseId == ids[k] && CleanSingleton(ids[k], pairs[k].baseline)
              && CleanSingleton(ids[k], pairs[k].candidate) && ArmDelivers(pairs[k], pairs)
              && o.produce(Step(s, k, Baseline)) == Yields(pairs[k].baseline)
              && o.produce(Step(s, k, Candidate)) == Yields(pairs[k].candidate)
    ensures SuiteBetter(Evaluations(pairs, Baseline), Evaluations(pairs, Candidate))
  {
    hide MergeArm, WithinLimits, Evaluations, Total, CleanSingleton, ArmDelivers, PairsRan, SeriesRan, Execute;
    hide Releasable, Passed, EachClean, Diagnose;
    var b, c;
    PassedMeansComplete(o, ids);
    var summary := Execute(WorldOf(o), ids).state.series[s];
    pairs, b, c := SidesOfRun(o, ids, s, summary);
    GatePassesExactly(b.eval, c.eval, b.system, c.system);
    RanEachClean(o, ids, s, pairs, Candidate);
    forall k | 0 <= k < |ids|
      ensures pairs[k].caseId == ids[k] && CleanSingleton(ids[k], pairs[k].baseline)
      ensures CleanSingleton(ids[k], pairs[k].candidate)
      ensures o.produce(Step(s, k, Baseline)) == Yields(pairs[k].baseline)
      ensures o.produce(Step(s, k, Candidate)) == Yields(pairs[k].candidate)
      ensures |pairs[k].candidate.eval.cases| == 1 && ArmDelivers(pairs[k], pairs)
    {
      RanArms(o, ids, s, pairs, k);
      Delivers(pairs, pairs[k], b, c);
    }
    MergedSide(pairs, Baseline);
    MergedSide(pairs, Candidate);
    SuiteOutcomes(Evaluations(pairs, Baseline), Evaluations(pairs, Candidate), b, c);
  }

  lemma SuiteOutcomes(baseline: seq<EvalReport>, candidate: seq<EvalReport>, b: MergedArm, c: MergedArm)
    requires MergesTo(baseline, b.eval) && MergesTo(candidate, c.eval)
    requires Releasable(b.eval, c.eval, b.system, c.system)
    ensures SuiteBetter(baseline, candidate)
  {
    hide Total, WithinLimits, CasesSound, FeaturesExercised;
    forall name
      ensures Seen(b.eval, name) == Total(Occurrences(name), baseline)
      ensures Seen(c.eval, name) == Total(Occurrences(name), candidate)
    {
      assert Occurrences(name)(b.eval).value == Total(Occurrences(name), baseline);
      assert Occurrences(name)(c.eval).value == Total(Occurrences(name), candidate);
    }
  }
}

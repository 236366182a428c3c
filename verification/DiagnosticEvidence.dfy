/** The diagnostic run on real arms: what its outcome says about the private
    logs the arms left behind. */
module DiagnosticEvidence {
  import opened Collections
  import opened TraceEvents
  import opened TraceSnapshot
  import opened LatencyBreakdown
  import opened RolloutGate
  import opened Aggregation
  import opened PooledEvidence
  import opened PooledLatency
  import opened DiagnosticPlan
  import opened DiagnosticRun
  import opened DiagnosticOutcome

  /** Everything outside the runner: evaluation, drift checks and file writes. */
  datatype Outside = Outside(
    produce: Step -> Reply<Arm>,
    recheck: Step -> Fate,
    enterSeries: nat -> Fate,
    enterCase: (nat, nat) -> Fate,
    writeCase: (nat, nat) -> Fate,
    writeSeries: nat -> Fate)

  /** `_run_arm`: an arm without failure or retry must be a valid singleton. */
  function RunArm(o: Outside, caseId: string, step: Step): Reply<Arm> {
    match o.produce(step)
    case Yields(arm) =>
      if !ValidSingletonEvaluation(caseId, arm) then Raised
      else if ProviderFailures(arm) == 0 && ProviderRetries(arm) == 0 && !ValidSingleton(caseId, arm) then Raised
      else (match o.recheck(step) case Returns => Yields(arm) case Raises => Raised case Escapes => Escaped)
    case other => other
  }

  function OrderOf(s: nat): ArmOrder {
    if s < |SERIES_ORDER| then SERIES_ORDER[s] else BaselineFirst
  }

  /** `build_series_summary` and the write of its result. Only a division by
      zero is no ValueError. */
  function SummariseSeries(o: Outside, s: nat, pairs: seq<Pair>): Reply<SeriesSummary> {
    match SeriesOf(OrderOf(s), pairs)
    case Ok(summary) =>
      (match o.writeSeries(s) case Returns => Yields(summary) case Raises => Raised case Escapes => Escaped)
    case Err(DivisionByZero) => Escaped
    case Err(_) => Raised
  }

  function WorldOf(o: Outside): World<Arm, SeriesSummary> {
    World(
      (caseId, step) => RunArm(o, caseId, step),
      (arm: Arm) => ProviderFailures(arm),
      (arm: Arm) => ProviderRetries(arm),
      o.enterSeries, o.enterCase, o.writeCase,
      (s, pairs) => SummariseSeries(o, s, pairs))
  }

  type Run = Execution<SeriesSummary>

  function FinalizeRun(state: Run, ids: seq<string>): Outcome {
    match Finalize(state.series, ids, state.completed, state.armRuns, state.failed, state.stopped)
    case Some(outcome) => outcome
    case None => Finalize([], ids, state.completed, state.armRuns, true, state.stopped).value
  }

  /** `run_diagnostic`, once its context is prepared; no outcome if the process died. */
  function Diagnose(o: Outside, ids: seq<string>): Option<Outcome> {
    var p := Execute(WorldOf(o), ids);
    if p.alive then Some(FinalizeRun(p.state, ids)) else None
  }

  // ----- finished series list the declared cases

  /** A summary as `build_series_summary` makes it. */
  ghost predicate Faithful(w: World<Arm, SeriesSummary>) {
    forall s, pairs, summary :: w.summarise(s, pairs) == Yields(summary) ==> SummaryOf(pairs, summary)
  }

  predicate SummaryOf(pairs: seq<Pair>, summary: SeriesSummary) {
    summary.caseIds == FilterMap(CaseIdOf, pairs) && SoundSeries(summary)
  }

  lemma WorldsAreFaithful(o: Outside)
    ensures Faithful(WorldOf(o))
  {
    hide SeriesOf, SoundSeries, FilterMap;
    forall s, pairs, summary | WorldOf(o).summarise(s, pairs) == Yields(summary) ensures SummaryOf(pairs, summary) {
      assert SeriesOf(OrderOf(s), pairs) == Ok(summary);
      BuiltSeries(OrderOf(s), pairs, summary);
    }
  }

  lemma {:induction false} CaseIdsRan(w: World<Arm, SeriesSummary>, ids: seq<string>, s: nat, pairs: seq<Pair>)
    requires PairsRan(w, ids, s, pairs)
    ensures FilterMap(CaseIdOf, pairs) == ids[..|pairs|]
  {
    if pairs != [] {
      var front := pairs[..|pairs| - 1];
      assert forall k :: 0 <= k < |front| ==> front[k] == pairs[k];
      CaseIdsRan(w, ids, s, front);
      assert Ran(w, s, |front|, ids[|front|], pairs[|front|]);
    }
  }

  lemma SeriesListsCases(w: World<Arm, SeriesSummary>, ids: seq<string>, s: nat, summary: SeriesSummary)
    requires Faithful(w) && SeriesRan(w, ids, s, summary)
    ensures summary.caseIds == ids && SoundSeries(summary)
  {
    var pairs :| w.summarise(s, pairs) == Yields(summary) && PairsRan(w, ids, s, pairs) && |pairs| == |ids|;
    CaseIdsRan(w, ids, s, pairs);
  }

  lemma SeriesListCases(w: World<Arm, SeriesSummary>, ids: seq<string>, series: seq<SeriesSummary>)
    requires Faithful(w) && AllRan(w, ids, series)
    ensures forall summary :: summary in series ==> summary.caseIds == ids && SoundSeries(summary)
  {
    forall s | 0 <= s < |series| ensures series[s].caseIds == ids && SoundSeries(series[s]) {
      SeriesListsCases(w, ids, s, series[s]);
    }
  }

  lemma FinishedSeries(o: Outside, ids: seq<string>)
    ensures forall s :: s in Execute(WorldOf(o), ids).state.series ==> s.caseIds == ids && SoundSeries(s)
  {
    WorldsAreFaithful(o);
    NothingCarriedForward(WorldOf(o), ids);
    SeriesListCases(WorldOf(o), ids, Execute(WorldOf(o), ids).state.series);
  }

  // ----- the outcome of a run

  /** The check for drifted case identities passes on every execution, so the
      fallback of the finalizer is never taken. */
  lemma DeclaredCasesKept(o: Outside, ids: seq<string>)
    ensures var state := Execute(WorldOf(o), ids).state;
            Finalize(state.series, ids, state.completed, state.armRuns, state.failed, state.stopped).Some?
  {
    FinishedSeries(o, ids);
  }

  /** Any stop and any caught failure is inconclusive, also through the fallback. */
  lemma StopsAreInconclusive(state: Run, ids: seq<string>)
    requires state.failed || (state.stopped.Some? && state.stopped.value.failures + state.stopped.value.retries > 0)
    ensures FinalizeRun(state, ids).status == Inconclusive && !FinalizeRun(state, ids).targetMet
  {
  }

  /** The outcome of a state that neither failed nor stopped is that of its series. */
  lemma LiveOutcome(state: Run, ids: seq<string>)
    requires !state.failed && state.stopped.None?
    requires forall s :: s in state.series ==> s.caseIds == ids
    ensures FinalizeRun(state, ids).status == StatusOf(OutcomeMetrics(state.series))
    ensures FinalizeRun(state, ids).casePairCount == state.completed
    ensures FinalizeRun(state, ids).armRunCount == state.armRuns
  {
  }

  lemma PassedStatus(m: Metrics)
    ensures StatusOf(m) == StatusPassed <==> TargetMet(m)
    ensures TargetMet(m) ==> m.complete && m.gatesPassed && m.failures == 0 && m.retries == 0
  {
  }

  /** A run passes exactly when nothing failed or stopped it and its two series
      meet the target. */
  lemma PassedExactly(o: Outside, ids: seq<string>)
    requires Diagnose(o, ids).Some?
    ensures var state := Execute(WorldOf(o), ids).state;
            Diagnose(o, ids).value.status == StatusPassed <==>
            !state.failed && state.stopped.None? && TargetMet(OutcomeMetrics(state.series))
  {
    var state := Execute(WorldOf(o), ids).state;
    CountersAgree(WorldOf(o), ids);
    FinishedSeries(o, ids);
    if state.failed || state.stopped.Some? {
      StopsAreInconclusive(state, ids);
    } else {
      LiveOutcome(state, ids);
      PassedStatus(OutcomeMetrics(state.series));
    }
  }

  lemma CompleteSeries(series: seq<SeriesSummary>)
    requires TargetMet(OutcomeMetrics(series))
    ensures |series| == 2 && forall s :: s in series ==> Passed(s.checks)
  {
  }

  /** A passed run ran the whole plan: every arm of every declared case once, in
      order, without failure or retry, and both gates passed. */
  lemma PassedMeansComplete(o: Outside, ids: seq<string>)
    requires Diagnose(o, ids).Some? && Diagnose(o, ids).value.status == StatusPassed
    ensures var state, outcome := Execute(WorldOf(o), ids).state, Diagnose(o, ids).value;
            && state.starts == FlatPlan(|ids|) && !state.failed && state.stopped.None?
            && outcome.armRunCount == 4 * |ids| && outcome.casePairCount == 2 * |ids|
            && |state.series| == 2 && AllRan(WorldOf(o), ids, state.series)
            && forall s :: s in state.series ==> Passed(s.checks) && s.caseIds == ids
  {
    hide PlanFrom, FinalizeRun, OutcomeMetrics, TargetMet, SeriesRan, SoundSeries;
    var w := WorldOf(o);
    PassedExactly(o, ids);
    PlanShape(w, ids, 0, Initial());
    CountersAgree(w, ids);
    FinishedSeries(o, ids);
    NothingCarriedForward(w, ids);
    LiveOutcome(Execute(w, ids).state, ids);
    CompleteSeries(Execute(w, ids).state.series);
  }

  /** ... and each of its two series alone is within 1.35 times the baseline's
      total latency and 1.60 times its cost. */
  lemma PassedBoundsEachSeries(o: Outside, ids: seq<string>)
    requires Diagnose(o, ids).Some? && Diagnose(o, ids).value.status == StatusPassed
    ensures forall s :: s in Execute(WorldOf(o), ids).state.series ==> WithinOwnLimits(s)
  {
    PassedExactly(o, ids);
    FinishedSeries(o, ids);
    BoundsOfTarget(Execute(WorldOf(o), ids).state.series);
  }

  lemma BoundsOfTarget(series: seq<SeriesSummary>)
    requires TargetMet(OutcomeMetrics(series)) && forall s :: s in series ==> SoundSeries(s)
    ensures forall s :: s in series ==> WithinOwnLimits(s)
  {
    hide WithinOwnLimits, SoundSeries, TargetMet, OutcomeMetrics;
    CompleteSeries(series);
    assert series == [series[0], series[1]];
    assert SoundSeries(series[0]) && SoundSeries(series[1]);
    TargetBoundsEachSeries(series[0], series[1]);
  }

  /** Every stop and every caught failure of an actual run is inconclusive. */
  lemma StoppedRunsAreInconclusive(o: Outside, ids: seq<string>)
    requires Diagnose(o, ids).Some?
    ensures var state := Execute(WorldOf(o), ids).state;
            state.failed || state.stopped.Some? ==>
              Diagnose(o, ids).value.status == Inconclusive && !Diagnose(o, ids).value.targetMet
  {
    var state := Execute(WorldOf(o), ids).state;
    CountersAgree(WorldOf(o), ids);
    if state.failed || state.stopped.Some? {
      StopsAreInconclusive(state, ids);
    }
  }

  // ----- aggregation cannot end the process

  /** `_manifest_case_ids`: named, distinct and at least one. */
  predicate ValidCaseIds(ids: seq<string>) { ids != [] && "" !in ids && Distinct(ids) }

  lemma RanIsValid(o: Outside, s: nat, k: nat, caseId: string, pair: Pair)
    requires Ran(WorldOf(o), s, k, caseId, pair)
    ensures ValidPair(pair)
  {
    hide ValidSingleton, ValidSingletonEvaluation, ProviderFailures, ProviderRetries;
    CleanArmValid(o, caseId, Step(s, k, Baseline), pair.baseline);
    CleanArmValid(o, caseId, Step(s, k, Candidate), pair.candidate);
  }

  lemma CleanArmValid(o: Outside, caseId: string, step: Step, arm: Arm)
    requires RunArm(o, caseId, step) == Yields(arm) && ProviderFailures(arm) == 0 && ProviderRetries(arm) == 0
    ensures ValidSingleton(caseId, arm)
  {
    hide ValidSingleton, ValidSingletonEvaluation, ProviderFailures, ProviderRetries;
  }

  /** A series whose arms all ran is summarised, or drift of flags or a bad
      number is caught: only the write of the summary can end the process. */
  lemma AggregationNeverEscapes(o: Outside, ids: seq<string>, s: nat, pairs: seq<Pair>)
    requires ValidCaseIds(ids) && PairsRan(WorldOf(o), ids, s, pairs) && |pairs| == |ids|
    ensures SummariseSeries(o, s, pairs).Escaped? ==> o.writeSeries(s).Escapes?
  {
    hide SeriesOf, ValidPair, Ran, FilterMap;
    CaseIdsRan(WorldOf(o), ids, s, pairs);
    assert ids[..|pairs|] == ids;
    forall pair | pair in pairs ensures ValidPair(pair) {
      var k :| 0 <= k < |pairs| && pairs[k] == pair;
      assert Ran(WorldOf(o), s, k, ids[k], pairs[k]);
      RanIsValid(o, s, k, ids[k], pair);
    }
    ValidPairsSummarise(OrderOf(s), pairs);
  }

  // ----- the verdict on the pooled private logs

  /** An arm's reports are those of its private log. */
  ghost predicate Recorded(arm: Arm, log: Log, window: Filter) {
    arm.trace == SnapshotOf(log, window) && arm.latency == BreakdownOf(log, window)
  }

  /** The arms of one side, log by log. */
  ghost predicate SideRecorded(pairs: seq<Pair>, side: Label, logs: seq<Log>, f: Filter) {
    |logs| == |pairs| && forall k :: 0 <= k < |pairs| ==> Recorded(ArmOf(pairs[k], side), logs[k], f)
  }

  lemma {:induction false} MetricsOfSide(pairs: seq<Pair>, side: Label, logs: seq<Log>, f: Filter)
    requires SideRecorded(pairs, side, logs, f)
    ensures MetricsOf(logs, f) == FilterMap(SystemOfArm(side), pairs)
    ensures BreakdownsOf(logs, f) == FilterMap(LatencyOf(side), pairs)
  {
    hide BreakdownOf, SystemOf, FilterMap;
    if pairs == [] {
      FilterMapEmpty(SystemOfArm(side));
      FilterMapEmpty(LatencyOf(side));
    } else {
      var last := |pairs| - 1;
      assert pairs == pairs[..last] + [pairs[last]];
      FilterMapLast(SystemOfArm(side), pairs[..last], pairs[last]);
      FilterMapLast(LatencyOf(side), pairs[..last], pairs[last]);
      assert forall k :: 0 <= k < last ==> pairs[..last][k] == pairs[k] && logs[..last][k] == logs[k];
      MetricsOfSide(pairs[..last], side, logs[..last], f);
      assert Recorded(ArmOf(pairs[last], side), logs[last], f);
    }
  }

  lemma OneQueryPerLog(pairs: seq<Pair>, side: Label, logs: seq<Log>, f: Filter)
    requires SideRecorded(pairs, side, logs, f)
    requires forall pair :: pair in pairs ==> ArmOf(pair, side).trace.system.queryCount == 1
    ensures EachOneQuery(logs, f)
  {
    hide BreakdownOf, FilterMap, Count, MaxCount;
    forall log | log in logs ensures OneQuery(Selected(log, f)) {
      var k :| 0 <= k < |logs| && logs[k] == log;
      assert Recorded(ArmOf(pairs[k], side), logs[k], f) && pairs[k] in pairs;
    }
  }

  lemma MergedParts(pairs: seq<Pair>, side: Label, m: MergedArm)
    requires MergeArm(pairs, side) == Ok(m)
    ensures AggregateTraces(FilterMap(SystemOfArm(side), pairs)) == Ok(m.system)
    ensures MergedLatency(FilterMap(LatencyOf(side), pairs)).Ok?
    ensures m.summary.stageSummary == MergedLatency(FilterMap(LatencyOf(side), pairs)).value.stageSummary
    ensures m.summary.estimatedCost == MergedLatency(FilterMap(LatencyOf(side), pairs)).value.estimatedCost
  {
  }

  lemma AllMeasured(logs: seq<Log>, f: Filter)
    requires EachOneQuery(logs, f) && AggregateTraces(MetricsOf(logs, f)).Ok?
    ensures EachMeasured(logs, f)
  {
    AllNumeric(logs, f);
  }

  /** The logs of one side of a series that was summarised can be merged. */
  lemma SideMergeable(pairs: seq<Pair>, side: Label, m: MergedArm, logs: seq<Log>, f: Filter)
    requires SideRecorded(pairs, side, logs, f) && MergeArm(pairs, side) == Ok(m)
    requires forall pair :: pair in pairs ==> ArmOf(pair, side).trace.system.queryCount == 1
    ensures EachOneQuery(logs, f) && EachMeasured(logs, f)
    ensures AggregateTraces(MetricsOf(logs, f)) == Ok(m.system)
  {
    OneQueryPerLog(pairs, side, logs, f);
    MetricsOfSide(pairs, side, logs, f);
    MergedParts(pairs, side, m);
    AllMeasured(logs, f);
  }

  lemma SideSummary(pairs: seq<Pair>, side: Label, m: MergedArm, logs: seq<Log>, f: Filter)
    requires SideRecorded(pairs, side, logs, f) && MergeArm(pairs, side) == Ok(m)
    ensures Apart(TraceKey, logs, f) ==>
              && m.summary.stageSummary == BreakdownOf(Pool(logs), f).stageSummary
              && m.summary.estimatedCost == BreakdownOf(Pool(logs), f).estimatedCost
  {
    MetricsOfSide(pairs, side, logs, f);
    MergedParts(pairs, side, m);
    if Apart(TraceKey, logs, f) {
      MergedLatencyIsPooled(logs, f);
    }
  }

  lemma SummarisedSeries(order: ArmOrder, pairs: seq<Pair>, s: SeriesSummary) returns (b: MergedArm, c: MergedArm)
    requires SeriesOf(order, pairs) == Ok(s)
    ensures MergeArm(pairs, Baseline) == Ok(b) && MergeArm(pairs, Candidate) == Ok(c) && pairs != []
    ensures s.checks == CompareReports(b.eval, c.eval, b.system, c.system)
    ensures s.baseline == b.summary && s.candidate == c.summary
    ensures forall pair :: pair in pairs ==>
              pair.baseline.trace.system.queryCount == 1 && pair.candidate.trace.system.queryCount == 1
  {
    assert FilterMap(CaseIdOf, []) == [];
    assert forall pair :: pair in pairs ==> ValidPair(pair);
    b, c := MergeArm(pairs, Baseline).value, MergeArm(pairs, Candidate).value;
  }

  lemma VerdictOfSides(b: MergedArm, c: MergedArm, baseline: seq<Log>, candidate: seq<Log>, f: Filter)
    requires baseline != [] && EachOneQuery(baseline, f) && EachMeasured(baseline, f)
    requires candidate != [] && EachOneQuery(candidate, f) && EachMeasured(candidate, f)
    requires AggregateTraces(MetricsOf(baseline, f)) == Ok(b.system)
    requires AggregateTraces(MetricsOf(candidate, f)) == Ok(c.system)
    ensures Passed(CompareReports(b.eval, c.eval, Pooled(baseline, f), Pooled(candidate, f))) <==>
            && Passed(CompareReports(b.eval, c.eval, b.system, c.system))
            && Apart(CorrectionKey, candidate, f) && Apart(RepairKey, candidate, f)
  {
    VerdictOfPool(b.eval, c.eval, baseline, candidate, f);
  }

  /** What the pooled logs of a series say about a summary of it. */
  ghost predicate PooledVerdict(
    b: MergedArm, c: MergedArm, s: SeriesSummary, baseline: seq<Log>, candidate: seq<Log>, f: Filter)
  {
    && (Passed(CompareReports(b.eval, c.eval, Pooled(baseline, f), Pooled(candidate, f))) <==>
        Passed(s.checks) && Apart(CorrectionKey, candidate, f) && Apart(RepairKey, candidate, f))
    && (Apart(TraceKey, baseline, f) ==>
          && s.baseline.stageSummary == BreakdownOf(Pool(baseline), f).stageSummary
          && s.baseline.estimatedCost == BreakdownOf(Pool(baseline), f).estimatedCost)
    && (Apart(TraceKey, candidate, f) ==>
          && s.candidate.stageSummary == BreakdownOf(Pool(candidate), f).stageSummary
          && s.candidate.estimatedCost == BreakdownOf(Pool(candidate), f).estimatedCost)
  }

  /** One side of a series: its logs can be merged, and the merge is `m`. */
  ghost predicate SideMerged(m: MergedArm, summary: ArmSummary, logs: seq<Log>, f: Filter) {
    && logs != [] && EachOneQuery(logs, f) && EachMeasured(logs, f)
    && AggregateTraces(MetricsOf(logs, f)) == Ok(m.system)
    && (Apart(TraceKey, logs, f) ==>
          && summary.stageSummary == BreakdownOf(Pool(logs), f).stageSummary
          && summary.estimatedCost == BreakdownOf(Pool(logs), f).estimatedCost)
  }

  lemma SideIsMerged(pairs: seq<Pair>, side: Label, m: MergedArm, logs: seq<Log>, f: Filter)
    requires pairs != [] && SideRecorded(pairs, side, logs, f) && MergeArm(pairs, side) == Ok(m)
    requires forall pair :: pair in pairs ==> ArmOf(pair, side).trace.system.queryCount == 1
    ensures SideMerged(m, m.summary, logs, f)
  {
    SideMergeable(pairs, side, m, logs, f);
    SideSummary(pairs, side, m, logs, f);
  }

  lemma SidesVerdict(
    b: MergedArm, c: MergedArm, s: SeriesSummary, baseline: seq<Log>, candidate: seq<Log>, f: Filter)
    requires SideMerged(b, s.baseline, baseline, f) && SideMerged(c, s.candidate, candidate, f)
    requires s.checks == CompareReports(b.eval, c.eval, b.system, c.system)
    ensures PooledVerdict(b, c, s, baseline, candidate, f)
  {
    VerdictOfSides(b, c, baseline, candidate, f);
  }

  /** The private logs of one side of a series, in case order. */
  function SideLogs(logs: Step -> Log, s: nat, side: Label, n: nat): seq<Log> {
    seq(n, k requires 0 <= k < n => logs(Step(s, k, side)))
  }

  /** Every arm's reports come from its private log, and the common window `f`
      selects from each log what the arm's own window selects. */
  ghost predicate PrivatelyLogged(o: Outside, logs: Step -> Log, windows: Step -> Filter, f: Filter) {
    forall step :: o.produce(step).Yields? ==>
      && Recorded(o.produce(step).value, logs(step), windows(step))
      && Selected(logs(step), windows(step)) == Selected(logs(step), f)
  }

  lemma PairsRecorded(
    o: Outside, logs: Step -> Log, windows: Step -> Filter, f: Filter, ids: seq<string>, s: nat, pairs: seq<Pair>,
    side: Label)
    requires PrivatelyLogged(o, logs, windows, f)
    requires PairsRan(WorldOf(o), ids, s, pairs)
    ensures SideRecorded(pairs, side, SideLogs(logs, s, side, |pairs|), f)
  {
    forall k | 0 <= k < |pairs| ensures Recorded(ArmOf(pairs[k], side), SideLogs(logs, s, side, |pairs|)[k], f) {
      assert Ran(WorldOf(o), s, k, ids[k], pairs[k]);
      ArmProduced(o, ids[k], Step(s, k, side), ArmOf(pairs[k], side));
      SameSelection(ArmOf(pairs[k], side), logs(Step(s, k, side)), windows(Step(s, k, side)), f);
    }
  }

  lemma ArmProduced(o: Outside, caseId: string, step: Step, arm: Arm)
    requires WorldOf(o).arm(caseId, step) == Yields(arm)
    ensures o.produce(step) == Yields(arm)
  {
  }

  lemma SameSelection(arm: Arm, log: Log, window: Filter, f: Filter)
    requires Recorded(arm, log, window) && Selected(log, window) == Selected(log, f)
    ensures Recorded(arm, log, f)
  {
  }

  lemma SeriesOfRun(o: Outside, ids: seq<string>, s: nat, summary: SeriesSummary) returns (pairs: seq<Pair>)
    requires SeriesRan(WorldOf(o), ids, s, summary)
    ensures SeriesOf(OrderOf(s), pairs) == Ok(summary)
    ensures PairsRan(WorldOf(o), ids, s, pairs) && |pairs| == |ids|
  {
    hide SeriesOf, PairsRan, RunArm;
    var w := WorldOf(o);
    pairs :| w.summarise(s, pairs) == Yields(summary) && PairsRan(w, ids, s, pairs) && |pairs| == |ids|;
  }

  lemma SidesOfRun(
    o: Outside, ids: seq<string>, s: nat, summary: SeriesSummary) returns (pairs: seq<Pair>, b: MergedArm, c: MergedArm)
    requires SeriesRan(WorldOf(o), ids, s, summary)
    ensures PairsRan(WorldOf(o), ids, s, pairs) && |pairs| == |ids| && pairs != []
    ensures MergeArm(pairs, Baseline) == Ok(b) && MergeArm(pairs, Candidate) == Ok(c)
    ensures summary.checks == CompareReports(b.eval, c.eval, b.system, c.system)
    ensures summary.baseline == b.summary && summary.candidate == c.summary
    ensures forall pair :: pair in pairs ==>
              pair.baseline.trace.system.queryCount == 1 && pair.candidate.trace.system.queryCount == 1
  {
    pairs := SeriesOfRun(o, ids, s, summary);
    b, c := SummarisedSeries(OrderOf(s), pairs, summary);
  }

  lemma RunSideMerged(
    o: Outside, ids: seq<string>, logs: Step -> Log, windows: Step -> Filter, f: Filter, s: nat, pairs: seq<Pair>,
    side: Label, m: MergedArm)
    requires PrivatelyLogged(o, logs, windows, f)
    requires PairsRan(WorldOf(o), ids, s, pairs) && pairs != [] && MergeArm(pairs, side) == Ok(m)
    requires forall pair :: pair in pairs ==> ArmOf(pair, side).trace.system.queryCount == 1
    ensures SideMerged(m, m.summary, SideLogs(logs, s, side, |pairs|), f)
  {
    PairsRecorded(o, logs, windows, f, ids, s, pairs, side);
    SideIsMerged(pairs, side, m, SideLogs(logs, s, side, |pairs|), f);
  }

  /** The gate of a finished series passes on its pooled private logs exactly
      when it passed on the merged reports and no attempt key recurs across the
      candidate's logs; its latency and cost figures are those of the pooled
      logs when no trace recurs. */
  lemma SeriesOnPooledEvidence(
    o: Outside, ids: seq<string>, logs: Step -> Log, windows: Step -> Filter, f: Filter, s: nat, summary: SeriesSummary)
    returns (pairs: seq<Pair>, b: MergedArm, c: MergedArm)
    requires SeriesRan(WorldOf(o), ids, s, summary) && PrivatelyLogged(o, logs, windows, f)
    ensures PairsRan(WorldOf(o), ids, s, pairs) && |pairs| == |ids|
    ensures MergeArm(pairs, Baseline) == Ok(b) && MergeArm(pairs, Candidate) == Ok(c)
    ensures PooledVerdict(b, c, summary, SideLogs(logs, s, Baseline, |ids|), SideLogs(logs, s, Candidate, |ids|), f)
  {
    hide MergeArm, SideMerged, PooledVerdict, SeriesRan, PairsRan;
    pairs, b, c := SidesOfRun(o, ids, s, summary);
    RunSideMerged(o, ids, logs, windows, f, s, pairs, Baseline, b);
    RunSideMerged(o, ids, logs, windows, f, s, pairs, Candidate, c);
    SidesVerdict(b, c, summary, SideLogs(logs, s, Baseline, |ids|), SideLogs(logs, s, Candidate, |ids|), f);
  }

  /** A passed diagnostic of privately logged arms would have passed both gates
      on the pooled logs of each series, unless a correction or repair key
      recurs between candidate logs. */
  lemma PassedOnPooledEvidence(
    o: Outside, ids: seq<string>, logs: Step -> Log, windows: Step -> Filter, f: Filter, s: nat)
    returns (pairs: seq<Pair>, b: MergedArm, c: MergedArm)
    requires Diagnose(o, ids).Some? && Diagnose(o, ids).value.status == StatusPassed
    requires PrivatelyLogged(o, logs, windows, f) && s < |SERIES_ORDER|
    ensures PairsRan(WorldOf(o), ids, s, pairs) && |pairs| == |ids|
    ensures MergeArm(pairs, Baseline) == Ok(b) && MergeArm(pairs, Candidate) == Ok(c)
    ensures var candidate := SideLogs(logs, s, Candidate, |ids|);
            Passed(CompareReports(b.eval, c.eval,
                                  Pooled(SideLogs(logs, s, Baseline, |ids|), f), Pooled(candidate, f))) <==>
            Apart(CorrectionKey, candidate, f) && Apart(RepairKey, candidate, f)
  {
    PassedMeansComplete(o, ids);
    var summary := Execute(WorldOf(o), ids).state.series[s];
    assert Passed(summary.checks);
    pairs, b, c := SeriesOnPooledEvidence(o, ids, logs, windows, f, s, summary);
  }
}

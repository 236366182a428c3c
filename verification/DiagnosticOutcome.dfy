/** The summary of one series of case pairs and the outcome of two mirrored
    series. Medians and ratios are exact reals. */
module DiagnosticOutcome {
  import opened Collections
  import opened Ranks
  import opened TraceSnapshot
  import opened LatencyBreakdown
  import opened RolloutGate
  import opened Aggregation
  import opened DiagnosticPlan

  datatype Arm = Arm(eval: EvalReport, trace: Snapshot, latency: Breakdown)

  type Pair = CasePair<Arm>

  function ArmOf(pair: Pair, side: Label): Arm {
    match side case Baseline => pair.baseline case Candidate => pair.candidate
  }

  function ProviderFailures(arm: Arm): nat {
    Max(Max(arm.eval.providerFailureCount, Count(IsProviderFailure, arm.eval.cases)),
        arm.trace.errorEvents + arm.trace.fallbackEvents)
  }

  function ProviderRetries(arm: Arm): nat {
    Max(arm.eval.providerRetries, arm.trace.retryEvents)
  }

  predicate ValidSingletonEvaluation(caseId: string, arm: Arm) {
    && arm.eval.totalCases == 1
    && |arm.eval.cases| == 1
    && arm.eval.cases[0].id == caseId
  }

  predicate ValidSingleton(caseId: string, arm: Arm) {
    && ValidSingletonEvaluation(caseId, arm)
    && var traceId := arm.eval.cases[0].traceId;
    && traceId.Some? && traceId.value != ""
    && arm.trace.system.queryCount == 1
    && arm.latency.queryCount == 1
    && arm.latency.parseErrors == 0
    && |arm.latency.traces| == 1
    && arm.latency.traces[0].id == Sha256(traceId.value)
  }

  datatype ArmSummary = ArmSummary(
    providerFailures: nat,
    providerRetries: nat,
    totalCases: nat,
    passedCases: nat,
    estimatedCost: int,
    stageSummary: map<Stage, StageStats>)

  datatype SeriesSummary = SeriesSummary(
    order: ArmOrder,
    caseIds: seq<string>,
    baseline: ArmSummary,
    candidate: ArmSummary,
    checks: Checks)

  function SummaryOf(s: SeriesSummary, side: Label): ArmSummary {
    match side case Baseline => s.baseline case Candidate => s.candidate
  }

  // ----- build_series_summary

  function EvalOf(side: Label): Pair -> Option<EvalReport> {
    (pair: Pair) => Some(ArmOf(pair, side).eval)
  }

  function SystemOfArm(side: Label): Pair -> Option<SystemMetrics> {
    (pair: Pair) => Some(ArmOf(pair, side).trace.system)
  }

  function LatencyOf(side: Label): Pair -> Option<Breakdown> {
    (pair: Pair) => Some(ArmOf(pair, side).latency)
  }

  function CaseIdOf(pair: Pair): Option<string> { Some(pair.caseId) }

  predicate ValidPair(pair: Pair) {
    ValidSingleton(pair.caseId, pair.baseline) && ValidSingleton(pair.caseId, pair.candidate)
  }

  /** What one arm of a series merges into: its gate inputs and its summary. */
  datatype MergedArm = MergedArm(eval: EvalReport, system: SystemMetrics, summary: ArmSummary)

  function MergeArm(pairs: seq<Pair>, side: Label): Result<MergedArm, MergeError> {
    match (MergedEvaluation(FilterMap(EvalOf(side), pairs)),
           AggregateTraces(FilterMap(SystemOfArm(side), pairs)),
           MergedLatency(FilterMap(LatencyOf(side), pairs)))
    case (Ok(e), Ok(t), Ok(l)) =>
      Ok(MergedArm(e, t, ArmSummary(
        e.providerFailureCount, e.providerRetries, e.totalCases, e.passedCases, l.estimatedCost, l.stageSummary)))
    case (Err(error), _, _) => Err(error)
    case (_, Err(error), _) => Err(error)
    case (_, _, Err(error)) => Err(error)
  }

  function SeriesOf(order: ArmOrder, pairs: seq<Pair>): Result<SeriesSummary, MergeError> {
    var caseIds := FilterMap(CaseIdOf, pairs);
    if caseIds == [] || "" in caseIds || !Distinct(caseIds) then Err(InvalidCaseIds)
    else if exists pair :: pair in pairs && !ValidPair(pair) then Err(InvalidSingleton)
    else
      match (MergeArm(pairs, Baseline), MergeArm(pairs, Candidate))
      case (Ok(b), Ok(c)) =>
        Ok(SeriesSummary(order, caseIds, b.summary, c.summary, CompareReports(b.eval, c.eval, b.system, c.system)))
      case (Err(error), _) => Err(error)
      case (_, Err(error)) => Err(error)
  }

  method BuildMergedArm(pairs: seq<Pair>, side: Label) returns (r: Result<MergedArm, MergeError>)
    ensures r == MergeArm(pairs, side)
    ensures r.Ok? ==> SoundArm(r.value.summary)
  {
    var e := AggregateEvaluations(FilterMap(EvalOf(side), pairs));
    if e.Err? {
      return Err(e.error);
    }
    var t := AggregateTraces(FilterMap(SystemOfArm(side), pairs));
    if t.Err? {
      return Err(t.error);
    }
    var l := AggregateLatencies(FilterMap(LatencyOf(side), pairs));
    if l.Err? {
      return Err(l.error);
    }
    r := Ok(MergedArm(e.value, t.value, ArmSummary(
      e.value.providerFailureCount, e.value.providerRetries, e.value.totalCases, e.value.passedCases,
      l.value.estimatedCost, l.value.stageSummary)));
    MergeArmSound(pairs, side);
  }

  method BuildSeriesSummary(order: ArmOrder, pairs: seq<Pair>) returns (r: Result<SeriesSummary, MergeError>)
    ensures r == SeriesOf(order, pairs)
    ensures r.Ok? ==> SoundSeries(r.value)
  {
    var caseIds := FilterMap(CaseIdOf, pairs);
    if caseIds == [] || "" in caseIds || !Distinct(caseIds) {
      return Err(InvalidCaseIds);
    }
    for i := 0 to |pairs|
      invariant forall pair :: pair in pairs[..i] ==> ValidPair(pair)
    {
      if !ValidPair(pairs[i]) {
        return Err(InvalidSingleton);
      }
      assert pairs[..i + 1] == pairs[..i] + [pairs[i]];
    }
    assert pairs[..|pairs|] == pairs;
    var b := BuildMergedArm(pairs, Baseline);
    if b.Err? {
      return Err(b.error);
    }
    var c := BuildMergedArm(pairs, Candidate);
    if c.Err? {
      return Err(c.error);
    }
    r := Ok(SeriesSummary(order, caseIds, b.value.summary, c.value.summary,
      CompareReports(b.value.eval, c.value.eval, b.value.system, c.value.system)));
  }

  // ----- metrics over the series

  datatype Metric = StageMedian(stage: Stage) | TotalCostMetric

  function MetricOf(side: Label, m: Metric): SeriesSummary -> Option<int> {
    (s: SeriesSummary) =>
      var arm := SummaryOf(s, side);
      match m
      case TotalCostMetric => Some(arm.estimatedCost)
      case StageMedian(stage) => if stage in arm.stageSummary then Some(arm.stageSummary[stage].p50) else None
  }

  /** `statistics.median`. */
  function Median(values: seq<int>): real
    requires values != []
  {
    SortedSorts(values);
    var s, n := Sorted(values), |values|;
    if n % 2 == 1 then s[n / 2] as real else (s[n / 2 - 1] + s[n / 2]) as real / 2.0
  }

  function ArmMetric(series: seq<SeriesSummary>, side: Label, m: Metric): Option<real> {
    var values := FilterMap(MetricOf(side, m), series);
    if values == [] then None else Some(Median(values))
  }

  method ComputeArmMetric(series: seq<SeriesSummary>, side: Label, m: Metric) returns (r: Option<real>)
    ensures r == ArmMetric(series, side, m)
  {
    var values: seq<int> := [];
    for i := 0 to |series|
      invariant values == FilterMap(MetricOf(side, m), series[..i])
    {
      FilterMapLast(MetricOf(side, m), series[..i], series[i]);
      assert series[..i + 1] == series[..i] + [series[i]];
      var value := MetricOf(side, m)(series[i]);
      if value.Some? {
        values := values + [value.value];
      }
    }
    assert series[..|series|] == series;
    r := if values == [] then None else Some(Median(values));
  }

  function RatioOf(candidate: Option<real>, baseline: Option<real>): Option<real> {
    if baseline.Some? && baseline.value != 0.0 && candidate.Some? then Some(candidate.value / baseline.value) else None
  }

  /** The ratio of one series alone. */
  function SeriesRatio(m: Metric): SeriesSummary -> Option<real> {
    (s: SeriesSummary) => RatioOf(ArmMetric([s], Candidate, m), ArmMetric([s], Baseline, m))
  }

  function PooledRatio(series: seq<SeriesSummary>, m: Metric): Option<real> {
    RatioOf(ArmMetric(series, Candidate, m), ArmMetric(series, Baseline, m))
  }

  const SERIES_COUNT := 2
  const MAX_SPREAD := 0.10
  const MAX_LATENCY := 1.25
  const MAX_COST := 1.5

  function Spread(ratios: seq<real>): Option<real> {
    if |ratios| == SERIES_COUNT then
      Some(if ratios[0] < ratios[1] then ratios[1] - ratios[0] else ratios[0] - ratios[1])
    else None
  }

  const STAGES: seq<Stage> := [
    RetrievalTime, ParentContextTime, RerankTime, GenerationTime, CorrectionTime, ClaimRepairTime
  ]

  /** The positive overhead of a stage in one series, if any. */
  function Overhead(s: SeriesSummary, stage: Stage): Option<real> {
    var candidate := ArmMetric([s], Candidate, StageMedian(stage));
    var baseline := ArmMetric([s], Baseline, StageMedian(stage));
    if candidate.None? then None
    else
      var delta := candidate.value - if baseline.Some? then baseline.value else 0.0;
      if delta > 0.0 then Some(delta) else None
  }

  /** The first stage of greatest overhead among `stages`. */
  function DominantAmong(s: SeriesSummary, stages: seq<Stage>): Option<Stage> {
    if stages == [] then None
    else
      var best, stage := DominantAmong(s, stages[..|stages| - 1]), stages[|stages| - 1];
      if Overhead(s, stage).Some? &&
         (best.None? || Overhead(s, best.value).None? || Overhead(s, stage).value > Overhead(s, best.value).value)
      then Some(stage)
      else best
  }

  function DominantStage(s: SeriesSummary): Option<Stage> { DominantAmong(s, STAGES) }

  function FailuresOf(s: SeriesSummary): Option<int> {
    Some(s.baseline.providerFailures + s.candidate.providerFailures)
  }

  function RetriesIn(s: SeriesSummary): Option<int> { Some(s.baseline.providerRetries + s.candidate.providerRetries) }

  datatype Metrics = Metrics(
    failures: int,
    retries: int,
    complete: bool,
    latencySpread: Option<real>,
    costSpread: Option<real>,
    latencyRatio: Option<real>,
    costRatio: Option<real>,
    gatesPassed: bool,
    consistent: bool)

  const TOTAL := StageMedian(TotalTime)

  predicate Agree(a: SeriesSummary, b: SeriesSummary) {
    && a.checks == b.checks
    && DominantStage(a) == DominantStage(b)
  }

  function OutcomeMetrics(series: seq<SeriesSummary>): Metrics {
    var complete := |series| == SERIES_COUNT;
    var latencySpread := Spread(FilterMap(SeriesRatio(TOTAL), series));
    var costSpread := Spread(FilterMap(SeriesRatio(TotalCostMetric), series));
    Metrics(
      Sum(FilterMap(FailuresOf, series)),
      Sum(FilterMap(RetriesIn, series)),
      complete,
      latencySpread,
      costSpread,
      PooledRatio(series, TOTAL),
      PooledRatio(series, TotalCostMetric),
      forall s :: s in series ==> Passed(s.checks),
      complete && Agree(series[0], series[1]) &&
      latencySpread.Some? && latencySpread.value <= MAX_SPREAD &&
      costSpread.Some? && costSpread.value <= MAX_SPREAD)
  }

  predicate TargetMet(m: Metrics) {
    && m.failures == 0
    && m.retries == 0
    && m.consistent
    && m.complete
    && m.gatesPassed
    && m.latencyRatio.Some? && m.latencyRatio.value <= MAX_LATENCY
    && m.costRatio.Some? && m.costRatio.value <= MAX_COST
  }

  datatype Status = Inconclusive | StatusPassed | StatusFailed

  function StatusOf(m: Metrics): Status {
    if m.failures != 0 || m.retries != 0 || !m.complete || !m.consistent then Inconclusive
    else if TargetMet(m) then StatusPassed
    else StatusFailed
  }

  datatype Outcome = Outcome(
    status: Status,
    targetMet: bool,
    failures: int,
    retries: int,
    seriesCount: nat,
    casePairCount: nat,
    armRunCount: nat,
    executionFailed: bool,
    stopped: Option<StoppedCase>)

  /** `finalize_case_paired_outcome` over `build_diagnostic_outcome`; it raises
      when a series ran other cases than declared. */
  function Finalize(
    series: seq<SeriesSummary>, expected: seq<string>, completed: nat, armRuns: nat,
    executionFailed: bool, stopped: Option<StoppedCase>): Option<Outcome>
  {
    if exists s :: s in series && s.caseIds != expected then None
    else
      var m := OutcomeMetrics(series);
      var failures := if stopped.Some? then stopped.value.failures else 0;
      var retries := if stopped.Some? then stopped.value.retries else 0;
      var forced := executionFailed || failures != 0 || retries != 0;
      Some(Outcome(
        if forced then Inconclusive else StatusOf(m),
        !forced && TargetMet(m),
        m.failures + failures,
        m.retries + retries,
        |series|, completed, armRuns, executionFailed, stopped))
  }

  // ----- what the outcome promises

  lemma MedianOfOne(v: int)
    ensures Median([v]) == v as real
  {
    SortedSorts([v]);
    var s := Sorted([v]);
    assert |multiset(s)| == |multiset([v])|;
    assert s[0] in multiset(s);
  }

  lemma SumOfTwo(s: seq<int>)
    requires |s| == 2
    ensures Sum(s) == s[0] + s[1]
  {
    assert s == ([] + [s[0]]) + [s[1]];
    SumLast([], s[0]);
    SumLast([] + [s[0]], s[1]);
  }

  lemma MedianOfTwo(v: int, w: int)
    ensures Median([v, w]) == (v + w) as real / 2.0
  {
    var s := Sorted([v, w]);
    SortedSorts([v, w]);
    assert |multiset(s)| == |multiset([v, w])|;
    SumPermuted(s, [v, w]);
    SumOfTwo(s);
    SumOfTwo([v, w]);
  }

  lemma MedianPermuted(a: seq<int>, b: seq<int>)
    requires multiset(a) == multiset(b) && a != [] && b != []
    ensures Median(a) == Median(b)
  {
    assert |multiset(a)| == |a| && |multiset(b)| == |b|;
    SortedPermuted(a, b);
  }

  lemma Divide(x: real, y: real, r: real)
    requires y > 0.0
    ensures x / y <= r <==> x <= r * y
    ensures x / y >= r <==> x >= r * y
  {
    Cancel(x, y);
    Scale(x / y, r, y);
    Scale(r, x / y, y);
  }

  lemma Distribute(r: real, x: real, y: real)
    ensures r * (x + y) == r * x + r * y
  {
  }

  /** The mediant of two fractions lies between them. */
  lemma Mediant(c1: real, b1: real, c2: real, b2: real)
    requires b1 > 0.0 && b2 > 0.0 && c1 / b1 <= c2 / b2
    ensures c1 / b1 <= (c1 + c2) / (b1 + b2) <= c2 / b2
  {
    var r, q := c1 / b1, c2 / b2;
    Divide(c2, b2, r);
    Divide(c1, b1, q);
    Cancel(c1, b1);
    Cancel(c2, b2);
    Distribute(r, b1, b2);
    Distribute(q, b1, b2);
    Divide(c1 + c2, b1 + b2, r);
    Divide(c1 + c2, b1 + b2, q);
  }

  lemma MediantOfHalves(c1: real, b1: real, c2: real, b2: real)
    requires b1 > 0.0 && b2 > 0.0
    ensures ((c1 + c2) / 2.0) / ((b1 + b2) / 2.0) == (c1 + c2) / (b1 + b2)
  {
    var c, b := c1 + c2, b1 + b2;
    var q := c / b;
    assert q * b == c;
    assert q * (b / 2.0) == c / 2.0;
    Divide(c / 2.0, b / 2.0, q);
  }

  /** A non-negative reading of a metric, in both arms. */
  predicate NonNegative(s: SeriesSummary, m: Metric) {
    && (MetricOf(Baseline, m)(s).Some? ==> MetricOf(Baseline, m)(s).value >= 0)
    && (MetricOf(Candidate, m)(s).Some? ==> MetricOf(Candidate, m)(s).value >= 0)
  }

  lemma MetricOfOne(s: SeriesSummary, side: Label, m: Metric)
    ensures var v := MetricOf(side, m)(s);
            ArmMetric([s], side, m) == if v.None? then None else Some(v.value as real)
  {
    FilterMapLast(MetricOf(side, m), [], s);
    assert [] + [s] == [s];
    var v := MetricOf(side, m)(s);
    if v.Some? {
      MedianOfOne(v.value);
      assert FilterMap(MetricOf(side, m), [s]) == [v.value];
    }
  }

  lemma MetricOfTwo(a: SeriesSummary, b: SeriesSummary, side: Label, m: Metric)
    requires MetricOf(side, m)(a).Some? && MetricOf(side, m)(b).Some?
    ensures ArmMetric([a, b], side, m) ==
            Some((MetricOf(side, m)(a).value as real + MetricOf(side, m)(b).value as real) / 2.0)
  {
    FilterMapLast(MetricOf(side, m), [], a);
    FilterMapLast(MetricOf(side, m), [a], b);
    assert [] + [a] == [a] && [a] + [b] == [a, b];
    var v, w := MetricOf(side, m)(a).value, MetricOf(side, m)(b).value;
    assert FilterMap(MetricOf(side, m), [a, b]) == [v, w];
    MedianOfTwo(v, w);
  }

  lemma MediantBetween(c1: real, b1: real, c2: real, b2: real)
    requires b1 > 0.0 && b2 > 0.0
    ensures var x, y, p := c1 / b1, c2 / b2, ((c1 + c2) / 2.0) / ((b1 + b2) / 2.0);
            (x <= p <= y) || (y <= p <= x)
  {
    MediantOfHalves(c1, b1, c2, b2);
    if c1 / b1 <= c2 / b2 {
      Mediant(c1, b1, c2, b2);
    } else {
      Mediant(c2, b2, c1, b1);
    }
  }

  /** The pooled ratio lies between the ratios of the two series. */
  lemma PooledRatioIsMediant(a: SeriesSummary, b: SeriesSummary, m: Metric)
    requires NonNegative(a, m) && NonNegative(b, m)
    requires SeriesRatio(m)(a).Some? && SeriesRatio(m)(b).Some?
    ensures PooledRatio([a, b], m).Some?
    ensures var x, y, p := SeriesRatio(m)(a).value, SeriesRatio(m)(b).value, PooledRatio([a, b], m).value;
            (x <= p <= y) || (y <= p <= x)
  {
    hide ArmMetric, Median, FilterMap;
    MetricOfOne(a, Baseline, m);
    MetricOfOne(a, Candidate, m);
    MetricOfOne(b, Baseline, m);
    MetricOfOne(b, Candidate, m);
    MetricOfTwo(a, b, Baseline, m);
    MetricOfTwo(a, b, Candidate, m);
    MediantBetween(
      MetricOf(Candidate, m)(a).value as real, MetricOf(Baseline, m)(a).value as real,
      MetricOf(Candidate, m)(b).value as real, MetricOf(Baseline, m)(b).value as real);
  }

  lemma RatiosOfTwo(a: SeriesSummary, b: SeriesSummary, m: Metric)
    requires Spread(FilterMap(SeriesRatio(m), [a, b])).Some?
    ensures SeriesRatio(m)(a).Some? && SeriesRatio(m)(b).Some?
    ensures FilterMap(SeriesRatio(m), [a, b]) == [SeriesRatio(m)(a).value, SeriesRatio(m)(b).value]
  {
    FilterMapLast(SeriesRatio(m), [], a);
    FilterMapLast(SeriesRatio(m), [a], b);
    assert [] + [a] == [a] && [a] + [b] == [a, b];
  }

  // ----- the metrics of a built series are never negative

  lemma {:induction false} TotalNonNegative(reports: seq<Breakdown>)
    requires forall r :: r in reports ==> r.estimatedCost >= 0
    ensures TotalCost(reports) >= 0
  {
    if reports != [] {
      TotalNonNegative(reports[..|reports| - 1]);
    }
  }

  lemma MergedArmNonNegative(reports: seq<Breakdown>)
    requires MergedLatency(reports).Ok?
    ensures MergedLatency(reports).value.estimatedCost >= 0
    ensures forall s :: s in MergedLatency(reports).value.stageSummary ==>
              MergedLatency(reports).value.stageSummary[s].p50 >= 0
  {
    TotalNonNegative(reports);
    forall s | s in MergedSummary(reports) ensures MergedSummary(reports)[s].p50 >= 0 {
      var values := MergedValues(reports, s);
      NearestRankIsLeast(values, P50);
      FilterMapMember(RowTime(s), RowsOf(reports), NearestRank(values, P50));
    }
  }

  /** An arm with no negative cost or median. */
  predicate SoundArm(arm: ArmSummary) {
    arm.estimatedCost >= 0 && forall s :: s in arm.stageSummary ==> arm.stageSummary[s].p50 >= 0
  }

  lemma MergeArmSound(pairs: seq<Pair>, side: Label)
    requires MergeArm(pairs, side).Ok?
    ensures SoundArm(MergeArm(pairs, side).value.summary)
  {
    var reports := FilterMap(LatencyOf(side), pairs);
    assert MergedLatency(reports).Ok?;
    MergedArmNonNegative(reports);
  }

  predicate SoundSeries(s: SeriesSummary) { SoundArm(s.baseline) && SoundArm(s.candidate) }

  lemma SoundNonNegative(s: SeriesSummary, m: Metric)
    requires SoundSeries(s)
    ensures NonNegative(s, m)
  {
  }

  lemma SeriesParts(order: ArmOrder, pairs: seq<Pair>, s: SeriesSummary)
    requires SeriesOf(order, pairs) == Ok(s)
    ensures s.caseIds == FilterMap(CaseIdOf, pairs)
    ensures MergeArm(pairs, Baseline).Ok? && MergeArm(pairs, Candidate).Ok?
    ensures s.baseline == MergeArm(pairs, Baseline).value.summary
    ensures s.candidate == MergeArm(pairs, Candidate).value.summary
  {
  }

  /** A summary that was built lists its cases and has no negative metric. */
  lemma BuiltSeries(order: ArmOrder, pairs: seq<Pair>, s: SeriesSummary)
    requires SeriesOf(order, pairs) == Ok(s)
    ensures s.caseIds == FilterMap(CaseIdOf, pairs) && SoundSeries(s)
  {
    SeriesParts(order, pairs, s);
    MergeArmSound(pairs, Baseline);
    MergeArmSound(pairs, Candidate);
  }

  lemma TargetBoundsMetric(a: SeriesSummary, b: SeriesSummary, m: Metric, limit: real)
    requires NonNegative(a, m) && NonNegative(b, m)
    requires var spread := Spread(FilterMap(SeriesRatio(m), [a, b])); spread.Some? && spread.value <= MAX_SPREAD
    requires PooledRatio([a, b], m).Some? ==> PooledRatio([a, b], m).value <= limit
    ensures SeriesRatio(m)(a).Some? && SeriesRatio(m)(a).value <= limit + MAX_SPREAD
    ensures SeriesRatio(m)(b).Some? && SeriesRatio(m)(b).value <= limit + MAX_SPREAD
  {
    RatiosOfTwo(a, b, m);
    PooledRatioIsMediant(a, b, m);
  }

  /** What the pooled target implies for a series on its own: its total latency
      within 1.25 + 0.10 and its cost within 1.50 + 0.10 of the baseline. */
  predicate WithinOwnLimits(s: SeriesSummary) {
    && SeriesRatio(TOTAL)(s).Some? && SeriesRatio(TOTAL)(s).value <= 1.35
    && SeriesRatio(TotalCostMetric)(s).Some? && SeriesRatio(TotalCostMetric)(s).value <= 1.60
  }

  lemma TargetBoundsEachSeries(a: SeriesSummary, b: SeriesSummary)
    requires SoundSeries(a) && SoundSeries(b)
    requires TargetMet(OutcomeMetrics([a, b]))
    ensures WithinOwnLimits(a) && WithinOwnLimits(b)
  {
    forall m ensures NonNegative(a, m) && NonNegative(b, m) {
      SoundNonNegative(a, m);
      SoundNonNegative(b, m);
    }
    TargetBoundsMetric(a, b, TOTAL, MAX_LATENCY);
    TargetBoundsMetric(a, b, TotalCostMetric, MAX_COST);
  }

  lemma SwappedValues<U>(f: SeriesSummary -> Option<U>, a: SeriesSummary, b: SeriesSummary)
    ensures multiset(FilterMap(f, [a, b])) == multiset(FilterMap(f, [b, a]))
  {
    assert multiset([a, b]) == multiset([b, a]);
    FilterMapPermuted(f, [a, b], [b, a]);
  }

  lemma SwappedMetric(a: SeriesSummary, b: SeriesSummary, side: Label, m: Metric)
    ensures ArmMetric([a, b], side, m) == ArmMetric([b, a], side, m)
  {
    SwappedValues(MetricOf(side, m), a, b);
    var v, w := FilterMap(MetricOf(side, m), [a, b]), FilterMap(MetricOf(side, m), [b, a]);
    assert |multiset(v)| == |v| && |multiset(w)| == |w|;
    if v != [] {
      MedianPermuted(v, w);
    }
  }

  lemma SpreadOfTwo(x: Option<real>, y: Option<real>)
    ensures Spread((match x case None => [] case Some(v) => [v]) + match y case None => [] case Some(v) => [v]) ==
            Spread((match y case None => [] case Some(v) => [v]) + match x case None => [] case Some(v) => [v])
  {
  }

  lemma SwappedSpread(a: SeriesSummary, b: SeriesSummary, m: Metric)
    ensures Spread(FilterMap(SeriesRatio(m), [a, b])) == Spread(FilterMap(SeriesRatio(m), [b, a]))
  {
    var f := SeriesRatio(m);
    FilterMapOfTwo(f, a, b);
    FilterMapOfTwo(f, b, a);
    SpreadOfTwo(f(a), f(b));
  }

  /** Nothing the status depends on changes when the two series trade places. */
  lemma SwapKeepsOutcome(a: SeriesSummary, b: SeriesSummary)
    ensures OutcomeMetrics([a, b]) == OutcomeMetrics([b, a])
    ensures StatusOf(OutcomeMetrics([a, b])) == StatusOf(OutcomeMetrics([b, a]))
  {
    hide FilterMap, Sum, Spread, ArmMetric, SeriesRatio;
    SwappedSpread(a, b, TOTAL);
    SwappedSpread(a, b, TotalCostMetric);
    SwappedMetric(a, b, Baseline, TOTAL);
    SwappedMetric(a, b, Candidate, TOTAL);
    SwappedMetric(a, b, Baseline, TotalCostMetric);
    SwappedMetric(a, b, Candidate, TotalCostMetric);
    SwappedValues(FailuresOf, a, b);
    SwappedValues(RetriesIn, a, b);
    SumPermuted(FilterMap(FailuresOf, [a, b]), FilterMap(FailuresOf, [b, a]));
    SumPermuted(FilterMap(RetriesIn, [a, b]), FilterMap(RetriesIn, [b, a]));
  }

  // ----- the dominant stage

  /** A stage's overhead is one of the listed ones and no listed overhead exceeds it. */
  predicate Dominates(s: SeriesSummary, stages: seq<Stage>, best: Option<Stage>) {
    match best
    case None => forall stage :: stage in stages ==> Overhead(s, stage).None?
    case Some(b) =>
      && b in stages && Overhead(s, b).Some?
      && forall stage :: stage in stages && Overhead(s, stage).Some? ==>
           Overhead(s, stage).value <= Overhead(s, b).value
  }

  lemma {:induction false} DominantAmongIsGreatest(s: SeriesSummary, stages: seq<Stage>)
    ensures Dominates(s, stages, DominantAmong(s, stages))
  {
    hide Overhead;
    if stages != [] {
      var front, last := stages[..|stages| - 1], stages[|stages| - 1];
      assert stages == front + [last];
      DominantAmongIsGreatest(s, front);
    }
  }

  /** The dominant stage has the greatest positive overhead; there is none exactly
      when no stage has any. */
  lemma DominantStageIsGreatest(s: SeriesSummary)
    ensures Dominates(s, STAGES, DominantStage(s))
  {
    DominantAmongIsGreatest(s, STAGES);
  }

  // ----- what a series of valid pairs can still fail on

  lemma {:induction false} OneQueryEach(reports: seq<SystemMetrics>)
    requires forall r :: r in reports ==> r.queryCount == 1
    ensures Sum(FilterMap(QueriesOf, reports)) == |reports|
  {
    hide FilterMap, Sum;
    if reports == [] {
      FilterMapEmpty(QueriesOf);
      SumEmpty();
    } else {
      var front, last := reports[..|reports| - 1], reports[|reports| - 1];
      assert reports == front + [last] && last in reports;
      OneQueryEach(front);
      FilterMapLast(QueriesOf, front, last);
      SumLast(FilterMap(QueriesOf, front), last.queryCount);
    }
  }

  lemma SumEmpty()
    ensures Sum([]) == 0
  {
  }

  lemma TracesMerge(reports: seq<SystemMetrics>)
    requires reports != [] && forall r :: r in reports ==> r.queryCount == 1
    ensures AggregateTraces(reports).Err? ==> AggregateTraces(reports).error == BadNumber
  {
    hide FilterMap, NearestRank, RetryTotal, CorrectionIdsOf, RepairIdsOf, MaxCorrectionsOf, MaxRepairsOf;
    OneQueryEach(reports);
  }

  lemma {:induction false} SystemsOfPairs(pairs: seq<Pair>, side: Label)
    requires forall pair :: pair in pairs ==> ArmOf(pair, side).trace.system.queryCount == 1
    ensures |FilterMap(SystemOfArm(side), pairs)| == |pairs|
    ensures forall r :: r in FilterMap(SystemOfArm(side), pairs) ==> r.queryCount == 1
  {
    hide FilterMap;
    if pairs == [] {
      FilterMapEmpty(SystemOfArm(side));
    } else {
      var front, last := pairs[..|pairs| - 1], pairs[|pairs| - 1];
      assert pairs == front + [last] && last in pairs;
      SystemsOfPairs(front, side);
      FilterMapLast(SystemOfArm(side), front, last);
    }
  }

  predicate DriftOrNumber(error: MergeError) { error == FlagsDrifted || error == BadNumber }

  lemma ArmMerges(pairs: seq<Pair>, side: Label)
    requires pairs != [] && forall pair :: pair in pairs ==> ArmOf(pair, side).trace.system.queryCount == 1
    ensures MergeArm(pairs, side).Err? ==> DriftOrNumber(MergeArm(pairs, side).error)
  {
    hide FilterMap, AggregateTraces, MergedSummary, CasesOf, MergedOutcomes, RowsOf;
    SystemsOfPairs(pairs, side);
    TracesMerge(FilterMap(SystemOfArm(side), pairs));
  }

  /** A series of valid pairs with distinct, named cases is summarised, unless
      feature flags drifted between its runs or a cost or latency is no
      non-negative number; in particular it never divides by zero. */
  lemma ValidPairsSummarise(order: ArmOrder, pairs: seq<Pair>)
    requires pairs != [] && forall pair :: pair in pairs ==> ValidPair(pair)
    requires "" !in FilterMap(CaseIdOf, pairs) && Distinct(FilterMap(CaseIdOf, pairs))
    ensures SeriesOf(order, pairs).Err? ==> DriftOrNumber(SeriesOf(order, pairs).error)
  {
    hide FilterMap, MergeArm, CompareReports;
    CaseIdsListed(pairs);
    forall pair | pair in pairs
      ensures pair.baseline.trace.system.queryCount == 1 && pair.candidate.trace.system.queryCount == 1
    {
      assert ValidPair(pair);
    }
    ArmMerges(pairs, Baseline);
    ArmMerges(pairs, Candidate);
  }

  lemma CaseIdsListed(pairs: seq<Pair>)
    requires pairs != []
    ensures FilterMap(CaseIdOf, pairs) != []
  {
  }
}

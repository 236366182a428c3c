/** Merging the reports of singleton runs into the report of a suite. */
module Aggregation {
  import opened Collections
  import opened Ranks
  import opened TraceSnapshot
  import opened LatencyBreakdown
  import opened RolloutGate

  /** Why a merge stops. All but a division by zero are `ValueError`s. */
  datatype MergeError =
    | NoValues
    | BadNumber
    | FlagsDrifted
    | InvalidCaseIds
    | UnsupportedArmOrder
    | InvalidSingleton
    | DivisionByZero

  // ----- evaluations

  predicate IsPassed(c: CaseResult) { c.passed }

  function AddOutcomes(total: map<string, int>, more: map<string, int>): map<string, int> {
    map name | name in total.Keys + more.Keys :: At(total, name) + At(more, name)
  }

  function At(counts: map<string, int>, name: string): int {
    if name in counts then counts[name] else 0
  }

  function MergedOutcomes(reports: seq<EvalReport>): map<string, int> {
    if reports == [] then map[]
    else AddOutcomes(MergedOutcomes(reports[..|reports| - 1]), reports[|reports| - 1].confusion)
  }

  function CasesOf(reports: seq<EvalReport>): seq<CaseResult> {
    Flatten(seq(|reports|, i requires 0 <= i < |reports| => reports[i].cases))
  }

  function RetriesOf(r: EvalReport): Option<int> { Some(r.providerRetries) }

  function TotalCostOf(r: EvalReport): Option<int> { Some(r.totalCost) }

  lemma {:induction false} SumOfRetries(reports: seq<EvalReport>)
    ensures Sum(FilterMap(RetriesOf, reports)) >= 0
  {
    if reports != [] {
      var front, last := reports[..|reports| - 1], reports[|reports| - 1];
      SumOfRetries(front);
      SumLast(FilterMap(RetriesOf, front), last.providerRetries);
    }
  }

  function MergedEvaluation(reports: seq<EvalReport>): Result<EvalReport, MergeError> {
    if reports == [] || exists r :: r in reports && r.flags != reports[0].flags then Err(FlagsDrifted)
    else if exists r :: r in reports && r.totalCost < 0 then Err(BadNumber)
    else
      var cases := CasesOf(reports);
      SumOfRetries(reports);
      Ok(EvalReport(
        |cases|, Count(IsPassed, cases), Count(IsProviderFailure, cases),
        Sum(FilterMap(RetriesOf, reports)), Sum(FilterMap(TotalCostOf, reports)),
        reports[0].flags, MergedOutcomes(reports), cases))
  }

  /** The inner loop over one report's confusion counts. */
  method AddConfusion(before: map<string, int>, more: map<string, int>) returns (confusion: map<string, int>)
    ensures confusion == AddOutcomes(before, more)
  {
    confusion := before;
    var todo := more.Keys;
    while todo != {}
      invariant todo <= more.Keys
      invariant confusion.Keys == before.Keys + (more.Keys - todo)
      invariant forall name :: name in confusion ==>
        confusion[name] == At(before, name) + (if name in todo then 0 else At(more, name))
      decreases todo
    {
      var name :| name in todo;
      confusion := confusion[name := At(confusion, name) + more[name]];
      todo := todo - {name};
    }
  }

  /** `_aggregate_evaluations`. */
  method AggregateEvaluations(reports: seq<EvalReport>) returns (r: Result<EvalReport, MergeError>)
    ensures r == MergedEvaluation(reports)
  {
    if reports == [] || exists r :: r in reports && r.flags != reports[0].flags {
      return Err(FlagsDrifted);
    }
    var confusion: map<string, int> := map[];
    for i := 0 to |reports|
      invariant confusion == MergedOutcomes(reports[..i])
    {
      confusion := AddConfusion(confusion, reports[i].confusion);
      assert reports[..i + 1][..i] == reports[..i];
    }
    assert reports[..|reports|] == reports;
    if exists r :: r in reports && r.totalCost < 0 {
      return Err(BadNumber);
    }
    var cases := CasesOf(reports);
    SumOfRetries(reports);
    r := Ok(EvalReport(
      |cases|, Count(IsPassed, cases), Count(IsProviderFailure, cases),
      Sum(FilterMap(RetriesOf, reports)), Sum(FilterMap(TotalCostOf, reports)),
      reports[0].flags, confusion, cases));
  }

  // ----- traces

  function QueriesOf(s: SystemMetrics): Option<int> { Some(s.queryCount) }

  function SystemCost(s: SystemMetrics): Option<int> { Some(s.estimatedCost) }

  function TailLatency(s: SystemMetrics): Option<int> { s.latencyP95 }

  function ErrorsOf(s: SystemMetrics): Option<int> { Some(s.correctionErrors) }

  predicate Numeric(s: SystemMetrics) {
    s.latencyP95.Some? && s.latencyP95.value >= 0 && s.estimatedCost >= 0
  }

  function CorrectionIdsOf(reports: seq<SystemMetrics>): seq<string> {
    if reports == [] then []
    else CorrectionIdsOf(reports[..|reports| - 1]) + reports[|reports| - 1].correctionIds
  }

  function RepairIdsOf(reports: seq<SystemMetrics>): seq<string> {
    if reports == [] then []
    else RepairIdsOf(reports[..|reports| - 1]) + reports[|reports| - 1].repairIds
  }

  function MaxCorrectionsOf(reports: seq<SystemMetrics>): nat {
    if reports == [] then 0
    else Max(MaxCorrectionsOf(reports[..|reports| - 1]), reports[|reports| - 1].maxCorrections)
  }

  function MaxRepairsOf(reports: seq<SystemMetrics>): nat {
    if reports == [] then 0
    else Max(MaxRepairsOf(reports[..|reports| - 1]), reports[|reports| - 1].maxRepairs)
  }

  /** `sum(retry_rate * query_count)`. */
  function RetryTotal(reports: seq<SystemMetrics>): real {
    if reports == [] then 0.0
    else
      var last := reports[|reports| - 1];
      RetryTotal(reports[..|reports| - 1]) + last.retryRate * last.queryCount as real
  }

  lemma {:induction false} SumOfQueries(reports: seq<SystemMetrics>)
    ensures Sum(FilterMap(QueriesOf, reports)) >= 0
    ensures Sum(FilterMap(ErrorsOf, reports)) >= 0
  {
    if reports != [] {
      var front, last := reports[..|reports| - 1], reports[|reports| - 1];
      SumOfQueries(front);
      SumLast(FilterMap(QueriesOf, front), last.queryCount);
      SumLast(FilterMap(ErrorsOf, front), last.correctionErrors);
    }
  }

  lemma {:induction false} NumericLatencies(reports: seq<SystemMetrics>)
    requires forall s :: s in reports ==> Numeric(s)
    ensures |FilterMap(TailLatency, reports)| == |reports|
  {
    if reports != [] {
      assert reports[|reports| - 1] in reports;
      NumericLatencies(reports[..|reports| - 1]);
    }
  }

  /** `_aggregate_traces`. */
  function AggregateTraces(reports: seq<SystemMetrics>): Result<SystemMetrics, MergeError> {
    SumOfQueries(reports);
    var queries: nat := Sum(FilterMap(QueriesOf, reports));
    if exists s :: s in reports && !Numeric(s) then Err(BadNumber)
    else if reports == [] then Err(NoValues)
    else if queries == 0 then Err(DivisionByZero)
    else
      var latencies := FilterMap(TailLatency, reports);
      NumericLatencies(reports);
      Ok(SystemMetrics(
        queries,
        Some(NearestRank(latencies, P50)),
        Some(NearestRank(latencies, P95)),
        Sum(FilterMap(SystemCost, reports)),
        |CorrectionIdsOf(reports)| as real / queries as real,
        |RepairIdsOf(reports)| as real / queries as real,
        MaxCorrectionsOf(reports),
        MaxRepairsOf(reports),
        CorrectionIdsOf(reports),
        RepairIdsOf(reports),
        Sum(FilterMap(ErrorsOf, reports)),
        RetryTotal(reports) / queries as real))
  }

  // ----- latencies

  datatype LatencyTotals = LatencyTotals(
    queryCount: nat, parseErrors: nat, estimatedCost: int, stageSummary: map<Stage, StageStats>)

  function RowsOf(reports: seq<Breakdown>): seq<TraceRow> {
    if reports == [] then [] else RowsOf(reports[..|reports| - 1]) + reports[|reports| - 1].traces
  }

  function RowTime(s: Stage): TraceRow -> Option<int> {
    (row: TraceRow) => if s in row.stages then Some(row.stages[s]) else None
  }

  function MergedValues(reports: seq<Breakdown>, s: Stage): seq<int> {
    FilterMap(RowTime(s), RowsOf(reports))
  }

  predicate NonNegativeRow(row: TraceRow) {
    forall s :: s in row.stages ==> row.stages[s] >= 0
  }

  /** Statistics of the aggregation, with its own nearest-rank code. */
  function MergedStats(values: seq<int>): StageStats
    requires values != []
  {
    StageStats(|values|, NearestRank(values, P50), NearestRank(values, P95), Largest(values))
  }

  function MergedSummary(reports: seq<Breakdown>): map<Stage, StageStats> {
    map s | s in STAGE_ORDER && MergedValues(reports, s) != [] :: MergedStats(MergedValues(reports, s))
  }

  function TotalQueries(reports: seq<Breakdown>): nat {
    if reports == [] then 0 else TotalQueries(reports[..|reports| - 1]) + reports[|reports| - 1].queryCount
  }

  function TotalParseErrors(reports: seq<Breakdown>): nat {
    if reports == [] then 0 else TotalParseErrors(reports[..|reports| - 1]) + reports[|reports| - 1].parseErrors
  }

  function TotalCost(reports: seq<Breakdown>): int {
    if reports == [] then 0 else TotalCost(reports[..|reports| - 1]) + reports[|reports| - 1].estimatedCost
  }

  function MergedLatency(reports: seq<Breakdown>): Result<LatencyTotals, MergeError> {
    if exists row :: row in RowsOf(reports) && !NonNegativeRow(row) then Err(BadNumber)
    else if exists r :: r in reports && r.estimatedCost < 0 then Err(BadNumber)
    else
      Ok(LatencyTotals(
        TotalQueries(reports), TotalParseErrors(reports), TotalCost(reports), MergedSummary(reports)))
  }

  function ListAt(values: map<Stage, seq<int>>, s: Stage): seq<int> {
    if s in values then values[s] else []
  }

  function TimeIn(row: TraceRow, s: Stage): seq<int> {
    if s in row.stages then [row.stages[s]] else []
  }

  /** Appends the stage times of one trace, stage by stage; stops at a negative one. */
  method GatherRow(before: map<Stage, seq<int>>, row: TraceRow) returns (values: map<Stage, seq<int>>, ok: bool)
    ensures ok == NonNegativeRow(row)
    ensures ok ==> forall s :: ListAt(values, s) == ListAt(before, s) + TimeIn(row, s)
  {
    values, ok := before, true;
    var todo := row.stages.Keys;
    while todo != {}
      invariant todo <= row.stages.Keys
      invariant forall s :: s in row.stages && s !in todo ==> row.stages[s] >= 0
      invariant forall s :: s in todo ==> ListAt(values, s) == ListAt(before, s)
      invariant forall s :: s !in todo ==> ListAt(values, s) == ListAt(before, s) + TimeIn(row, s)
      decreases todo
    {
      var s :| s in todo;
      if row.stages[s] < 0 {
        return values, false;
      }
      values := values[s := ListAt(values, s) + [row.stages[s]]];
      todo := todo - {s};
    }
  }

  ghost predicate Gathers(values: map<Stage, seq<int>>, rows: seq<TraceRow>) {
    forall s :: ListAt(values, s) == FilterMap(RowTime(s), rows)
  }

  lemma GathersLast(before: map<Stage, seq<int>>, values: map<Stage, seq<int>>, rows: seq<TraceRow>, row: TraceRow)
    requires Gathers(before, rows)
    requires forall s :: ListAt(values, s) == ListAt(before, s) + TimeIn(row, s)
    ensures Gathers(values, rows + [row])
  {
    forall s ensures ListAt(values, s) == FilterMap(RowTime(s), rows + [row]) {
      FilterMapLast(RowTime(s), rows, row);
      assert ListAt(before, s) == FilterMap(RowTime(s), rows);
    }
  }

  method GatherRows(rows: seq<TraceRow>) returns (values: map<Stage, seq<int>>, ok: bool)
    ensures ok <==> forall row :: row in rows ==> NonNegativeRow(row)
    ensures ok ==> Gathers(values, rows)
  {
    values, ok := map[], true;
    for i := 0 to |rows|
      invariant forall row :: row in rows[..i] ==> NonNegativeRow(row)
      invariant Gathers(values, rows[..i])
    {
      var before := values;
      values, ok := GatherRow(values, rows[i]);
      if !ok {
        return;
      }
      GathersLast(before, values, rows[..i], rows[i]);
      assert rows[..i + 1] == rows[..i] + [rows[i]];
    }
    assert rows[..|rows|] == rows;
    ok := true;
  }

  lemma GatheredSummary(values: map<Stage, seq<int>>, reports: seq<Breakdown>)
    requires Gathers(values, RowsOf(reports))
    ensures (map s | s in values && values[s] != [] :: MergedStats(values[s])) == MergedSummary(reports)
  {
    forall s ensures s in STAGE_ORDER && ListAt(values, s) == MergedValues(reports, s) {
      EveryStageListed(s);
    }
  }

  /** `_aggregate_latencies`. */
  method AggregateLatencies(reports: seq<Breakdown>) returns (r: Result<LatencyTotals, MergeError>)
    ensures r == MergedLatency(reports)
  {
    var values, ok := GatherRows(RowsOf(reports));
    if !ok || exists r :: r in reports && r.estimatedCost < 0 {
      return Err(BadNumber);
    }
    GatheredSummary(values, reports);
    var summary := map s | s in values && values[s] != [] :: MergedStats(values[s]);
    r := Ok(LatencyTotals(TotalQueries(reports), TotalParseErrors(reports), TotalCost(reports), summary));
  }

  lemma EveryStageListed(s: Stage)
    ensures s in STAGE_ORDER
  {
    match s
    case RetrievalTime => assert STAGE_ORDER[0] == s;
    case ParentContextTime => assert STAGE_ORDER[1] == s;
    case RerankTime => assert STAGE_ORDER[2] == s;
    case GraphTime => assert STAGE_ORDER[3] == s;
    case GenerationTime => assert STAGE_ORDER[4] == s;
    case CorrectionTime => assert STAGE_ORDER[5] == s;
    case ClaimRepairTime => assert STAGE_ORDER[6] == s;
    case TotalTime => assert STAGE_ORDER[7] == s;
  }
}

/** `build_snapshot`: one pass over a trace log that tallies system metrics. */
module TraceSnapshot {
  import opened Collections
  import opened Strings
  import opened Ranks
  import opened TraceEvents

  const MISSING := "<missing>"

  datatype SystemMetrics = SystemMetrics(
    queryCount: nat,
    latencyP50: Option<int>,
    latencyP95: Option<int>,
    estimatedCost: int,
    correctionRate: real,
    repairRate: real,
    maxCorrections: nat,
    maxRepairs: nat,
    correctionIds: seq<string>,
    repairIds: seq<string>,
    correctionErrors: nat,
    retryRate: real)

  datatype Snapshot = Snapshot(
    parseErrors: nat,
    errorEvents: nat,
    fallbackEvents: nat,
    retryEvents: nat,
    observed: bool,
    system: SystemMetrics)

  // ----- what one event contributes

  function KeyOf(e: Event): string {
    if e.traceId == "" then MISSING else e.traceId
  }

  predicate IsError(e: Event) {
    e.hasError || e.hasErrorType || e.hasErrorStatus
  }

  function FieldText(v: FieldValue): string {
    match v case JsonTrue => "True" case JsonText(t) => t
  }

  const NON_FALLBACK_COMMUNITY_REASONS := {
    "approved_summary_used", "community_summaries_disabled",
    "graph_retrieval_disabled", "query_not_global"
  }

  predicate HasFallback(e: Event) {
    || (e.name.Other? && EndsWith(e.name.text, "_fallback"))
    || (e.fallbackFields != map[] &&
        !(e.name.CommunitySummaries? &&
          forall k :: k in e.fallbackFields ==>
            Fold(FieldText(e.fallbackFields[k])) in NON_FALLBACK_COMMUNITY_REASONS))
  }

  predicate IsRetry(e: Event) {
    e.name.LlmRetry? || (e.name.Other? && EndsWith(e.name.text, "_retry")) || e.retryAttempted
  }

  predicate IsQueryEnd(e: Event) { e.name.RagEnd? }

  predicate IsStampedEnd(e: Event) { e.name.RagEnd? && e.ts.Some? }

  predicate IsLlmRetry(e: Event) { e.name.LlmRetry? }

  function EndLatency(e: Event): Option<int> {
    if e.name.RagEnd? then e.finalLatency else None
  }

  function CostOf(e: Event): int {
    if e.isRollup then (if e.exclusiveCost.Some? then e.exclusiveCost.value else 0)
    else if e.estimatedCost.Some? then e.estimatedCost.value
    else 0
  }

  function CostEntry(e: Event): Option<int> { Some(CostOf(e)) }

  predicate IsCorrection(e: Event) { e.name.CorrectiveRetrieval? && e.hasAttempt }

  predicate IsCorrectionError(e: Event) { IsCorrection(e) && e.hasError }

  function CorrectionKey(e: Event): Option<string> {
    if IsCorrection(e) then Some(KeyOf(e)) else None
  }

  function SuccessKey(e: Event): Option<string> {
    if IsCorrection(e) && !e.hasError then Some(KeyOf(e)) else None
  }

  function RepairKey(e: Event): Option<string> {
    if e.name.ClaimRepair? && e.hasAttempted then Some(KeyOf(e)) else None
  }

  // ----- what a log amounts to

  function Corrections(es: seq<Event>): seq<string> { FilterMap(CorrectionKey, es) }

  function Successes(es: seq<Event>): seq<string> { FilterMap(SuccessKey, es) }

  function Repairs(es: seq<Event>): seq<string> { FilterMap(RepairKey, es) }

  function Latencies(es: seq<Event>): seq<int> { FilterMap(EndLatency, es) }

  function Cost(es: seq<Event>): int { Sum(FilterMap(CostEntry, es)) }

  function PerQuery(total: nat, queries: nat): real {
    if queries == 0 then 0.0 else total as real / queries as real
  }

  ghost function SystemOf(es: seq<Event>): SystemMetrics {
    var queries := Count(IsQueryEnd, es);
    SystemMetrics(
      queries,
      MetricRank(Latencies(es), P50),
      MetricRank(Latencies(es), P95),
      Cost(es),
      PerQuery(|Corrections(es)|, queries),
      PerQuery(|Repairs(es)|, queries),
      MaxCount(multiset(Corrections(es))),
      MaxCount(multiset(Repairs(es))),
      SortIds(Elements(Successes(es))),
      SortIds(Elements(Repairs(es))),
      Count(IsCorrectionError, es),
      PerQuery(Count(IsLlmRetry, es), queries))
  }

  ghost function SnapshotOf(lines: seq<Line>, f: Filter): Snapshot {
    var es := Selected(lines, f);
    Snapshot(
      Count(IsMalformed, lines),
      Count(IsError, es),
      Count(HasFallback, es),
      Count(IsRetry, es),
      Count(IsStampedEnd, es) > 0,
      SystemOf(es))
  }

  /** `max(counter.values(), default=0)`. */
  method LargestCount(counter: multiset<string>) returns (r: nat)
    ensures r == MaxCount(counter)
  {
    r := 0;
    MaxCountIsLeastBound(counter);
    var todo := set k | k in counter;
    while todo != {}
      invariant todo <= set k | k in counter
      invariant forall k :: k in counter ==> k in todo || counter[k] <= r
      invariant r == 0 || exists k :: k in counter && counter[k] == r
      decreases todo
    {
      var k :| k in todo;
      if r < counter[k] { r := counter[k]; }
      todo := todo - {k};
    }
  }

  // ----- the counters `build_snapshot` keeps while it reads a log

  datatype Outcomes = Outcomes(errors: nat, fallbacks: nat, retries: nat, cost: int)

  datatype Queries = Queries(count: nat, stamped: bool, latencies: seq<int>)

  datatype CorrectionTally = CorrectionTally(
    attempts: nat, byTrace: multiset<string>, successes: multiset<string>, errors: nat)

  datatype RepairTally = RepairTally(attempts: nat, byTrace: multiset<string>, llmRetries: nat)

  datatype Tally = Tally(
    parseErrors: nat, outcomes: Outcomes, queries: Queries, corrections: CorrectionTally, repairs: RepairTally)

  const EMPTY_TALLY := Tally(
    0, Outcomes(0, 0, 0, 0), Queries(0, false, []),
    CorrectionTally(0, multiset{}, multiset{}, 0), RepairTally(0, multiset{}, 0))

  ghost predicate TalliesOutcomes(t: Outcomes, es: seq<Event>) {
    && t.errors == Count(IsError, es)
    && t.fallbacks == Count(HasFallback, es)
    && t.retries == Count(IsRetry, es)
    && t.cost == Cost(es)
  }

  ghost predicate TalliesQueries(t: Queries, es: seq<Event>) {
    && t.count == Count(IsQueryEnd, es)
    && t.stamped == (Count(IsStampedEnd, es) > 0)
    && t.latencies == Latencies(es)
  }

  ghost predicate TalliesCorrections(t: CorrectionTally, es: seq<Event>) {
    && t.attempts == |Corrections(es)|
    && t.byTrace == multiset(Corrections(es))
    && t.successes == multiset(Successes(es))
    && t.errors == Count(IsCorrectionError, es)
  }

  ghost predicate TalliesRepairs(t: RepairTally, es: seq<Event>) {
    && t.attempts == |Repairs(es)|
    && t.byTrace == multiset(Repairs(es))
    && t.llmRetries == Count(IsLlmRetry, es)
  }

  ghost predicate Tallies(t: Tally, lines: seq<Line>, f: Filter) {
    var es := Selected(lines, f);
    && t.parseErrors == Count(IsMalformed, lines)
    && TalliesOutcomes(t.outcomes, es)
    && TalliesQueries(t.queries, es)
    && TalliesCorrections(t.corrections, es)
    && TalliesRepairs(t.repairs, es)
  }

  method ReadOutcome(before: Outcomes, e: Event, ghost es: seq<Event>) returns (t: Outcomes)
    requires TalliesOutcomes(before, es)
    ensures TalliesOutcomes(t, es + [e])
  {
    CountLast(IsError, es, e);
    CountLast(HasFallback, es, e);
    CountLast(IsRetry, es, e);
    FilterMapLast(CostEntry, es, e);
    SumLast(FilterMap(CostEntry, es), CostOf(e));
    var cost := before.cost;
    if e.isRollup {
      cost := cost + if e.exclusiveCost.Some? then e.exclusiveCost.value else 0;
    } else if e.estimatedCost.Some? {
      cost := cost + e.estimatedCost.value;
    }
    t := Outcomes(
      before.errors + if IsError(e) then 1 else 0,
      before.fallbacks + if HasFallback(e) then 1 else 0,
      before.retries + if IsRetry(e) then 1 else 0,
      cost);
  }

  method ReadQueryEnd(before: Queries, e: Event, ghost es: seq<Event>) returns (t: Queries)
    requires TalliesQueries(before, es)
    ensures TalliesQueries(t, es + [e])
  {
    t := before;
    CountLast(IsStampedEnd, es, e);
    CountLast(IsQueryEnd, es, e);
    FilterMapLast(EndLatency, es, e);
    if e.name.RagEnd? {
      t := t.(count := t.count + 1, stamped := t.stamped || e.ts.Some?);
      if e.finalLatency.Some? {
        t := t.(latencies := t.latencies + [e.finalLatency.value]);
      }
    }
  }

  method ReadCorrection(before: CorrectionTally, e: Event, ghost es: seq<Event>) returns (t: CorrectionTally)
    requires TalliesCorrections(before, es)
    ensures TalliesCorrections(t, es + [e])
  {
    hide FilterMap, Count;
    t := before;
    FilterMapLast(CorrectionKey, es, e);
    FilterMapLast(SuccessKey, es, e);
    CountLast(IsCorrectionError, es, e);
    if e.name.CorrectiveRetrieval? && e.hasAttempt {
      var key := KeyOf(e);
      t := t.(attempts := t.attempts + 1, byTrace := t.byTrace + multiset{key});
      if e.hasError {
        t := t.(errors := t.errors + 1);
      } else {
        t := t.(successes := t.successes + multiset{key});
      }
    }
  }

  method ReadRepair(before: RepairTally, e: Event, ghost es: seq<Event>) returns (t: RepairTally)
    requires TalliesRepairs(before, es)
    ensures TalliesRepairs(t, es + [e])
  {
    hide FilterMap, Count;
    t := before;
    FilterMapLast(RepairKey, es, e);
    CountLast(IsLlmRetry, es, e);
    if e.name.ClaimRepair? && e.hasAttempted {
      t := t.(attempts := t.attempts + 1, byTrace := t.byTrace + multiset{KeyOf(e)});
    }
    if e.name.LlmRetry? {
      t := t.(llmRetries := t.llmRetries + 1);
    }
  }

  /** One iteration of the source's loop. */
  method ReadLine(before: Tally, line: Line, f: Filter, ghost lines: seq<Line>) returns (t: Tally)
    requires Tallies(before, lines, f)
    ensures Tallies(t, lines + [line], f)
  {
    t := before;
    ghost var es := Selected(lines, f);
    CountLast(IsMalformed, lines, line);
    FilterMapLast(Select(f), lines, line);
    assert es + [] == es;
    if line.Malformed? {
      t := t.(parseErrors := t.parseErrors + 1);
    } else if InWindow(line.event, f) {
      var outcomes := ReadOutcome(t.outcomes, line.event, es);
      var corrections := ReadCorrection(t.corrections, line.event, es);
      var repairs := ReadRepair(t.repairs, line.event, es);
      var queries := ReadQueryEnd(t.queries, line.event, es);
      t := Tally(t.parseErrors, outcomes, queries, corrections, repairs);
    }
  }

  /** The report built from the final counters. */
  method Summarise(t: Tally, ghost lines: seq<Line>, f: Filter) returns (r: Snapshot)
    requires Tallies(t, lines, f)
    ensures r == SnapshotOf(lines, f)
  {
    ghost var es := Selected(lines, f);
    var maxCorrections := LargestCount(t.corrections.byTrace);
    var maxRepairs := LargestCount(t.repairs.byTrace);
    var successIds := set k | k in t.corrections.successes;
    var repairIds := set k | k in t.repairs.byTrace;
    assert successIds == Elements(Successes(es));
    assert repairIds == Elements(Repairs(es));
    var n := t.queries.count;
    var system := SystemMetrics(
      n, MetricRank(t.queries.latencies, P50), MetricRank(t.queries.latencies, P95), t.outcomes.cost,
      PerQuery(t.corrections.attempts, n), PerQuery(t.repairs.attempts, n),
      maxCorrections, maxRepairs, SortIds(successIds), SortIds(repairIds),
      t.corrections.errors, PerQuery(t.repairs.llmRetries, n));
    assert system == SystemOf(es);
    r := Snapshot(
      t.parseErrors, t.outcomes.errors, t.outcomes.fallbacks, t.outcomes.retries, t.queries.stamped, system);
  }

  lemma EmptyTallies(f: Filter)
    ensures Tallies(EMPTY_TALLY, [], f)
  {
    assert Selected([], f) == [];
  }

  method BuildSnapshot(lines: seq<Line>, f: Filter) returns (r: Snapshot)
    ensures r == SnapshotOf(lines, f)
  {
    var t := EMPTY_TALLY;
    EmptyTallies(f);
    for i := 0 to |lines|
      invariant Tallies(t, lines[..i], f)
    {
      assert lines[..i] + [lines[i]] == lines[..i + 1];
      t := ReadLine(t, lines[i], f, lines[..i]);
    }
    assert lines[..|lines|] == lines;
    r := Summarise(t, lines, f);
  }
}

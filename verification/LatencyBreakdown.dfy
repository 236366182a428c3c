/** `build_latency_breakdown`: per-trace stage latencies of one log, keyed by a
    hashed trace identity. */
module LatencyBreakdown {
  import opened Collections
  import opened Strings
  import opened Ranks
  import opened TraceEvents

  datatype Stage =
    | RetrievalTime
    | ParentContextTime
    | RerankTime
    | GraphTime
    | GenerationTime
    | CorrectionTime
    | ClaimRepairTime
    | TotalTime

  const STAGE_ORDER: seq<Stage> := [
    RetrievalTime, ParentContextTime, RerankTime, GraphTime,
    GenerationTime, CorrectionTime, ClaimRepairTime, TotalTime
  ]

  function StageOf(name: EventName): Option<Stage> {
    match name
    case Retrieval => Some(RetrievalTime)
    case ParentContext => Some(ParentContextTime)
    case Rerank => Some(RerankTime)
    case GraphRetrieval => Some(GraphTime)
    case LlmGeneration => Some(GenerationTime)
    case GroundedMathGeneration => Some(GenerationTime)
    case DeterministicGeneration => Some(GenerationTime)
    case CorrectiveRetrieval => Some(CorrectionTime)
    case ClaimRepair => Some(ClaimRepairTime)
    case _ => None
  }

  /** SHA-256, taken to be injective. */
  datatype Digest = Sha256(text: string)

  type Times = map<Stage, int>

  datatype TraceRow = TraceRow(id: Digest, stages: Times, cost: int)

  datatype StageStats = StageStats(samples: nat, p50: int, p95: int, max: int)

  datatype Breakdown = Breakdown(
    queryCount: nat,
    parseErrors: nat,
    estimatedCost: int,
    stageSummary: map<Stage, StageStats>,
    traces: seq<TraceRow>)

  // ----- what one event contributes

  function TraceOf(e: Event): string { Strip(e.traceId) }

  /** The trace an event belongs to, if it names one. */
  function TraceKey(e: Event): Option<string> {
    if TraceOf(e) == "" then None else Some(TraceOf(e))
  }

  predicate BadCost(e: Event) {
    TraceOf(e) != "" && e.estimatedCost.Some? && e.estimatedCost.value < 0
  }

  predicate Usable(e: Event) {
    TraceOf(e) != "" && !BadCost(e)
  }

  function Clamp(v: Option<int>): Option<int> {
    if v.None? then None else Some(Max(0, v.value))
  }

  predicate Completes(e: Event) {
    Usable(e) && e.name.RagEnd? && e.finalLatency.Some?
  }

  function CompletedKey(e: Event): Option<string> {
    if Completes(e) then Some(TraceOf(e)) else None
  }

  function AddTime(times: Times, s: Stage, v: int): Times {
    times[s := (if s in times then times[s] else 0) + v]
  }

  function Step(times: Times, e: Event): Times {
    if e.name.RagEnd? then
      if e.finalLatency.Some? then times[TotalTime := Clamp(e.finalLatency).value] else times
    else if StageOf(e.name).Some? && e.latency.Some? then
      AddTime(times, StageOf(e.name).value, Clamp(e.latency).value)
    else times
  }

  // ----- what a log amounts to, trace by trace

  function TimesOf(es: seq<Event>, t: string): Times {
    if es == [] then map[]
    else
      var e := es[|es| - 1];
      var before := TimesOf(es[..|es| - 1], t);
      if Usable(e) && TraceOf(e) == t then Step(before, e) else before
  }

  function CostOf(es: seq<Event>, t: string): int {
    if es == [] then 0
    else
      var e := es[|es| - 1];
      CostOf(es[..|es| - 1], t) +
      if Usable(e) && TraceOf(e) == t && e.estimatedCost.Some? then e.estimatedCost.value else 0
  }

  function Completed(es: seq<Event>): set<string> {
    Elements(FilterMap(CompletedKey, es))
  }

  function CompletedIds(es: seq<Event>): seq<string> { SortIds(Completed(es)) }

  function TimeAt(es: seq<Event>, s: Stage): string -> Option<int> {
    (t: string) => if s in TimesOf(es, t) then Some(TimesOf(es, t)[s]) else None
  }

  function CostAt(es: seq<Event>): string -> Option<int> {
    (t: string) => Some(CostOf(es, t))
  }

  function RowAt(es: seq<Event>): string -> Option<TraceRow> {
    (t: string) => Some(TraceRow(Sha256(t), TimesOf(es, t), CostOf(es, t)))
  }

  function StageValues(es: seq<Event>, s: Stage): seq<int> {
    FilterMap(TimeAt(es, s), CompletedIds(es))
  }

  function Stats(values: seq<int>): StageStats
    requires values != []
  {
    StageStats(|values|, BreakdownRank(values, P50).value, BreakdownRank(values, P95).value, Largest(values))
  }

  function Summary(es: seq<Event>): map<Stage, StageStats> {
    map s | s in STAGE_ORDER && StageValues(es, s) != [] :: Stats(StageValues(es, s))
  }

  function BreakdownOf(lines: seq<Line>, f: Filter): Breakdown {
    var es := Selected(lines, f);
    Breakdown(
      |CompletedIds(es)|,
      Count(IsMalformed, lines) + Count(BadCost, es),
      Sum(FilterMap(CostAt(es), CompletedIds(es))),
      Summary(es),
      FilterMap(RowAt(es), CompletedIds(es)))
  }

  // ----- the source's loops

  function TimesIn(stages: map<string, Times>, t: string): Times {
    if t in stages then stages[t] else map[]
  }

  function CostIn(costs: map<string, int>, t: string): int {
    if t in costs then costs[t] else 0
  }

  datatype Reading = Reading(
    stages: map<string, Times>, costs: map<string, int>, completed: set<string>, badCosts: nat)

  ghost predicate ReadsTimes(stages: map<string, Times>, es: seq<Event>) {
    forall t :: TimesIn(stages, t) == TimesOf(es, t)
  }

  ghost predicate ReadsCosts(costs: map<string, int>, es: seq<Event>) {
    forall t :: CostIn(costs, t) == CostOf(es, t)
  }

  ghost predicate Reads(r: Reading, es: seq<Event>) {
    ReadsTimes(r.stages, es) && ReadsCosts(r.costs, es) && r.completed == Completed(es) &&
    r.badCosts == Count(BadCost, es)
  }

  function TimesAfter(before: Times, e: Event, t: string): Times {
    if Usable(e) && TraceOf(e) == t then Step(before, e) else before
  }

  function CostAfter(before: int, e: Event, t: string): int {
    if Usable(e) && TraceOf(e) == t && e.estimatedCost.Some? then before + e.estimatedCost.value else before
  }

  lemma ReadsLast(before: Reading, r: Reading, es: seq<Event>, e: Event)
    requires Reads(before, es)
    requires forall t :: TimesIn(r.stages, t) == TimesAfter(TimesIn(before.stages, t), e, t)
    requires forall t :: CostIn(r.costs, t) == CostAfter(CostIn(before.costs, t), e, t)
    requires r.completed == before.completed + if Completes(e) then {TraceOf(e)} else {}
    requires r.badCosts == before.badCosts + if BadCost(e) then 1 else 0
    ensures Reads(r, es + [e])
  {
    assert (es + [e])[..|es|] == es;
    forall t ensures TimesIn(r.stages, t) == TimesOf(es + [e], t) {
      assert TimesIn(before.stages, t) == TimesOf(es, t);
    }
    forall t ensures CostIn(r.costs, t) == CostOf(es + [e], t) {
      assert CostIn(before.costs, t) == CostOf(es, t);
    }
    CountLast(BadCost, es, e);
    FilterMapLast(CompletedKey, es, e);
  }

  /** The first half of the loop body: the cost, and whether the event is usable. */
  method ReadCost(before: Reading, e: Event) returns (r: Reading, usable: bool)
    ensures usable == Usable(e)
    ensures r.stages == before.stages && r.completed == before.completed
    ensures forall t :: CostIn(r.costs, t) == CostAfter(CostIn(before.costs, t), e, t)
    ensures r.badCosts == before.badCosts + if BadCost(e) then 1 else 0
  {
    r, usable := before, false;
    var t := Strip(e.traceId);
    if t == "" {
      return;
    }
    if e.estimatedCost.Some? {
      if e.estimatedCost.value < 0 {
        r := r.(badCosts := r.badCosts + 1);
        return;
      }
      r := r.(costs := r.costs[t := CostIn(r.costs, t) + e.estimatedCost.value]);
    }
    usable := true;
  }

  /** The second half: the total of a finished query, or the time of a stage. */
  method ReadTimes(before: Reading, e: Event) returns (r: Reading)
    requires Usable(e)
    ensures r.costs == before.costs && r.badCosts == before.badCosts
    ensures forall t :: TimesIn(r.stages, t) == TimesAfter(TimesIn(before.stages, t), e, t)
    ensures r.completed == before.completed + if Completes(e) then {TraceOf(e)} else {}
  {
    r := before;
    var t := TraceOf(e);
    if e.name.RagEnd? {
      if e.finalLatency.Some? {
        r := r.(stages := r.stages[t := TimesIn(r.stages, t)[TotalTime := Max(0, e.finalLatency.value)]],
                completed := r.completed + {t});
      }
      return;
    }
    var stage := StageOf(e.name);
    if stage.Some? && e.latency.Some? {
      r := r.(stages := r.stages[t := AddTime(TimesIn(r.stages, t), stage.value, Max(0, e.latency.value))]);
    }
  }

  method ReadEvent(before: Reading, e: Event, ghost es: seq<Event>) returns (r: Reading)
    requires Reads(before, es)
    ensures Reads(r, es + [e])
  {
    var usable;
    r, usable := ReadCost(before, e);
    if usable {
      r := ReadTimes(r, e);
    }
    ReadsLast(before, r, es, e);
  }

  method ReadLog(lines: seq<Line>, f: Filter) returns (r: Reading, malformed: nat)
    ensures Reads(r, Selected(lines, f))
    ensures malformed == Count(IsMalformed, lines)
  {
    r, malformed := Reading(map[], map[], {}, 0), 0;
    ghost var es: seq<Event> := [];
    for i := 0 to |lines|
      invariant es == Selected(lines[..i], f) && Reads(r, es)
      invariant malformed == Count(IsMalformed, lines[..i])
    {
      var line := lines[i];
      assert lines[..i + 1] == lines[..i] + [line];
      CountLast(IsMalformed, lines[..i], line);
      FilterMapLast(Select(f), lines[..i], line);
      if line.Malformed? {
        malformed := malformed + 1;
      } else if InWindow(line.event, f) {
        r := ReadEvent(r, line.event, es);
        es := es + [line.event];
      }
    }
    assert lines[..|lines|] == lines;
  }

  type StageLists = map<Stage, seq<int>>

  ghost predicate Collects(values: StageLists, es: seq<Event>, ids: seq<string>) {
    forall s :: s in STAGE_ORDER ==> s in values && values[s] == FilterMap(TimeAt(es, s), ids)
  }

  /** `stage_values[stage].append(latency)` for every stage of one trace. */
  method AppendTimes(before: StageLists, times: Times, ghost es: seq<Event>, ghost ids: seq<string>, ghost t: string)
    returns (values: StageLists)
    requires Collects(before, es, ids) && times == TimesOf(es, t)
    ensures Collects(values, es, ids + [t])
  {
    values := map s | s in STAGE_ORDER :: before[s] + if s in times then [times[s]] else [];
    forall s | s in STAGE_ORDER ensures values[s] == FilterMap(TimeAt(es, s), ids + [t]) {
      FilterMapLast(TimeAt(es, s), ids, t);
    }
  }

  /** Second loop: one row per completed trace, in identifier order. */
  method CollectRows(read: Reading, ghost es: seq<Event>)
    returns (rows: seq<TraceRow>, values: StageLists, cost: int)
    requires Reads(read, es)
    ensures rows == FilterMap(RowAt(es), CompletedIds(es))
    ensures Collects(values, es, CompletedIds(es))
    ensures cost == Sum(FilterMap(CostAt(es), CompletedIds(es)))
  {
    rows, cost := [], 0;
    values := map s | s in STAGE_ORDER :: [];
    var ids := SortIds(read.completed);
    for i := 0 to |ids|
      invariant rows == FilterMap(RowAt(es), ids[..i])
      invariant cost == Sum(FilterMap(CostAt(es), ids[..i]))
      invariant Collects(values, es, ids[..i])
    {
      var t := ids[i];
      var times, spent := TimesIn(read.stages, t), CostIn(read.costs, t);
      assert times == TimesOf(es, t) && spent == CostOf(es, t);
      values := AppendTimes(values, times, es, ids[..i], t);
      FilterMapLast(RowAt(es), ids[..i], t);
      FilterMapLast(CostAt(es), ids[..i], t);
      SumLast(FilterMap(CostAt(es), ids[..i]), spent);
      rows, cost := rows + [TraceRow(Sha256(t), times, spent)], cost + spent;
      assert ids[..i + 1] == ids[..i] + [t];
    }
    assert ids[..|ids|] == ids;
  }

  /** Third loop: the statistics of every stage that has values. */
  method Summarise(values: StageLists, ghost es: seq<Event>) returns (summary: map<Stage, StageStats>)
    requires Collects(values, es, CompletedIds(es))
    ensures summary == Summary(es)
  {
    hide Stats, FilterMap;
    summary := map[];
    for i := 0 to |STAGE_ORDER|
      invariant forall s :: s in summary <==> s in STAGE_ORDER[..i] && StageValues(es, s) != []
      invariant forall s :: s in summary ==> summary[s] == Stats(StageValues(es, s))
    {
      var s := STAGE_ORDER[i];
      assert STAGE_ORDER[..i + 1] == STAGE_ORDER[..i] + [s];
      if values[s] != [] {
        summary := summary[s := Stats(values[s])];
      }
    }
    assert STAGE_ORDER[..|STAGE_ORDER|] == STAGE_ORDER;
  }

  method BuildBreakdown(lines: seq<Line>, f: Filter) returns (r: Breakdown)
    ensures r == BreakdownOf(lines, f)
  {
    var read, malformed := ReadLog(lines, f);
    ghost var es := Selected(lines, f);
    var rows, values, cost := CollectRows(read, es);
    var summary := Summarise(values, es);
    FilterMapTotal(RowAt(es), CompletedIds(es));
    r := Breakdown(|rows|, malformed + read.badCosts, cost, summary, rows);
  }
}

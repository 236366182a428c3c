/** What a latency breakdown says about the traces of a log, in terms of the fields
    of the events it reads. */
module LatencyMeaning {
  import opened Collections
  import opened Strings
  import opened Ranks
  import opened TraceEvents
  import opened LatencyBreakdown

  // ----- which events count for a trace

  /** An event of trace `t` whose cost, if it states one, is not negative. */
  predicate CountsFor(e: Event, t: string) {
    Strip(e.traceId) == t && t != "" && (e.estimatedCost.Some? ==> e.estimatedCost.value >= 0)
  }

  predicate NegativeCost(e: Event) { Strip(e.traceId) != "" && e.estimatedCost.Some? && e.estimatedCost.value < 0 }

  /** The events that a stage is timed by. */
  function TimedBy(s: Stage): seq<EventName> {
    match s
    case RetrievalTime => [Retrieval]
    case ParentContextTime => [ParentContext]
    case RerankTime => [Rerank]
    case GraphTime => [GraphRetrieval]
    case GenerationTime => [LlmGeneration, GroundedMathGeneration, DeterministicGeneration]
    case CorrectionTime => [CorrectiveRetrieval]
    case ClaimRepairTime => [ClaimRepair]
    case TotalTime => []
  }

  /** A latency below zero counts as zero. */
  function Clamped(v: int): int { if v < 0 then 0 else v }

  function Finish(t: string): Event -> Option<int> {
    (e: Event) =>
      if CountsFor(e, t) && e.name == RagEnd && e.finalLatency.Some? then Some(Clamped(e.finalLatency.value)) else None
  }

  function Share(t: string, s: Stage): Event -> Option<int> {
    (e: Event) =>
      if CountsFor(e, t) && e.name in TimedBy(s) && e.latency.Some? then Some(Clamped(e.latency.value)) else None
  }

  function Spent(t: string): Event -> Option<int> {
    (e: Event) => if CountsFor(e, t) && e.estimatedCost.Some? then Some(e.estimatedCost.value) else None
  }

  // ----- one trace

  /** The total of a trace is its last final latency. */
  ghost predicate TotalMeans(times: map<Stage, int>, es: seq<Event>, t: string) {
    var totals := FilterMap(Finish(t), es);
    (TotalTime in times <==> totals != []) && (totals != [] ==> times[TotalTime] == totals[|totals| - 1])
  }

  /** The time of a stage is the sum of the latencies that it is timed by. */
  ghost predicate StageMeasured(times: map<Stage, int>, es: seq<Event>, t: string, s: Stage) {
    var shares := FilterMap(Share(t, s), es);
    (s in times <==> shares != []) && (shares != [] ==> times[s] == Sum(shares))
  }

  /** A trace has a total and the time of a stage exactly if some event states it. */
  ghost predicate TimesMean(times: map<Stage, int>, es: seq<Event>, t: string) {
    TotalMeans(times, es, t) && forall s :: s != TotalTime ==> StageMeasured(times, es, t, s)
  }

  lemma StageNamed(e: Event, s: Stage)
    ensures s != TotalTime ==> (StageOf(e.name) == Some(s) <==> e.name in TimedBy(s))
    ensures e.name.RagEnd? ==> e.name !in TimedBy(s)
    ensures StageOf(e.name) != Some(TotalTime)
  {
  }

  lemma TimesStep(es: seq<Event>, e: Event, t: string)
    ensures TimesOf(es + [e], t) == if Usable(e) && TraceOf(e) == t then Step(TimesOf(es, t), e) else TimesOf(es, t)
    ensures CostOf(es + [e], t) ==
            CostOf(es, t) + if Usable(e) && TraceOf(e) == t && e.estimatedCost.Some? then e.estimatedCost.value else 0
  {
    assert (es + [e])[..|es|] == es;
  }

  lemma UsableExactly(e: Event, t: string)
    requires t != ""
    ensures Usable(e) && TraceOf(e) == t <==> CountsFor(e, t)
  {
  }

  lemma {:induction false} TimesExactly(es: seq<Event>, t: string)
    requires t != ""
    ensures TimesMean(TimesOf(es, t), es, t)
  {
    hide TotalMeans, StageMeasured;
    if es == [] {
      NoTimes(t);
    } else {
      var front, e := es[..|es| - 1], es[|es| - 1];
      assert es == front + [e];
      TimesExactly(front, t);
      TotalTimed(front, e, t);
      forall s | s != TotalTime ensures StageMeasured(TimesOf(es, t), es, t, s) {
        StageTimed(front, e, t, s);
      }
    }
  }

  lemma NoTimes(t: string)
    ensures TimesMean(TimesOf([], t), [], t)
  {
    hide FilterMap;
    FilterMapEmpty(Finish(t));
    forall s ensures FilterMap(Share(t, s), []) == [] {
      FilterMapEmpty(Share(t, s));
    }
  }

  lemma TotalTimed(front: seq<Event>, e: Event, t: string)
    requires t != "" && TotalMeans(TimesOf(front, t), front, t)
    ensures TotalMeans(TimesOf(front + [e], t), front + [e], t)
  {
    hide FilterMap, Strip, CountsFor, Usable, TimesOf;
    TimesStep(front, e, t);
    UsableExactly(e, t);
    StageNamed(e, TotalTime);
    FilterMapLast(Finish(t), front, e);
    var totals := FilterMap(Finish(t), front);
    assert totals + [] == totals;
  }

  lemma StageTimed(front: seq<Event>, e: Event, t: string, s: Stage)
    requires t != "" && s != TotalTime && StageMeasured(TimesOf(front, t), front, t, s)
    ensures StageMeasured(TimesOf(front + [e], t), front + [e], t, s)
  {
    hide FilterMap, Sum, Strip, CountsFor, Usable, TimesOf, Step, TimedBy;
    TimesStep(front, e, t);
    UsableExactly(e, t);
    StageStep(TimesOf(front, t), e, s);
    FilterMapLast(Share(t, s), front, e);
    var shares := FilterMap(Share(t, s), front);
    assert shares + [] == shares;
    if Share(t, s)(e).Some? {
      SumLast(shares, Share(t, s)(e).value);
      NoSum();
    }
  }

  lemma StageStep(times: map<Stage, int>, e: Event, s: Stage)
    requires s != TotalTime
    ensures var after, timed := Step(times, e), e.name in TimedBy(s) && e.latency.Some?;
            && (s in after <==> s in times || timed)
            && (s in after ==>
                  after[s] == (if s in times then times[s] else 0) + if timed then Clamped(e.latency.value) else 0)
  {
    StageNamed(e, s);
  }

  lemma NoSum()
    ensures Sum([]) == 0
  {
  }

  lemma {:induction false} CostExactly(es: seq<Event>, t: string)
    requires t != ""
    ensures CostOf(es, t) == Sum(FilterMap(Spent(t), es))
  {
    hide FilterMap, Sum, Strip, CountsFor, Usable;
    NoSum();
    if es == [] {
      FilterMapEmpty(Spent(t));
    } else {
      var front, e := es[..|es| - 1], es[|es| - 1];
      assert es == front + [e];
      CostExactly(front, t);
      TimesStep(front, e, t);
      UsableExactly(e, t);
      FilterMapLast(Spent(t), front, e);
      var before := FilterMap(Spent(t), front);
      assert before + [] == before;
      if Spent(t)(e).Some? {
        SumLast(before, e.estimatedCost.value);
      }
    }
  }

  // ----- the traces of a breakdown

  /** The row of a trace: its times and what it spent. */
  ghost predicate RowMeans(row: TraceRow, es: seq<Event>, t: string) {
    row.id == Sha256(t) && row.cost == Sum(FilterMap(Spent(t), es)) && TimesMean(row.stages, es, t)
  }

  /** A trace finished: some event states its final latency. */
  predicate Finished(es: seq<Event>, t: string) { exists e :: e in es && Finish(t)(e).Some? }

  predicate Unreadable(line: Line) { line == Malformed }

  /** One row for each finished trace, in the order of their identifiers; the totals
      are those of the rows, and parse errors are unreadable lines and events with
      a negative cost. */
  ghost predicate BreakdownMeans(b: Breakdown, lines: seq<Line>, es: seq<Event>, ids: seq<string>) {
    && (forall t :: t in ids <==> Finished(es, t))
    && Distinct(ids) && (forall i, j :: 0 <= i < j < |ids| ==> LexLeq(ids[i], ids[j]))
    && |b.traces| == |ids| == b.queryCount
    && (forall k :: 0 <= k < |ids| ==> RowMeans(b.traces[k], es, ids[k]))
    && b.estimatedCost == Sum(FilterMap(RowCost, b.traces))
    && b.parseErrors == Count(Unreadable, lines) + Count(NegativeCost, es)
  }

  function RowCost(row: TraceRow): Option<int> { Some(row.cost) }

  lemma FinishedExactly(es: seq<Event>, t: string)
    ensures t in CompletedIds(es) <==> Finished(es, t)
  {
    hide FilterMap, SortIds, Strip;
    SortIdsSorts(Completed(es));
    assert t in CompletedIds(es) <==> t in Elements(CompletedIds(es));
    FilterMapMember(CompletedKey, es, t);
    forall e ensures CompletedKey(e) == Some(t) <==> Finish(t)(e).Some? {
      if t != "" {
        UsableExactly(e, t);
      }
    }
  }

  lemma {:induction false} RowCosts(es: seq<Event>, ids: seq<string>)
    ensures FilterMap(RowCost, FilterMap(RowAt(es), ids)) == FilterMap(CostAt(es), ids)
  {
    hide TimesOf, CostOf;
    if ids != [] {
      var front, t := ids[..|ids| - 1], ids[|ids| - 1];
      RowCosts(es, front);
      FilterMapLast(RowAt(es), front, t);
      FilterMapLast(RowCost, FilterMap(RowAt(es), front), RowAt(es)(t).value);
      FilterMapLast(CostAt(es), front, t);
      assert ids == front + [t];
    }
  }

  lemma BreakdownRows(lines: seq<Line>, f: Filter)
    ensures BreakdownMeans(BreakdownOf(lines, f), lines, Selected(lines, f), CompletedIds(Selected(lines, f)))
  {
    hide FilterMap, Sum, SortIds, TimesMean, Summary, Finished, Selected, Count, Strip, CostOf, TimesOf;
    var es := Selected(lines, f);
    var ids := CompletedIds(es);
    forall t ensures t in ids <==> Finished(es, t) {
      FinishedExactly(es, t);
    }
    SortIdsSorts(Completed(es));
    FilterMapTotal(RowAt(es), ids);
    RowCosts(es, ids);
    CountCongruent(IsMalformed, Unreadable, lines);
    CountCongruent(BadCost, NegativeCost, es);
    var rows := BreakdownOf(lines, f).traces;
    forall k | 0 <= k < |ids| ensures RowMeans(rows[k], es, ids[k]) {
      assert RowAt(es)(ids[k]) == Some(rows[k]);
      FinishedNamed(es, ids[k]);
      TimesExactly(es, ids[k]);
      CostExactly(es, ids[k]);
    }
  }

  lemma FinishedNamed(es: seq<Event>, t: string)
    requires Finished(es, t)
    ensures t != ""
  {
  }

  // ----- the statistics of a stage

  function TimeIn(s: Stage): TraceRow -> Option<int> {
    (row: TraceRow) => if s in row.stages then Some(row.stages[s]) else None
  }

  function UpTo(bound: int): int -> bool { (v: int) => v <= bound }

  /** The least value with at least the share `num / den` of all at or below it. */
  ghost predicate LeastWith(v: int, values: seq<int>, num: nat, den: nat) {
    && v in values && num * |values| <= den * Count(UpTo(v), values)
    && forall w :: w < v ==> den * Count(UpTo(w), values) < num * |values|
  }

  /** A stage is summarised exactly if some row times it, by the number of rows that
      do, their p50, p95 and maximum. */
  ghost predicate StageMeans(b: Breakdown, s: Stage) {
    var values := FilterMap(TimeIn(s), b.traces);
    && (s in b.stageSummary <==> values != [])
    && (s in b.stageSummary ==>
          var stats := b.stageSummary[s];
          && stats.samples == |values|
          && LeastWith(stats.p50, values, 1, 2) && LeastWith(stats.p95, values, 19, 20)
          && stats.max in values && forall v :: v in values ==> v <= stats.max)
  }

  lemma {:induction false} CountedUpTo(values: seq<int>, bound: int)
    ensures CountUpTo(values, bound) == Count(UpTo(bound), values)
  {
    if values != [] {
      CountedUpTo(values[..|values| - 1], bound);
    }
  }

  lemma RankLeast(values: seq<int>, p: Percentile)
    requires Proper(p) && values != []
    ensures BreakdownRank(values, p).Some? && LeastWith(BreakdownRank(values, p).value, values, p.num, p.den)
  {
    hide BreakdownRank, MetricRank, NearestRank, CountUpTo, Count;
    NearestRankCodesAgree(values, p);
    NearestRankIsLeast(values, p);
    forall bound ensures CountUpTo(values, bound) == Count(UpTo(bound), values) {
      CountedUpTo(values, bound);
    }
  }

  lemma {:induction false} RowTimes(es: seq<Event>, ids: seq<string>, s: Stage)
    ensures FilterMap(TimeIn(s), FilterMap(RowAt(es), ids)) == FilterMap(TimeAt(es, s), ids)
  {
    hide TimesOf, CostOf;
    if ids != [] {
      var front, t := ids[..|ids| - 1], ids[|ids| - 1];
      RowTimes(es, front, s);
      FilterMapLast(RowAt(es), front, t);
      FilterMapLast(TimeIn(s), FilterMap(RowAt(es), front), RowAt(es)(t).value);
      FilterMapLast(TimeAt(es, s), front, t);
      assert ids == front + [t];
    }
  }

  lemma StageSummaryMeans(lines: seq<Line>, f: Filter, s: Stage)
    ensures StageMeans(BreakdownOf(lines, f), s)
  {
    hide FilterMap, Selected, CompletedIds, BreakdownRank, LeastWith, Largest, Count, TimesOf, CostOf;
    var es := Selected(lines, f);
    var values := StageValues(es, s);
    RowTimes(es, CompletedIds(es), s);
    EveryStage(s);
    if values != [] {
      RankLeast(values, P50);
      RankLeast(values, P95);
      LargestIsMember(values);
    }
  }

  lemma EveryStage(s: Stage)
    ensures s in STAGE_ORDER
  {
    assert STAGE_ORDER == [STAGE_ORDER[0], STAGE_ORDER[1], STAGE_ORDER[2], STAGE_ORDER[3],
                           STAGE_ORDER[4], STAGE_ORDER[5], STAGE_ORDER[6], STAGE_ORDER[7]];
  }
}

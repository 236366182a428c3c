/** What a trace snapshot says, in terms of the fields of the events it reads. */
module SnapshotMeaning {
  import opened Collections
  import opened Strings
  import opened Ranks
  import opened TraceEvents
  import opened TraceSnapshot

  // ----- which events are read

  /** An event is read exactly if its line is in the log, its context is asked for
      (no context is production), and its time lies in the window, ends included. */
  lemma SelectedExactly(lines: seq<Line>, f: Filter, e: Event)
    ensures e in Selected(lines, f) <==>
            && Parsed(e) in lines
            && (if e.context == "" then "production" in f.contexts else e.context in f.contexts)
            && (f.start.Some? ==> e.ts.Some? && e.ts.value >= f.start.value)
            && (f.end.Some? ==> e.ts.Some? && e.ts.value <= f.end.value)
  {
    FilterMapMember(Select(f), lines, e);
    if Parsed(e) in lines && InWindow(e, f) {
      assert Select(f)(Parsed(e)) == Some(e);
    }
  }

  // ----- counted events

  ghost predicate NameEnds(e: Event, ending: string) { exists stem :: e.name == Other(stem + ending) }

  /** Named a fallback, or carrying a fallback field; for community summaries one
      that is not among the four harmless reasons. */
  ghost predicate FellBack(e: Event) {
    || NameEnds(e, "_fallback")
    || (e.name != CommunitySummaries && e.fallbackFields.Keys != {})
    || (e.name == CommunitySummaries && exists k ::
          k in e.fallbackFields &&
          Fold(match e.fallbackFields[k] case JsonTrue => "True" case JsonText(t) => t) !in
            ["approved_summary_used", "community_summaries_disabled", "graph_retrieval_disabled", "query_not_global"])
  }

  ghost predicate Retried(e: Event) { e.name == LlmRetry || NameEnds(e, "_retry") || e.retryAttempted }

  lemma NameEndsExactly(e: Event, ending: string)
    ensures NameEnds(e, ending) <==> e.name.Other? && EndsWith(e.name.text, ending)
  {
    if e.name.Other? && EndsWith(e.name.text, ending) {
      var text := e.name.text;
      assert text == text[..|text| - |ending|] + ending;
      assert e.name == Other(text[..|text| - |ending|] + ending);
    }
    if NameEnds(e, ending) {
      var stem :| e.name == Other(stem + ending);
      assert (stem + ending)[|stem|..] == ending;
    }
  }

  lemma FellBackExactly(e: Event)
    ensures FellBack(e) <==> HasFallback(e)
  {
    NameEndsExactly(e, "_fallback");
    var harmless :=
      ["approved_summary_used", "community_summaries_disabled", "graph_retrieval_disabled", "query_not_global"];
    forall reason ensures reason in harmless <==> reason in NON_FALLBACK_COMMUNITY_REASONS {
      assert harmless[0] in harmless && harmless[1] in harmless && harmless[2] in harmless && harmless[3] in harmless;
    }
    assert e.fallbackFields != map[] <==> e.fallbackFields.Keys != {};
  }

  lemma RetriedExactly(e: Event)
    ensures Retried(e) <==> IsRetry(e)
  {
    NameEndsExactly(e, "_retry");
  }

  predicate Unreadable(line: Line) { line == Malformed }

  predicate Erred(e: Event) { e.hasError || e.hasErrorType || e.hasErrorStatus }

  /** The counts of a snapshot as numbers of lines and events. */
  ghost predicate CountsMean(r: Snapshot, lines: seq<Line>, es: seq<Event>) {
    && r.parseErrors == Count(Unreadable, lines)
    && r.errorEvents == Count(Erred, es)
    && r.fallbackEvents == Count(FellBack, es)
    && r.retryEvents == Count(Retried, es)
    && (r.observed <==> exists e :: e in es && e.name == RagEnd && e.ts.Some?)
  }

  lemma SnapshotCounts(lines: seq<Line>, f: Filter)
    ensures CountsMean(SnapshotOf(lines, f), lines, Selected(lines, f))
  {
    hide Count, FellBack, HasFallback, Retried, IsRetry, SystemOf, Selected;
    var es := Selected(lines, f);
    forall e ensures (FellBack(e) <==> HasFallback(e)) && (Retried(e) <==> IsRetry(e)) {
      FellBackExactly(e);
      RetriedExactly(e);
    }
    CountCongruent(IsMalformed, Unreadable, lines);
    CountCongruent(IsError, Erred, es);
    CountCongruent(HasFallback, FellBack, es);
    CountCongruent(IsRetry, Retried, es);
    CountZero(IsStampedEnd, es);
  }

  // ----- rates and attempts

  predicate Ended(e: Event) { e.name == RagEnd }

  predicate Corrected(e: Event) { e.name == CorrectiveRetrieval && e.hasAttempt }

  predicate CorrectionFailed(e: Event) { Corrected(e) && e.hasError }

  predicate Repaired(e: Event) { e.name == ClaimRepair && e.hasAttempted }

  predicate ModelRetried(e: Event) { e.name == LlmRetry }

  /** A total divided by the number of finished queries; 0 without any. */
  predicate Rate(rate: real, total: nat, queries: nat) {
    if queries == 0 then rate == 0.0 else rate * queries as real == total as real
  }

  ghost predicate RatesMean(m: SystemMetrics, es: seq<Event>) {
    && m.queryCount == Count(Ended, es)
    && m.correctionErrors == Count(CorrectionFailed, es)
    && Rate(m.correctionRate, Count(Corrected, es), m.queryCount)
    && Rate(m.repairRate, Count(Repaired, es), m.queryCount)
    && Rate(m.retryRate, Count(ModelRetried, es), m.queryCount)
  }

  lemma PerQueryRate(total: nat, queries: nat)
    ensures Rate(PerQuery(total, queries), total, queries)
  {
    if queries > 0 {
      Cancel(total as real, queries as real);
    }
  }

  lemma SnapshotRates(lines: seq<Line>, f: Filter)
    ensures RatesMean(SnapshotOf(lines, f).system, Selected(lines, f))
  {
    hide Count, FilterMap, Selected, PerQuery, Rate, MetricRank, MaxCount, SortIds;
    var es := Selected(lines, f);
    CountCongruent(IsQueryEnd, Ended, es);
    CountCongruent(IsCorrectionError, CorrectionFailed, es);
    CountCongruent(IsLlmRetry, ModelRetried, es);
    FilterMapCounted(CorrectionKey, Corrected, es);
    FilterMapCounted(RepairKey, Repaired, es);
    var queries := Count(IsQueryEnd, es);
    PerQueryRate(|Corrections(es)|, queries);
    PerQueryRate(|Repairs(es)|, queries);
    PerQueryRate(Count(IsLlmRetry, es), queries);
  }

  /** The trace an attempt counts for. */
  function AttemptId(e: Event): string { if e.traceId == "" then "<missing>" else e.traceId }

  function CorrectionOf(id: string): Event -> bool { (e: Event) => Corrected(e) && AttemptId(e) == id }

  function RepairOf(id: string): Event -> bool { (e: Event) => Repaired(e) && AttemptId(e) == id }

  predicate Ascending(ids: seq<string>) {
    Distinct(ids) && forall i, j :: 0 <= i < j < |ids| ==> LexLeq(ids[i], ids[j])
  }

  /** The most attempts that any one trace made. */
  ghost predicate Most(most: nat, attempt: string -> Event -> bool, es: seq<Event>) {
    && (forall id :: Count(attempt(id), es) <= most)
    && (most > 0 ==> exists id :: Count(attempt(id), es) == most)
  }

  /** Which traces were corrected without error and repaired, and how often at most. */
  ghost predicate AttemptsMean(m: SystemMetrics, es: seq<Event>) {
    && Ascending(m.correctionIds) && Ascending(m.repairIds)
    && (forall id :: id in m.correctionIds <==>
          exists e :: e in es && Corrected(e) && !e.hasError && AttemptId(e) == id)
    && (forall id :: id in m.repairIds <==> exists e :: e in es && Repaired(e) && AttemptId(e) == id)
    && Most(m.maxCorrections, CorrectionOf, es) && Most(m.maxRepairs, RepairOf, es)
  }

  lemma MostOf(key: Event -> Option<string>, attempt: string -> Event -> bool, es: seq<Event>)
    requires forall id, e :: key(e) == Some(id) <==> attempt(id)(e)
    ensures Most(MaxCount(multiset(FilterMap(key, es))), attempt, es)
  {
    hide MaxCount, FilterMap, Count;
    var m := multiset(FilterMap(key, es));
    MaxCountIsLeastBound(m);
    forall id ensures Count(attempt(id), es) == m[id] {
      MultiplicityCounted(key, attempt(id), es, id);
    }
    NoCount();
  }

  lemma NoCount()
    ensures MaxCount<string>(multiset{}) == 0
  {
  }

  lemma IdsOf(key: Event -> Option<string>, es: seq<Event>, id: string)
    ensures Ascending(SortIds(Elements(FilterMap(key, es))))
    ensures id in SortIds(Elements(FilterMap(key, es))) <==> exists e :: e in es && key(e) == Some(id)
  {
    hide FilterMap, SortIds;
    SortIdsSorts(Elements(FilterMap(key, es)));
    FilterMapMember(key, es, id);
    assert id in SortIds(Elements(FilterMap(key, es))) <==> id in Elements(SortIds(Elements(FilterMap(key, es))));
  }

  lemma SnapshotAttempts(lines: seq<Line>, f: Filter)
    ensures AttemptsMean(SnapshotOf(lines, f).system, Selected(lines, f))
  {
    hide Count, FilterMap, Selected, PerQuery, MetricRank, MaxCount, SortIds, Most, Ascending;
    var es := Selected(lines, f);
    MostOf(CorrectionKey, CorrectionOf, es);
    MostOf(RepairKey, RepairOf, es);
    IdsOf(SuccessKey, es, "");
    IdsOf(RepairKey, es, "");
    var m := SnapshotOf(lines, f).system;
    forall id ensures id in m.correctionIds <==>
                      exists e :: e in es && Corrected(e) && !e.hasError && AttemptId(e) == id {
      IdsOf(SuccessKey, es, id);
      assert forall e :: SuccessKey(e) == Some(id) <==> Corrected(e) && !e.hasError && AttemptId(e) == id;
    }
    forall id ensures id in m.repairIds <==> exists e :: e in es && Repaired(e) && AttemptId(e) == id {
      IdsOf(RepairKey, es, id);
      assert forall e :: RepairKey(e) == Some(id) <==> Repaired(e) && AttemptId(e) == id;
    }
  }

  // ----- percentiles

  predicate Timed(e: Event) { e.name == RagEnd && e.finalLatency.Some? }

  /** A finished query whose final latency is at most `bound`. */
  function TimedWithin(bound: int): Event -> bool { (e: Event) => Timed(e) && e.finalLatency.value <= bound }

  /** The least final latency with at least the share `num / den` of all at or
      below it; none without a reported one. */
  ghost predicate IsPercentile(r: Option<int>, es: seq<Event>, num: nat, den: nat) {
    match r
    case None => Count(Timed, es) == 0
    case Some(v) =>
      && (exists e :: e in es && Timed(e) && e.finalLatency.value == v)
      && num * Count(Timed, es) <= den * Count(TimedWithin(v), es)
      && forall w :: w < v ==> den * Count(TimedWithin(w), es) < num * Count(Timed, es)
  }

  lemma {:induction false} LatenciesWithin(es: seq<Event>, bound: int)
    ensures CountUpTo(Latencies(es), bound) == Count(TimedWithin(bound), es)
  {
    hide FilterMap, Count, CountUpTo;
    if es == [] {
      FilterMapEmpty(EndLatency);
      CountEmpty(TimedWithin(bound));
      NoneUpTo(bound);
    } else {
      var front, e := es[..|es| - 1], es[|es| - 1];
      assert es == front + [e];
      LatenciesWithin(front, bound);
      FilterMapLast(EndLatency, front, e);
      CountLast(TimedWithin(bound), front, e);
      assert Latencies(front) + [] == Latencies(front);
      if EndLatency(e).Some? {
        OneMoreUpTo(Latencies(front), EndLatency(e).value, bound);
      }
    }
  }

  lemma NoneUpTo(bound: int)
    ensures CountUpTo([], bound) == 0
  {
  }

  lemma OneMoreUpTo(values: seq<int>, v: int, bound: int)
    ensures CountUpTo(values + [v], bound) == CountUpTo(values, bound) + if v <= bound then 1 else 0
  {
    assert (values + [v])[..|values|] == values;
  }

  lemma RankMeans(es: seq<Event>, p: Percentile)
    requires Proper(p)
    ensures IsPercentile(MetricRank(Latencies(es), p), es, p.num, p.den)
  {
    hide MetricRank, BreakdownRank, NearestRank, FilterMap, CountUpTo, Count;
    var values := Latencies(es);
    NearestRankCodesAgree(values, p);
    FilterMapCounted(EndLatency, Timed, es);
    forall bound ensures CountUpTo(values, bound) == Count(TimedWithin(bound), es) {
      LatenciesWithin(es, bound);
    }
    if values != [] {
      NearestRankIsLeast(values, p);
      FilterMapMember(EndLatency, es, NearestRank(values, p));
    }
  }

  /** p50 and p95 of the final latencies. */
  lemma SnapshotPercentiles(lines: seq<Line>, f: Filter)
    ensures var m := SnapshotOf(lines, f).system;
            && IsPercentile(m.latencyP50, Selected(lines, f), 1, 2)
            && IsPercentile(m.latencyP95, Selected(lines, f), 19, 20)
  {
    hide Selected, MetricRank, IsPercentile, MaxCount, SortIds, FilterMap, Count;
    RankMeans(Selected(lines, f), P50);
    RankMeans(Selected(lines, f), P95);
  }

  // ----- cost: a rollup repeats what its leaves have reported

  /** Cost-reporting events as they nest: below a rollup stand the events whose
      costs its estimate includes. */
  datatype Forest = Nothing | Node(event: Event, below: Forest, beside: Forest)

  /** The events of a forest, each rollup after what it includes. */
  function EventsIn(forest: Forest): seq<Event> {
    match forest
    case Nothing => []
    case Node(e, below, beside) => EventsIn(below) + [e] + EventsIn(beside)
  }

  function Value(amount: Option<int>): int { if amount.Some? then amount.value else 0 }

  /** The estimates of the outermost events. */
  function Estimated(forest: Forest): int {
    match forest
    case Nothing => 0
    case Node(e, _, beside) => Value(e.estimatedCost) + Estimated(beside)
  }

  /** A rollup's estimate is its own cost and the estimates just below it; nothing
      is below any other event. */
  predicate Balanced(forest: Forest) {
    match forest
    case Nothing => true
    case Node(e, below, beside) =>
      && Balanced(below) && Balanced(beside)
      && if e.isRollup then Value(e.estimatedCost) == Value(e.exclusiveCost) + Estimated(below) else below == Nothing
  }

  lemma {:induction false} CostConcat(a: seq<Event>, b: seq<Event>)
    ensures Cost(a + b) == Cost(a) + Cost(b)
  {
    FilterMapConcat(CostEntry, a, b);
    SumConcat(FilterMap(CostEntry, a), FilterMap(CostEntry, b));
  }

  lemma CostOfOne(e: Event)
    ensures Cost([e]) == CostOf(e)
  {
    FilterMapLast(CostEntry, [], e);
    SumLast([], CostOf(e));
    assert [] + [e] == [e] && FilterMap(CostEntry, []) == [] && [] + [CostOf(e)] == [CostOf(e)];
  }

  lemma {:induction false} ForestCost(forest: Forest)
    requires Balanced(forest)
    ensures Cost(EventsIn(forest)) == Estimated(forest)
  {
    hide Cost;
    match forest
    case Nothing => NoCost();
    case Node(e, below, beside) =>
      ForestCost(below);
      ForestCost(beside);
      CostConcat(EventsIn(below) + [e], EventsIn(beside));
      CostConcat(EventsIn(below), [e]);
      CostOfOne(e);
  }

  lemma NoCost()
    ensures Cost([]) == 0
  {
  }

  /** Whatever the nesting and the order of the log: nothing is charged twice. The
      cost of a snapshot is the sum of the outermost estimates. */
  lemma NothingChargedTwice(lines: seq<Line>, f: Filter, forest: Forest)
    requires Balanced(forest) && multiset(Selected(lines, f)) == multiset(EventsIn(forest))
    ensures SnapshotOf(lines, f).system.estimatedCost == Estimated(forest)
  {
    hide Selected, Balanced;
    ForestCost(forest);
    FilterMapPermuted(CostEntry, Selected(lines, f), EventsIn(forest));
    SumPermuted(FilterMap(CostEntry, Selected(lines, f)), FilterMap(CostEntry, EventsIn(forest)));
  }

  /** What a rollup estimates for what it includes does not matter to a snapshot,
      nor does what another event states as its own share. */
  lemma InclusiveCostIgnored(before: seq<Line>, e: Event, after: seq<Line>, f: Filter, amount: Option<int>)
    ensures var changed := if e.isRollup then e.(estimatedCost := amount) else e.(exclusiveCost := amount);
            SnapshotOf(before + [Parsed(changed)] + after, f).system.estimatedCost ==
            SnapshotOf(before + [Parsed(e)] + after, f).system.estimatedCost
  {
    hide Cost, Selected, CostOf, InWindow, SnapshotOf;
    var changed := if e.isRollup then e.(estimatedCost := amount) else e.(exclusiveCost := amount);
    SameShare(e, changed, f);
    CostBetween(before, e, after, f);
    CostBetween(before, changed, after, f);
    SnapshotCost(before + [Parsed(e)] + after, f);
    SnapshotCost(before + [Parsed(changed)] + after, f);
  }

  lemma SameShare(e: Event, changed: Event, f: Filter)
    requires exists amount :: changed == if e.isRollup then e.(estimatedCost := amount) else e.(exclusiveCost := amount)
    ensures CostOf(changed) == CostOf(e) && InWindow(changed, f) == InWindow(e, f)
  {
  }

  lemma SnapshotCost(lines: seq<Line>, f: Filter)
    ensures SnapshotOf(lines, f).system.estimatedCost == Cost(Selected(lines, f))
  {
    hide Cost, Selected;
  }

  lemma CostBetween(before: seq<Line>, e: Event, after: seq<Line>, f: Filter)
    ensures Cost(Selected(before + [Parsed(e)] + after, f)) ==
            Cost(Selected(before, f)) + (if InWindow(e, f) then CostOf(e) else 0) + Cost(Selected(after, f))
  {
    hide Cost, CostOf;
    FilterMapConcat(Select(f), before + [Parsed(e)], after);
    FilterMapLast(Select(f), before, Parsed(e));
    CostConcat(Selected(before + [Parsed(e)], f), Selected(after, f));
    if InWindow(e, f) {
      CostConcat(Selected(before, f), [e]);
      CostOfOne(e);
    } else {
      assert Selected(before + [Parsed(e)], f) == Selected(before, f);
    }
  }
}

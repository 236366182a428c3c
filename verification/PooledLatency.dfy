/** The stage summary of merged latency breakdowns is the stage summary of the
    pooled log, whenever the logs name different traces. */
module PooledLatency {
  import opened Collections
  import opened Strings
  import opened Ranks
  import opened TraceEvents
  import opened LatencyBreakdown
  import opened Aggregation
  import opened PooledEvidence

  function TraceIds(es: seq<Event>): set<string> { Elements(FilterMap(TraceKey, es)) }

  // ----- one trace, seen in two halves of a log

  lemma {:induction false} NamedTrace(es: seq<Event>, e: Event)
    requires e in es && TraceOf(e) != ""
    ensures TraceOf(e) in TraceIds(es)
  {
    FilterMapMember(TraceKey, es, TraceOf(e));
  }

  lemma {:induction false} AbsentTrace(es: seq<Event>, t: string)
    requires t !in TraceIds(es)
    ensures TimesOf(es, t) == map[] && CostOf(es, t) == 0
  {
    if es != [] {
      var front, e := es[..|es| - 1], es[|es| - 1];
      FilterMapLast(TraceKey, front, e);
      assert es == front + [e];
      assert t !in TraceIds(front);
      AbsentTrace(front, t);
    }
  }

  /** A second half that never names the trace leaves it unchanged. */
  lemma {:induction false} TraceInFirst(a: seq<Event>, b: seq<Event>, t: string)
    requires t !in TraceIds(b)
    ensures TimesOf(a + b, t) == TimesOf(a, t) && CostOf(a + b, t) == CostOf(a, t)
    decreases |b|
  {
    if b == [] {
      assert a + b == a;
    } else {
      var front, e := b[..|b| - 1], b[|b| - 1];
      FilterMapLast(TraceKey, front, e);
      assert b == front + [e];
      assert t !in TraceIds(front);
      TraceInFirst(a, front, t);
      assert (a + b)[..|a + b| - 1] == a + front;
    }
  }

  /** A first half that never names it contributes nothing. */
  lemma {:induction false} TraceInSecond(a: seq<Event>, b: seq<Event>, t: string)
    requires t !in TraceIds(a)
    ensures TimesOf(a + b, t) == TimesOf(b, t) && CostOf(a + b, t) == CostOf(b, t)
    decreases |b|
  {
    hide FilterMap, Step;
    if b == [] {
      assert a + b == a;
      AbsentTrace(a, t);
    } else {
      TraceInSecond(a, b[..|b| - 1], t);
      assert (a + b)[..|a + b| - 1] == a + b[..|b| - 1];
    }
  }

  lemma {:induction false} CompletedNamed(es: seq<Event>)
    ensures Completed(es) <= TraceIds(es)
  {
    forall t | t in Completed(es) ensures t in TraceIds(es) {
      FilterMapMember(CompletedKey, es, t);
      var e :| e in es && CompletedKey(e) == Some(t);
      NamedTrace(es, e);
    }
  }

  lemma {:induction false} CostNonNegative(es: seq<Event>, t: string)
    ensures CostOf(es, t) >= 0
  {
    if es != [] {
      CostNonNegative(es[..|es| - 1], t);
    }
  }

  lemma {:induction false} TimesNonNegative(es: seq<Event>, t: string)
    ensures forall s :: s in TimesOf(es, t) ==> TimesOf(es, t)[s] >= 0
  {
    if es != [] {
      TimesNonNegative(es[..|es| - 1], t);
    }
  }

  // ----- the completed traces of two halves

  lemma CompletedIdsOfHalves(a: seq<Event>, b: seq<Event>)
    requires TraceIds(a) !! TraceIds(b)
    ensures multiset(CompletedIds(a + b)) == multiset(CompletedIds(a) + CompletedIds(b))
  {
    FilterMapConcat(CompletedKey, a, b);
    ElementsConcat(FilterMap(CompletedKey, a), FilterMap(CompletedKey, b));
    CompletedNamed(a);
    CompletedNamed(b);
    SortIdsSorts(Completed(a));
    SortIdsSorts(Completed(b));
    SortIdsSorts(Completed(a + b));
    DistinctConcat(CompletedIds(a), CompletedIds(b));
    ElementsConcat(CompletedIds(a), CompletedIds(b));
    SameMembersPermuted(CompletedIds(a + b), CompletedIds(a) + CompletedIds(b));
  }

  /** Values read off the completed traces of a log are those of its halves. */
  lemma ValuesOfHalves<U>(
    a: seq<Event>, b: seq<Event>, whole: string -> Option<U>, left: string -> Option<U>, right: string -> Option<U>)
    requires TraceIds(a) !! TraceIds(b)
    requires forall t :: t in Completed(a) ==> whole(t) == left(t)
    requires forall t :: t in Completed(b) ==> whole(t) == right(t)
    ensures multiset(FilterMap(whole, CompletedIds(a + b))) ==
            multiset(FilterMap(left, CompletedIds(a)) + FilterMap(right, CompletedIds(b)))
  {
    CompletedIdsOfHalves(a, b);
    FilterMapPermuted(whole, CompletedIds(a + b), CompletedIds(a) + CompletedIds(b));
    FilterMapConcat(whole, CompletedIds(a), CompletedIds(b));
    SortIdsSorts(Completed(a));
    SortIdsSorts(Completed(b));
    assert forall t :: t in CompletedIds(a) ==> t in Elements(CompletedIds(a));
    assert forall t :: t in CompletedIds(b) ==> t in Elements(CompletedIds(b));
    FilterMapCongruent(whole, left, CompletedIds(a));
    FilterMapCongruent(whole, right, CompletedIds(b));
  }

  lemma HalvesOfTrace(a: seq<Event>, b: seq<Event>)
    requires TraceIds(a) !! TraceIds(b)
    ensures forall t :: t in Completed(a) ==> TimesOf(a + b, t) == TimesOf(a, t) && CostOf(a + b, t) == CostOf(a, t)
    ensures forall t :: t in Completed(b) ==> TimesOf(a + b, t) == TimesOf(b, t) && CostOf(a + b, t) == CostOf(b, t)
  {
    CompletedNamed(a);
    CompletedNamed(b);
    forall t | t in Completed(a)
      ensures TimesOf(a + b, t) == TimesOf(a, t) && CostOf(a + b, t) == CostOf(a, t)
    {
      TraceInFirst(a, b, t);
    }
    forall t | t in Completed(b)
      ensures TimesOf(a + b, t) == TimesOf(b, t) && CostOf(a + b, t) == CostOf(b, t)
    {
      TraceInSecond(a, b, t);
    }
  }

  lemma StageValuesOfHalves(a: seq<Event>, b: seq<Event>, s: Stage)
    requires TraceIds(a) !! TraceIds(b)
    ensures multiset(StageValues(a + b, s)) == multiset(StageValues(a, s) + StageValues(b, s))
  {
    HalvesOfTrace(a, b);
    ValuesOfHalves(a, b, TimeAt(a + b, s), TimeAt(a, s), TimeAt(b, s));
  }

  function CompletedCost(es: seq<Event>): int { Sum(FilterMap(CostAt(es), CompletedIds(es))) }

  lemma CostOfHalves(a: seq<Event>, b: seq<Event>)
    requires TraceIds(a) !! TraceIds(b)
    ensures CompletedCost(a + b) == CompletedCost(a) + CompletedCost(b)
    ensures |CompletedIds(a + b)| == |CompletedIds(a)| + |CompletedIds(b)|
  {
    HalvesOfTrace(a, b);
    ValuesOfHalves(a, b, CostAt(a + b), CostAt(a), CostAt(b));
    SumPermuted(FilterMap(CostAt(a + b), CompletedIds(a + b)),
                FilterMap(CostAt(a), CompletedIds(a)) + FilterMap(CostAt(b), CompletedIds(b)));
    SumConcat(FilterMap(CostAt(a), CompletedIds(a)), FilterMap(CostAt(b), CompletedIds(b)));
    CompletedIdsOfHalves(a, b);
    assert |multiset(CompletedIds(a + b))| == |CompletedIds(a) + CompletedIds(b)|;
  }

  // ----- any number of logs

  function BreakdownsOf(logs: seq<Log>, f: Filter): seq<Breakdown> {
    if logs == [] then [] else BreakdownsOf(logs[..|logs| - 1], f) + [BreakdownOf(logs[|logs| - 1], f)]
  }

  lemma BreakdownsLast(logs: seq<Log>, f: Filter)
    requires logs != []
    ensures BreakdownsOf(logs, f)[..|BreakdownsOf(logs, f)| - 1] == BreakdownsOf(logs[..|logs| - 1], f)
    ensures BreakdownsOf(logs, f)[|BreakdownsOf(logs, f)| - 1] == BreakdownOf(logs[|logs| - 1], f)
  {
  }

  /** Reading a stage off the rows of one breakdown is reading it off its traces. */
  lemma {:induction false} RowTimes(es: seq<Event>, s: Stage, ids: seq<string>)
    ensures FilterMap(RowTime(s), FilterMap(RowAt(es), ids)) == FilterMap(TimeAt(es, s), ids)
  {
    hide FilterMap, TimesOf, LatencyBreakdown.CostOf;
    if ids == [] {
      FilterMapEmpty(RowAt(es));
      FilterMapEmpty(TimeAt(es, s));
      FilterMapEmpty(RowTime(s));
    } else {
      var front, t := ids[..|ids| - 1], ids[|ids| - 1];
      RowTimes(es, s, front);
      assert ids == front + [t];
      FilterMapLast(RowAt(es), front, t);
      FilterMapLast(TimeAt(es, s), front, t);
      FilterMapLast(RowTime(s), FilterMap(RowAt(es), front), TraceRow(Sha256(t), TimesOf(es, t), CostOf(es, t)));
    }
  }

  lemma {:induction false} MergedValuesArePooled(logs: seq<Log>, f: Filter, s: Stage)
    requires Apart(TraceKey, logs, f)
    ensures multiset(MergedValues(BreakdownsOf(logs, f), s)) == multiset(StageValues(PooledEvents(logs, f), s))
  {
    if logs == [] {
      assert PooledEvents(logs, f) == [];
      assert Completed([]) == {};
    } else {
      var front, ls := logs[..|logs| - 1], Selected(logs[|logs| - 1], f);
      ApartLast(TraceKey, logs, f);
      MergedValuesArePooled(front, f, s);
      PoolLast(logs, f);
      BreakdownsLast(logs, f);
      StageValuesOfHalves(PooledEvents(front, f), ls, s);
      RowTimes(ls, s, CompletedIds(ls));
      FilterMapConcat(RowTime(s), RowsOf(BreakdownsOf(front, f)), BreakdownOf(logs[|logs| - 1], f).traces);
    }
  }

  lemma {:induction false} TotalsArePooled(logs: seq<Log>, f: Filter)
    requires Apart(TraceKey, logs, f)
    ensures TotalQueries(BreakdownsOf(logs, f)) == BreakdownOf(Pool(logs), f).queryCount
    ensures TotalParseErrors(BreakdownsOf(logs, f)) == BreakdownOf(Pool(logs), f).parseErrors
    ensures TotalCost(BreakdownsOf(logs, f)) == BreakdownOf(Pool(logs), f).estimatedCost
  {
    if logs == [] {
      assert PooledEvents(logs, f) == [];
      assert Completed([]) == {};
    } else {
      var front, last := logs[..|logs| - 1], logs[|logs| - 1];
      ApartLast(TraceKey, logs, f);
      TotalsArePooled(front, f);
      PoolLast(logs, f);
      BreakdownsLast(logs, f);
      CostOfHalves(PooledEvents(front, f), Selected(last, f));
      CountConcat(IsMalformed, Pool(front), last);
      CountConcat(BadCost, PooledEvents(front, f), Selected(last, f));
    }
  }

  lemma {:induction false} RowsNonNegative(logs: seq<Log>, f: Filter)
    ensures forall row :: row in RowsOf(BreakdownsOf(logs, f)) ==> NonNegativeRow(row)
    ensures forall r :: r in BreakdownsOf(logs, f) ==> r.estimatedCost >= 0
  {
    if logs != [] {
      var es := Selected(logs[|logs| - 1], f);
      RowsNonNegative(logs[..|logs| - 1], f);
      BreakdownsLast(logs, f);
      forall row | row in FilterMap(RowAt(es), CompletedIds(es)) ensures NonNegativeRow(row) {
        FilterMapMember(RowAt(es), CompletedIds(es), row);
        var t :| t in CompletedIds(es) && RowAt(es)(t) == Some(row);
        TimesNonNegative(es, t);
      }
      CostsNonNegative(es, CompletedIds(es));
    }
  }

  lemma {:induction false} CostsNonNegative(es: seq<Event>, ids: seq<string>)
    ensures Sum(FilterMap(CostAt(es), ids)) >= 0
  {
    if ids != [] {
      var front, t := ids[..|ids| - 1], ids[|ids| - 1];
      CostsNonNegative(es, front);
      CostNonNegative(es, t);
      SumLast(FilterMap(CostAt(es), front), CostOf(es, t));
    }
  }

  lemma StatsPermuted(merged: seq<int>, pooled: seq<int>)
    requires multiset(merged) == multiset(pooled)
    ensures merged == [] <==> pooled == []
    ensures merged != [] ==> MergedStats(merged) == Stats(pooled)
  {
    NearestRankPermuted(merged, pooled, P50);
    NearestRankPermuted(merged, pooled, P95);
    if merged != [] {
      NearestRankCodesAgree(pooled, P50);
      NearestRankCodesAgree(pooled, P95);
      LargestPermuted(merged, pooled);
    }
  }

  lemma StageAgrees(logs: seq<Log>, f: Filter, s: Stage)
    requires Apart(TraceKey, logs, f)
    ensures var merged, pooled := MergedValues(BreakdownsOf(logs, f), s), StageValues(PooledEvents(logs, f), s);
            (merged == [] <==> pooled == []) && (merged != [] ==> MergedStats(merged) == Stats(pooled))
  {
    MergedValuesArePooled(logs, f, s);
    StatsPermuted(MergedValues(BreakdownsOf(logs, f), s), StageValues(PooledEvents(logs, f), s));
  }

  lemma SummariesAgree(reports: seq<Breakdown>, es: seq<Event>)
    requires forall s ::
      var merged, pooled := MergedValues(reports, s), StageValues(es, s);
      (merged == [] <==> pooled == []) && (merged != [] ==> MergedStats(merged) == Stats(pooled))
    ensures MergedSummary(reports) == Summary(es)
  {
    hide MergedValues, StageValues, MergedStats, Stats;
  }

  /** Merging the breakdowns of logs over different traces always succeeds and
      yields the counts, cost and stage statistics of the pooled log. */
  lemma MergedLatencyIsPooled(logs: seq<Log>, f: Filter)
    requires Apart(TraceKey, logs, f)
    ensures var pooled := BreakdownOf(Pool(logs), f);
            MergedLatency(BreakdownsOf(logs, f)) ==
            Ok(LatencyTotals(pooled.queryCount, pooled.parseErrors, pooled.estimatedCost, pooled.stageSummary))
  {
    hide Apart, BreakdownsOf, MergedValues, StageValues, MergedStats, Stats;
    hide Summary, MergedSummary, RowsOf, NonNegativeRow;
    RowsNonNegative(logs, f);
    TotalsArePooled(logs, f);
    forall s
      ensures var merged, pooled := MergedValues(BreakdownsOf(logs, f), s), StageValues(PooledEvents(logs, f), s);
              (merged == [] <==> pooled == []) && (merged != [] ==> MergedStats(merged) == Stats(pooled))
    {
      StageAgrees(logs, f, s);
    }
    SummariesAgree(BreakdownsOf(logs, f), PooledEvents(logs, f));
  }
}

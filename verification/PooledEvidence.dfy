/** Splitting a suite into one private log per case and merging the reports
    gives what a single log of the whole suite would have given. */
module PooledEvidence {
  import opened Collections
  import opened Strings
  import opened Ranks
  import opened TraceEvents
  import opened TraceSnapshot
  import opened RolloutGate
  import opened Aggregation

  type Log = seq<Line>

  /** The concatenated log of a pooled run. */
  function Pool(logs: seq<Log>): Log { Flatten(logs) }

  function PooledEvents(logs: seq<Log>, f: Filter): seq<Event> { Selected(Pool(logs), f) }

  lemma PoolLast(logs: seq<Log>, f: Filter)
    requires logs != []
    ensures PooledEvents(logs, f) ==
            PooledEvents(logs[..|logs| - 1], f) + Selected(logs[|logs| - 1], f)
  {
    FilterMapConcat(Select(f), Pool(logs[..|logs| - 1]), logs[|logs| - 1]);
  }

  // ----- traces: the merged system metrics

  ghost function MetricsOf(logs: seq<Log>, f: Filter): seq<SystemMetrics> {
    if logs == [] then []
    else MetricsOf(logs[..|logs| - 1], f) + [SystemOf(Selected(logs[|logs| - 1], f))]
  }

  /** A log of one finished query, and what the merge needs of it. */
  ghost predicate OneQuery(es: seq<Event>) {
    Count(IsQueryEnd, es) == 1
  }

  ghost predicate Measured(es: seq<Event>) {
    |Latencies(es)| == 1 && Latencies(es)[0] >= 0 && Cost(es) >= 0
  }

  ghost predicate EachOneQuery(logs: seq<Log>, f: Filter) {
    forall log :: log in logs ==> OneQuery(Selected(log, f))
  }

  ghost predicate EachMeasured(logs: seq<Log>, f: Filter) {
    forall log :: log in logs ==> Measured(Selected(log, f))
  }

  lemma {:induction false} LatencyPerEnd(es: seq<Event>)
    ensures |Latencies(es)| <= Count(IsQueryEnd, es)
  {
    if es != [] {
      LatencyPerEnd(es[..|es| - 1]);
    }
  }

  lemma RankOfOne(values: seq<int>)
    requires |values| <= 1
    ensures MetricRank(values, P95) == if values == [] then None else Some(values[0])
  {
    NearestRankCodesAgree(values, P95);
    if values != [] {
      NearestRankIsLeast(values, P95);
      assert values == [values[0]];
    }
  }

  lemma TailOfOne(es: seq<Event>)
    requires OneQuery(es)
    ensures SystemOf(es).latencyP95 == if Latencies(es) == [] then None else Some(Latencies(es)[0])
    ensures Latencies(es) != [] ==> Latencies(es) == [Latencies(es)[0]]
    ensures SystemOf(es).estimatedCost == TraceSnapshot.Cost(es)
  {
    LatencyPerEnd(es);
    RankOfOne(Latencies(es));
  }

  lemma NumericIffMeasured(es: seq<Event>)
    requires OneQuery(es)
    ensures Numeric(SystemOf(es)) <==> Measured(es)
  {
    TailOfOne(es);
  }

  lemma {:induction false} AllNumeric(logs: seq<Log>, f: Filter)
    requires EachOneQuery(logs, f)
    ensures (forall s :: s in MetricsOf(logs, f) ==> Numeric(s)) <==> EachMeasured(logs, f)
    ensures |MetricsOf(logs, f)| == |logs|
  {
    if logs != [] {
      var front, last := logs[..|logs| - 1], logs[|logs| - 1];
      assert logs == front + [last];
      AllNumeric(front, f);
      NumericIffMeasured(Selected(last, f));
    }
  }

  lemma {:induction false} QueriesAgree(logs: seq<Log>, f: Filter)
    ensures Sum(FilterMap(QueriesOf, MetricsOf(logs, f))) == Count(IsQueryEnd, PooledEvents(logs, f))
    ensures EachOneQuery(logs, f) ==> Count(IsQueryEnd, PooledEvents(logs, f)) == |logs|
  {
    hide FilterMap, Count, MaxCount, SortIds;
    if logs == [] {
      FilterMapEmpty(QueriesOf);
      FilterMapEmpty(Select(f));
      CountEmpty(IsQueryEnd);
    } else {
      var front, last := logs[..|logs| - 1], logs[|logs| - 1];
      var ls := Selected(last, f);
      assert last in logs && forall log :: log in front ==> log in logs;
      QueriesAgree(front, f);
      PoolLast(logs, f);
      CountConcat(IsQueryEnd, PooledEvents(front, f), ls);
      FilterMapLast(QueriesOf, MetricsOf(front, f), SystemOf(ls));
      SumLast(FilterMap(QueriesOf, MetricsOf(front, f)), SystemOf(ls).queryCount);
    }
  }

  lemma {:induction false} CostsAgree(logs: seq<Log>, f: Filter)
    ensures Sum(FilterMap(SystemCost, MetricsOf(logs, f))) == TraceSnapshot.Cost(PooledEvents(logs, f))
  {
    if logs == [] {
      assert PooledEvents(logs, f) == [];
    } else {
      var front, ls := logs[..|logs| - 1], Selected(logs[|logs| - 1], f);
      var es := PooledEvents(front, f);
      CostsAgree(front, f);
      PoolLast(logs, f);
      FilterMapConcat(CostEntry, es, ls);
      SumConcat(FilterMap(CostEntry, es), FilterMap(CostEntry, ls));
      FilterMapLast(SystemCost, MetricsOf(front, f), SystemOf(ls));
      SumLast(FilterMap(SystemCost, MetricsOf(front, f)), SystemOf(ls).estimatedCost);
    }
  }

  lemma {:induction false} ErrorsAgree(logs: seq<Log>, f: Filter)
    ensures Sum(FilterMap(ErrorsOf, MetricsOf(logs, f))) == Count(IsCorrectionError, PooledEvents(logs, f))
  {
    if logs == [] {
      assert PooledEvents(logs, f) == [];
    } else {
      var front, ls := logs[..|logs| - 1], Selected(logs[|logs| - 1], f);
      ErrorsAgree(front, f);
      PoolLast(logs, f);
      CountConcat(IsCorrectionError, PooledEvents(front, f), ls);
      FilterMapLast(ErrorsOf, MetricsOf(front, f), SystemOf(ls));
      SumLast(FilterMap(ErrorsOf, MetricsOf(front, f)), SystemOf(ls).correctionErrors);
    }
  }

  lemma RetriesOfOne(s: SystemMetrics, retries: nat)
    requires s.queryCount == 1 && s.retryRate == PerQuery(retries, s.queryCount)
    ensures s.retryRate * s.queryCount as real == retries as real
  {
  }

  lemma RetriesStep(reports: seq<SystemMetrics>, s: SystemMetrics, before: nat, more: nat)
    requires RetryTotal(reports) == before as real
    requires s.queryCount == 1 && s.retryRate == PerQuery(more, s.queryCount)
    ensures RetryTotal(reports + [s]) == (before + more) as real
  {
    assert (reports + [s])[..|reports|] == reports;
    RetriesOfOne(s, more);
  }

  lemma {:induction false} RetriesAgree(logs: seq<Log>, f: Filter)
    requires EachOneQuery(logs, f)
    ensures RetryTotal(MetricsOf(logs, f)) == Count(IsLlmRetry, PooledEvents(logs, f)) as real
  {
    if logs == [] {
      assert PooledEvents(logs, f) == [];
    } else {
      var front, last := logs[..|logs| - 1], logs[|logs| - 1];
      var ls := Selected(last, f);
      assert last in logs && forall log :: log in front ==> log in logs;
      RetriesAgree(front, f);
      RetriesStep(MetricsOf(front, f), SystemOf(ls),
                  Count(IsLlmRetry, PooledEvents(front, f)), Count(IsLlmRetry, ls));
      PoolLast(logs, f);
      CountConcat(IsLlmRetry, PooledEvents(front, f), ls);
      assert Count(IsLlmRetry, PooledEvents(logs, f)) ==
             Count(IsLlmRetry, PooledEvents(front, f)) + Count(IsLlmRetry, ls);
    }
  }

  lemma {:induction false} LatenciesAgree(logs: seq<Log>, f: Filter)
    requires EachOneQuery(logs, f) && EachMeasured(logs, f)
    ensures FilterMap(TailLatency, MetricsOf(logs, f)) == Latencies(PooledEvents(logs, f))
  {
    if logs == [] {
      assert PooledEvents(logs, f) == [];
    } else {
      var front, last := logs[..|logs| - 1], logs[|logs| - 1];
      var ls := Selected(last, f);
      assert last in logs && forall log :: log in front ==> log in logs;
      LatenciesAgree(front, f);
      PoolLast(logs, f);
      FilterMapConcat(EndLatency, PooledEvents(front, f), ls);
      FilterMapLast(TailLatency, MetricsOf(front, f), SystemOf(ls));
      TailOfOne(ls);
    }
  }

  /** The identities of one log, listed once each. */
  lemma IdsOfOne(es: seq<Event>)
    ensures Elements(SystemOf(es).correctionIds) == Elements(Successes(es))
    ensures Elements(SystemOf(es).repairIds) == Elements(Repairs(es))
    ensures |SystemOf(es).correctionIds| <= |Successes(es)|
    ensures |SystemOf(es).correctionIds| == |Successes(es)| <==> Distinct(Successes(es))
    ensures |SystemOf(es).repairIds| <= |Repairs(es)|
    ensures |SystemOf(es).repairIds| == |Repairs(es)| <==> Distinct(Repairs(es))
  {
    SortIdsSorts(Elements(Successes(es)));
    SortIdsSorts(Elements(Repairs(es)));
    DistinctByCardinality(Successes(es));
    DistinctByCardinality(Repairs(es));
  }

  ghost predicate EachDistinct(key: Event -> Option<string>, logs: seq<Log>, f: Filter) {
    forall log :: log in logs ==> Distinct(FilterMap(key, Selected(log, f)))
  }

  lemma {:induction false} CorrectionIdsAgree(logs: seq<Log>, f: Filter)
    ensures Elements(CorrectionIdsOf(MetricsOf(logs, f))) == Elements(Successes(PooledEvents(logs, f)))
    ensures |CorrectionIdsOf(MetricsOf(logs, f))| <= |Successes(PooledEvents(logs, f))|
    ensures |CorrectionIdsOf(MetricsOf(logs, f))| == |Successes(PooledEvents(logs, f))| <==>
            EachDistinct(SuccessKey, logs, f)
  {
    if logs == [] {
      assert PooledEvents(logs, f) == [];
    } else {
      var front, last := logs[..|logs| - 1], logs[|logs| - 1];
      var ls := Selected(last, f);
      assert logs == front + [last];
      CorrectionIdsAgree(front, f);
      PoolLast(logs, f);
      FilterMapConcat(SuccessKey, PooledEvents(front, f), ls);
      IdsOfOne(ls);
      var ms := MetricsOf(logs, f);
      assert ms[..|ms| - 1] == MetricsOf(front, f) && ms[|ms| - 1] == SystemOf(ls);
      ElementsConcat(Successes(PooledEvents(front, f)), Successes(ls));
      ElementsConcat(CorrectionIdsOf(MetricsOf(front, f)), SystemOf(ls).correctionIds);
    }
  }

  lemma {:induction false} RepairIdsAgree(logs: seq<Log>, f: Filter)
    ensures Elements(RepairIdsOf(MetricsOf(logs, f))) == Elements(Repairs(PooledEvents(logs, f)))
    ensures |RepairIdsOf(MetricsOf(logs, f))| <= |Repairs(PooledEvents(logs, f))|
    ensures |RepairIdsOf(MetricsOf(logs, f))| == |Repairs(PooledEvents(logs, f))| <==>
            EachDistinct(RepairKey, logs, f)
  {
    if logs == [] {
      assert PooledEvents(logs, f) == [];
    } else {
      var front, last := logs[..|logs| - 1], logs[|logs| - 1];
      var ls := Selected(last, f);
      assert logs == front + [last];
      RepairIdsAgree(front, f);
      PoolLast(logs, f);
      FilterMapConcat(RepairKey, PooledEvents(front, f), ls);
      IdsOfOne(ls);
      var ms := MetricsOf(logs, f);
      assert ms[..|ms| - 1] == MetricsOf(front, f) && ms[|ms| - 1] == SystemOf(ls);
      ElementsConcat(Repairs(PooledEvents(front, f)), Repairs(ls));
      ElementsConcat(RepairIdsOf(MetricsOf(front, f)), SystemOf(ls).repairIds);
    }
  }

  lemma ElementsConcat<T>(a: seq<T>, b: seq<T>)
    ensures Elements(a + b) == Elements(a) + Elements(b)
  {
  }

  // ----- repeated attempts

  /** No key is attempted in two different logs. */
  ghost predicate Apart(key: Event -> Option<string>, logs: seq<Log>, f: Filter) {
    forall i, j :: 0 <= i < j < |logs| ==>
      Elements(FilterMap(key, Selected(logs[i], f))) !! Elements(FilterMap(key, Selected(logs[j], f)))
  }

  lemma {:induction false} PooledKeys(key: Event -> Option<string>, logs: seq<Log>, f: Filter, k: string)
    ensures k in FilterMap(key, PooledEvents(logs, f)) <==>
            exists i :: 0 <= i < |logs| && k in FilterMap(key, Selected(logs[i], f))
  {
    if logs == [] {
      assert PooledEvents(logs, f) == [];
    } else {
      var front, ls := logs[..|logs| - 1], Selected(logs[|logs| - 1], f);
      PooledKeys(key, front, f, k);
      PoolLast(logs, f);
      FilterMapConcat(key, PooledEvents(front, f), ls);
      if k in FilterMap(key, PooledEvents(front, f)) {
        var i :| 0 <= i < |front| && k in FilterMap(key, Selected(front[i], f));
        assert front[i] == logs[i];
      }
      if i :| 0 <= i < |logs| && k in FilterMap(key, Selected(logs[i], f)) {
        assert i < |front| ==> front[i] == logs[i];
      }
    }
  }

  /** The last log shares no key with the logs before it. */
  ghost predicate LastApart(key: Event -> Option<string>, logs: seq<Log>, f: Filter)
    requires logs != []
  {
    EarlierKeys(key, logs, f) !! Elements(FilterMap(key, Selected(logs[|logs| - 1], f)))
  }

  ghost function EarlierKeys(key: Event -> Option<string>, logs: seq<Log>, f: Filter): set<string>
    requires logs != []
  {
    Elements(FilterMap(key, PooledEvents(logs[..|logs| - 1], f)))
  }

  lemma FrontKeys(key: Event -> Option<string>, logs: seq<Log>, f: Filter)
    requires logs != []
    ensures forall k :: k in EarlierKeys(key, logs, f) <==>
                        exists i :: 0 <= i < |logs| - 1 && k in FilterMap(key, Selected(logs[i], f))
  {
    var front := logs[..|logs| - 1];
    assert forall i :: 0 <= i < |front| ==> front[i] == logs[i];
    forall k ensures k in EarlierKeys(key, logs, f) <==>
                     exists i :: 0 <= i < |front| && k in FilterMap(key, Selected(logs[i], f))
    {
      PooledKeys(key, front, f, k);
    }
  }

  lemma ApartFront(key: Event -> Option<string>, logs: seq<Log>, f: Filter)
    requires logs != [] && Apart(key, logs, f)
    ensures Apart(key, logs[..|logs| - 1], f) && LastApart(key, logs, f)
  {
    FrontKeys(key, logs, f);
    var front := logs[..|logs| - 1];
    assert forall i :: 0 <= i < |front| ==> front[i] == logs[i];
  }

  lemma ApartExtend(key: Event -> Option<string>, logs: seq<Log>, f: Filter)
    requires logs != [] && Apart(key, logs[..|logs| - 1], f) && LastApart(key, logs, f)
    ensures Apart(key, logs, f)
  {
    FrontKeys(key, logs, f);
    var front := logs[..|logs| - 1];
    assert forall i :: 0 <= i < |front| ==> front[i] == logs[i];
  }

  lemma ApartLast(key: Event -> Option<string>, logs: seq<Log>, f: Filter)
    requires logs != []
    ensures Apart(key, logs, f) <==> Apart(key, logs[..|logs| - 1], f) && LastApart(key, logs, f)
  {
    if Apart(key, logs, f) {
      ApartFront(key, logs, f);
    }
    if Apart(key, logs[..|logs| - 1], f) && LastApart(key, logs, f) {
      ApartExtend(key, logs, f);
    }
  }

  lemma DistinctConcat<T>(a: seq<T>, b: seq<T>)
    ensures Distinct(a + b) <==> Distinct(a) && Distinct(b) && Elements(a) !! Elements(b)
  {
    var c := a + b;
    if Distinct(c) {
      forall i, j | 0 <= i < j < |a| ensures a[i] != a[j] { assert c[i] == a[i] && c[j] == a[j]; }
      forall i, j | 0 <= i < j < |b| ensures b[i] != b[j] { assert c[|a| + i] == b[i] && c[|a| + j] == b[j]; }
    }
    forall x | x in a && x in b ensures !Distinct(c) {
      var i :| 0 <= i < |a| && a[i] == x;
      var j :| 0 <= j < |b| && b[j] == x;
      assert c[i] == c[|a| + j];
    }
    if Distinct(a) && Distinct(b) && Elements(a) !! Elements(b) {
      forall i, j | 0 <= i < j < |c| ensures c[i] != c[j] {
        assert i < |a| <= j ==> c[i] in Elements(a) && c[j] in Elements(b);
      }
    }
  }

  /** A pooled log repeats no key exactly when no single log repeats one and no
      two logs share one. */
  lemma {:induction false} DistinctOverPool(key: Event -> Option<string>, logs: seq<Log>, f: Filter)
    ensures Distinct(FilterMap(key, PooledEvents(logs, f))) <==> EachDistinct(key, logs, f) && Apart(key, logs, f)
  {
    if logs == [] {
      assert PooledEvents(logs, f) == [];
    } else {
      var front, last := logs[..|logs| - 1], logs[|logs| - 1];
      assert logs == front + [last];
      DistinctOverPool(key, front, f);
      ApartLast(key, logs, f);
      PoolLast(logs, f);
      FilterMapConcat(key, PooledEvents(front, f), Selected(last, f));
      DistinctConcat(FilterMap(key, PooledEvents(front, f)), FilterMap(key, Selected(last, f)));
    }
  }

  lemma MaxOfOne(es: seq<Event>)
    ensures SystemOf(es).maxCorrections <= 1 <==> Distinct(Corrections(es))
    ensures SystemOf(es).maxRepairs <= 1 <==> Distinct(Repairs(es))
  {
    MultisetKeys(Corrections(es));
    MultisetKeys(Repairs(es));
  }

  lemma MaximaLast(reports: seq<SystemMetrics>, s: SystemMetrics)
    ensures MaxCorrectionsOf(reports + [s]) == Max(MaxCorrectionsOf(reports), s.maxCorrections)
    ensures MaxRepairsOf(reports + [s]) == Max(MaxRepairsOf(reports), s.maxRepairs)
  {
    assert (reports + [s])[..|reports|] == reports;
  }

  lemma {:induction false} MergedMaxima(logs: seq<Log>, f: Filter)
    ensures MaxCorrectionsOf(MetricsOf(logs, f)) <= 1 <==> EachDistinct(CorrectionKey, logs, f)
    ensures MaxRepairsOf(MetricsOf(logs, f)) <= 1 <==> EachDistinct(RepairKey, logs, f)
  {
    if logs != [] {
      var front, last := logs[..|logs| - 1], logs[|logs| - 1];
      assert logs == front + [last];
      MergedMaxima(front, f);
      MaxOfOne(Selected(last, f));
      MaximaLast(MetricsOf(front, f), SystemOf(Selected(last, f)));
    }
  }

  /** Over separate traces the busiest trace of the pool is the busiest of some log. */
  lemma {:induction false} MaximaAgree(logs: seq<Log>, f: Filter)
    requires Apart(CorrectionKey, logs, f) && Apart(RepairKey, logs, f)
    ensures MaxCorrectionsOf(MetricsOf(logs, f)) == MaxCount(multiset(Corrections(PooledEvents(logs, f))))
    ensures MaxRepairsOf(MetricsOf(logs, f)) == MaxCount(multiset(Repairs(PooledEvents(logs, f))))
  {
    if logs == [] {
      assert PooledEvents(logs, f) == [];
    } else {
      var front, ls := logs[..|logs| - 1], Selected(logs[|logs| - 1], f);
      var es := PooledEvents(front, f);
      ApartLast(CorrectionKey, logs, f);
      ApartLast(RepairKey, logs, f);
      MaximaAgree(front, f);
      PoolLast(logs, f);
      MaxOverConcat(CorrectionKey, es, ls);
      MaxOverConcat(RepairKey, es, ls);
      MaximaLast(MetricsOf(front, f), SystemOf(ls));
    }
  }

  lemma MaxOverConcat(key: Event -> Option<string>, a: seq<Event>, b: seq<Event>)
    requires Elements(FilterMap(key, a)) !! Elements(FilterMap(key, b))
    ensures MaxCount(multiset(FilterMap(key, a + b))) ==
            Max(MaxCount(multiset(FilterMap(key, a))), MaxCount(multiset(FilterMap(key, b))))
  {
    FilterMapConcat(key, a, b);
    MultisetKeys(FilterMap(key, a));
    MultisetKeys(FilterMap(key, b));
    MaxCountDisjoint(multiset(FilterMap(key, a)), multiset(FilterMap(key, b)));
  }

  // ----- failed corrections

  lemma {:induction false} CorrectionsSplit(es: seq<Event>)
    ensures |Corrections(es)| == |Successes(es)| + Count(IsCorrectionError, es)
    ensures Count(IsCorrectionError, es) == 0 ==> Successes(es) == Corrections(es)
  {
    if es != [] {
      CorrectionsSplit(es[..|es| - 1]);
    }
  }

  lemma {:induction false} ErrorFreeLogs(logs: seq<Log>, f: Filter)
    requires Count(IsCorrectionError, PooledEvents(logs, f)) == 0
    ensures EachDistinct(SuccessKey, logs, f) <==> EachDistinct(CorrectionKey, logs, f)
  {
    if logs != [] {
      var front, last := logs[..|logs| - 1], logs[|logs| - 1];
      assert logs == front + [last];
      PoolLast(logs, f);
      CountConcat(IsCorrectionError, PooledEvents(front, f), Selected(last, f));
      ErrorFreeLogs(front, f);
      CorrectionsSplit(Selected(last, f));
    }
  }

  lemma RatesCompare(few: nat, many: nat, queries: nat)
    requires queries > 0
    ensures few <= many ==> few as real / queries as real <= PerQuery(many, queries)
    ensures few as real / queries as real == PerQuery(many, queries) <==> few == many
    ensures few as real / queries as real <= 1.0 <==> few <= queries
  {
    DivideOrder(few as real, many as real, queries as real);
    DivideOrder(few as real, queries as real, queries as real);
  }

  // ----- the main results on traces

  ghost function Pooled(logs: seq<Log>, f: Filter): SystemMetrics {
    SystemOf(PooledEvents(logs, f))
  }

  ghost function Merged(logs: seq<Log>, f: Filter): SystemMetrics
    requires AggregateTraces(MetricsOf(logs, f)).Ok?
  {
    AggregateTraces(MetricsOf(logs, f)).value
  }

  /** The merge of single-query logs succeeds exactly when each log is measured. */
  lemma MergeSucceeds(logs: seq<Log>, f: Filter)
    requires logs != [] && EachOneQuery(logs, f)
    ensures AggregateTraces(MetricsOf(logs, f)).Ok? <==> EachMeasured(logs, f)
  {
    AllNumeric(logs, f);
    QueriesAgree(logs, f);
  }

  lemma PooledPercentiles(logs: seq<Log>, f: Filter)
    requires logs != [] && EachOneQuery(logs, f) && EachMeasured(logs, f)
    ensures AggregateTraces(MetricsOf(logs, f)).Ok?
    ensures Merged(logs, f).latencyP50 == Pooled(logs, f).latencyP50
    ensures Merged(logs, f).latencyP95 == Pooled(logs, f).latencyP95
  {
    MergeSucceeds(logs, f);
    LatenciesAgree(logs, f);
    NumericLatencies(MetricsOf(logs, f));
    NearestRankCodesAgree(Latencies(PooledEvents(logs, f)), P50);
    NearestRankCodesAgree(Latencies(PooledEvents(logs, f)), P95);
  }

  /** The merged totals and percentiles are those of the pooled log; its
      identities are the same set. */
  lemma MergedMatchesPooled(logs: seq<Log>, f: Filter)
    requires logs != [] && EachOneQuery(logs, f) && EachMeasured(logs, f)
    ensures AggregateTraces(MetricsOf(logs, f)).Ok?
    ensures var m, p := Merged(logs, f), Pooled(logs, f);
            && m.queryCount == p.queryCount == |logs|
            && m.latencyP50 == p.latencyP50 && m.latencyP95 == p.latencyP95
            && m.estimatedCost == p.estimatedCost
            && m.correctionErrors == p.correctionErrors
            && m.retryRate == p.retryRate
            && Elements(m.correctionIds) == Elements(p.correctionIds)
            && Elements(m.repairIds) == Elements(p.repairIds)
  {
    MergeSucceeds(logs, f);
    PooledPercentiles(logs, f);
    QueriesAgree(logs, f);
    CostsAgree(logs, f);
    ErrorsAgree(logs, f);
    RetriesAgree(logs, f);
    CorrectionIdsAgree(logs, f);
    RepairIdsAgree(logs, f);
    IdsOfOne(PooledEvents(logs, f));
  }

  /** Merged attempt rates never exceed the pooled ones, because the merge counts
      distinct successful traces and the pool counts attempts. They are exact
      precisely when the gate's own checks hold. */
  lemma MergedRatesUnderCount(logs: seq<Log>, f: Filter)
    requires logs != [] && EachOneQuery(logs, f) && EachMeasured(logs, f)
    ensures AggregateTraces(MetricsOf(logs, f)).Ok?
    ensures var m, p := Merged(logs, f), Pooled(logs, f);
            && m.correctionRate <= p.correctionRate
            && m.repairRate <= p.repairRate
            && (m.correctionRate == p.correctionRate <==> m.correctionErrors == 0 && m.maxCorrections <= 1)
            && (m.repairRate == p.repairRate <==> m.maxRepairs <= 1)
  {
    MergeSucceeds(logs, f);
    var es, ms := PooledEvents(logs, f), MetricsOf(logs, f);
    QueriesAgree(logs, f);
    ErrorsAgree(logs, f);
    CorrectionIdsAgree(logs, f);
    RepairIdsAgree(logs, f);
    CorrectionsSplit(es);
    MergedMaxima(logs, f);
    if Count(IsCorrectionError, es) == 0 {
      ErrorFreeLogs(logs, f);
    }
    RatesCompare(|CorrectionIdsOf(ms)|, |Corrections(es)|, |logs|);
    RatesCompare(|RepairIdsOf(ms)|, |Repairs(es)|, |logs|);
  }

  /** Passing the attempt budgets, in the pool and in the merge. */
  lemma AttemptBudgets(logs: seq<Log>, f: Filter)
    requires logs != [] && EachOneQuery(logs, f) && EachMeasured(logs, f)
    ensures AggregateTraces(MetricsOf(logs, f)).Ok?
    ensures Merged(logs, f).maxCorrections <= 1 <==> EachDistinct(CorrectionKey, logs, f)
    ensures Merged(logs, f).maxRepairs <= 1 <==> EachDistinct(RepairKey, logs, f)
    ensures Pooled(logs, f).maxCorrections <= 1 <==>
            EachDistinct(CorrectionKey, logs, f) && Apart(CorrectionKey, logs, f)
    ensures Pooled(logs, f).maxRepairs <= 1 <==>
            EachDistinct(RepairKey, logs, f) && Apart(RepairKey, logs, f)
  {
    MergeSucceeds(logs, f);
    MergedMaxima(logs, f);
    DistinctOverPool(CorrectionKey, logs, f);
    DistinctOverPool(RepairKey, logs, f);
    MaxOfOne(PooledEvents(logs, f));
  }

  /** The gate's verdict on the pooled logs is its verdict on the merged reports,
      provided no attempt key recurs across candidate logs; and a recurring key
      is the only way the two can differ. */
  lemma VerdictOfPool(
    baselineEval: EvalReport, candidateEval: EvalReport, baseline: seq<Log>, candidate: seq<Log>, f: Filter)
    requires baseline != [] && EachOneQuery(baseline, f) && EachMeasured(baseline, f)
    requires candidate != [] && EachOneQuery(candidate, f) && EachMeasured(candidate, f)
    ensures AggregateTraces(MetricsOf(baseline, f)).Ok? && AggregateTraces(MetricsOf(candidate, f)).Ok?
    ensures Passed(CompareReports(baselineEval, candidateEval, Pooled(baseline, f), Pooled(candidate, f))) <==>
            && Passed(CompareReports(baselineEval, candidateEval, Merged(baseline, f), Merged(candidate, f)))
            && Apart(CorrectionKey, candidate, f) && Apart(RepairKey, candidate, f)
  {
    MergedMatchesPooled(baseline, f);
    MergedMatchesPooled(candidate, f);
    MergedRatesUnderCount(candidate, f);
    AttemptBudgets(candidate, f);
    SameVerdict(baselineEval, candidateEval, Merged(baseline, f), Merged(candidate, f),
                Pooled(baseline, f), Pooled(candidate, f));
  }

  /** The gate reads the identities as a set and the rates only as bounds. */
  lemma SameVerdict(
    baselineEval: EvalReport, candidateEval: EvalReport,
    mb: SystemMetrics, mc: SystemMetrics, pb: SystemMetrics, pc: SystemMetrics)
    requires mb.latencyP95 == pb.latencyP95 && mb.estimatedCost == pb.estimatedCost
    requires mc.latencyP95 == pc.latencyP95 && mc.estimatedCost == pc.estimatedCost
    requires mc.correctionErrors == pc.correctionErrors && mc.retryRate == pc.retryRate
    requires Elements(mc.correctionIds) == Elements(pc.correctionIds)
    requires Elements(mc.repairIds) == Elements(pc.repairIds)
    requires mc.correctionRate <= pc.correctionRate && mc.repairRate <= pc.repairRate
    requires mc.correctionErrors == 0 && mc.maxCorrections <= 1 ==> mc.correctionRate == pc.correctionRate
    requires mc.maxRepairs <= 1 ==> mc.repairRate == pc.repairRate
    requires pc.maxCorrections <= 1 ==> mc.maxCorrections <= 1
    requires pc.maxRepairs <= 1 ==> mc.maxRepairs <= 1
    ensures Passed(CompareReports(baselineEval, candidateEval, pb, pc)) <==>
            && Passed(CompareReports(baselineEval, candidateEval, mb, mc))
            && pc.maxCorrections <= 1 && pc.maxRepairs <= 1
  {
    assert forall id :: id in mc.correctionIds <==> id in Elements(mc.correctionIds);
    assert forall id :: id in mc.repairIds <==> id in Elements(mc.repairIds);
    assert forall id :: id in pc.correctionIds <==> id in Elements(pc.correctionIds);
    assert forall id :: id in pc.repairIds <==> id in Elements(pc.repairIds);
    var m := CompareReports(baselineEval, candidateEval, mb, mc);
    var p := CompareReports(baselineEval, candidateEval, pb, pc);
    assert m.requiredCorrectionsExercised == p.requiredCorrectionsExercised;
    assert m.requiredRepairsExercised == p.requiredRepairsExercised;
  }

  // ----- what keeps attempt keys apart

  /** No two logs name the same trace. */
  ghost predicate DisjointTraces(logs: seq<Log>, f: Filter) {
    forall i, j :: 0 <= i < j < |logs| ==>
      forall a, b :: a in Selected(logs[i], f) && b in Selected(logs[j], f) && a.traceId != "" ==>
        a.traceId != b.traceId
  }

  /** Every correction or repair attempt names its trace. */
  ghost predicate AttemptsNamed(logs: seq<Log>, f: Filter) {
    forall i :: 0 <= i < |logs| ==>
      forall e :: e in Selected(logs[i], f) && (CorrectionKey(e).Some? || RepairKey(e).Some?) ==> e.traceId != ""
  }

  lemma DisjointTracesApart(key: Event -> Option<string>, logs: seq<Log>, f: Filter)
    requires key == CorrectionKey || key == RepairKey
    requires DisjointTraces(logs, f) && AttemptsNamed(logs, f)
    ensures Apart(key, logs, f)
  {
    forall i, j | 0 <= i < j < |logs|
      ensures Elements(FilterMap(key, Selected(logs[i], f))) !! Elements(FilterMap(key, Selected(logs[j], f)))
    {
      var es, ls := Selected(logs[i], f), Selected(logs[j], f);
      forall k ensures k !in FilterMap(key, es) || k !in FilterMap(key, ls) {
        FilterMapMember(key, es, k);
        FilterMapMember(key, ls, k);
        if a :| a in es && key(a) == Some(k) {
          assert k == a.traceId && k != "";
          assert forall b :: b in ls && key(b) == Some(k) ==> b.traceId == k;
        }
      }
    }
  }

  // ----- a shared missing identity is where merge and pool part ways

  const NO_SPLIT := Split(None, None, None, None, None, None, None, None)

  const EVALUATION_ONLY := Filter({EVALUATION}, None, None)

  function PlainEvent(name: EventName, traceId: string): Event {
    Event(EVALUATION, Some(0), name, traceId, false, false, false, map[], false, false, None,
          if name.RagEnd? then Some(1) else None, name.CorrectiveRetrieval?, name.ClaimRepair?, None,
          if name.RagEnd? then Some(100) else None, NO_SPLIT)
  }

  /** A query that ends at once. */
  function QuietLog(traceId: string): Log {
    [Parsed(PlainEvent(RagEnd, traceId))]
  }

  /** A query with one correction that names no trace. */
  function AnonymousLog(traceId: string): Log {
    [Parsed(PlainEvent(CorrectiveRetrieval, ""))] + QuietLog(traceId)
  }

  /** A query with one correction and one repair of its own trace. */
  function WorkedLog(traceId: string): Log {
    [Parsed(PlainEvent(CorrectiveRetrieval, traceId)), Parsed(PlainEvent(ClaimRepair, traceId))] + QuietLog(traceId)
  }

  /** What a log of one clean, measured query holds. */
  ghost predicate Clean(es: seq<Event>, corrections: seq<string>, repairs: seq<string>) {
    && OneQuery(es) && Latencies(es) == [100] && Cost(es) == 1
    && Corrections(es) == corrections && Successes(es) == corrections && Repairs(es) == repairs
    && Count(IsCorrectionError, es) == 0 && Count(IsLlmRetry, es) == 0
  }

  lemma CleanLast(es: seq<Event>, corrections: seq<string>, repairs: seq<string>, traceId: string)
    requires Corrections(es) == Successes(es) == corrections && Repairs(es) == repairs
    requires Count(IsQueryEnd, es) == 0 && Latencies(es) == [] && Cost(es) == 0
    requires Count(IsCorrectionError, es) == 0 && Count(IsLlmRetry, es) == 0
    ensures Clean(es + [PlainEvent(RagEnd, traceId)], corrections, repairs)
  {
    hide FilterMap, Count, Sum;
    var e := PlainEvent(RagEnd, traceId);
    FilterMapLast(CorrectionKey, es, e);
    FilterMapLast(SuccessKey, es, e);
    FilterMapLast(RepairKey, es, e);
    FilterMapLast(EndLatency, es, e);
    FilterMapLast(CostEntry, es, e);
    SumLast(FilterMap(CostEntry, es), 1);
    CountLast(IsQueryEnd, es, e);
    CountLast(IsCorrectionError, es, e);
    CountLast(IsLlmRetry, es, e);
  }

  lemma QuietEvents(traceId: string)
    ensures Clean(Selected(QuietLog(traceId), EVALUATION_ONLY), [], [])
  {
    hide Clean, FilterMap;
    CleanStart();
    CleanLast([], [], [], traceId);
    var e := PlainEvent(RagEnd, traceId);
    FilterMapEmpty(Select(EVALUATION_ONLY));
    FilterMapLast(Select(EVALUATION_ONLY), [], Parsed(e));
    assert [] + [Parsed(e)] == QuietLog(traceId) && [] + [e] == [e];
  }

  lemma CleanStart()
    ensures Corrections([]) == Successes([]) == Repairs([]) == [] && Latencies([]) == []
    ensures Cost([]) == 0 && Count(IsQueryEnd, []) == 0 && Count(IsCorrectionError, []) == 0
    ensures Count(IsLlmRetry, []) == 0
  {
  }

  lemma AnonymousEvents(traceId: string)
    ensures Clean(Selected(AnonymousLog(traceId), EVALUATION_ONLY), [MISSING], [])
  {
    hide FilterMap, Count, Clean;
    var c, e := PlainEvent(CorrectiveRetrieval, ""), PlainEvent(RagEnd, traceId);
    FilterMapOfTwo(Select(EVALUATION_ONLY), Parsed(c), Parsed(e));
    assert AnonymousLog(traceId) == [Parsed(c), Parsed(e)];
    AttemptAlone(c);
    CleanLast([c], [MISSING], [], traceId);
    assert [c] + [e] == [c, e];
  }

  lemma AttemptAlone(c: Event)
    requires c == PlainEvent(CorrectiveRetrieval, c.traceId)
    ensures Corrections([c]) == Successes([c]) == [KeyOf(c)] && Repairs([c]) == []
    ensures Count(IsQueryEnd, [c]) == 0 && Latencies([c]) == [] && Cost([c]) == 0
    ensures Count(IsCorrectionError, [c]) == 0 && Count(IsLlmRetry, [c]) == 0
  {
    hide FilterMap, Count, Sum;
    CleanStart();
    FilterMapLast(CorrectionKey, [], c);
    FilterMapLast(SuccessKey, [], c);
    FilterMapLast(RepairKey, [], c);
    FilterMapLast(EndLatency, [], c);
    FilterMapLast(CostEntry, [], c);
    SumLast(FilterMap(CostEntry, []), 0);
    CountLast(IsQueryEnd, [], c);
    CountLast(IsCorrectionError, [], c);
    CountLast(IsLlmRetry, [], c);
    assert [] + [c] == [c];
  }

  lemma WorkedEvents(traceId: string)
    requires traceId != ""
    ensures Clean(Selected(WorkedLog(traceId), EVALUATION_ONLY), [traceId], [traceId])
  {
    hide FilterMap, Count, Clean, Sum;
    var c, r := PlainEvent(CorrectiveRetrieval, traceId), PlainEvent(ClaimRepair, traceId);
    var e := PlainEvent(RagEnd, traceId);
    var f := Select(EVALUATION_ONLY);
    FilterMapOfTwo(f, Parsed(c), Parsed(r));
    FilterMapLast(f, [Parsed(c), Parsed(r)], Parsed(e));
    AttemptAlone(c);
    RepairAfter([c], r);
    CleanLast([c] + [r], [traceId], [traceId], traceId);
    assert [c, r] + [e] == [c] + [r] + [e];
  }

  lemma RepairAfter(es: seq<Event>, r: Event)
    requires r == PlainEvent(ClaimRepair, r.traceId) && r.traceId != ""
    ensures Corrections(es + [r]) == Corrections(es) && Successes(es + [r]) == Successes(es)
    ensures Repairs(es + [r]) == Repairs(es) + [r.traceId]
    ensures Count(IsQueryEnd, es + [r]) == Count(IsQueryEnd, es) && Latencies(es + [r]) == Latencies(es)
    ensures Cost(es + [r]) == Cost(es) && Count(IsCorrectionError, es + [r]) == Count(IsCorrectionError, es)
    ensures Count(IsLlmRetry, es + [r]) == Count(IsLlmRetry, es)
  {
    hide FilterMap, Count, Sum;
    FilterMapLast(CorrectionKey, es, r);
    FilterMapLast(SuccessKey, es, r);
    FilterMapLast(RepairKey, es, r);
    FilterMapLast(EndLatency, es, r);
    FilterMapLast(CostEntry, es, r);
    SumLast(FilterMap(CostEntry, es), 0);
    CountLast(IsQueryEnd, es, r);
    CountLast(IsCorrectionError, es, r);
    CountLast(IsLlmRetry, es, r);
    assert Latencies(es) + [] == Latencies(es);
  }

  lemma PoolOfThree(x: Log, y: Log, z: Log, f: Filter)
    ensures PooledEvents([x, y, z], f) == Selected(x, f) + Selected(y, f) + Selected(z, f)
  {
    PoolLast([x, y, z], f);
    PoolLast([x, y], f);
    PoolLast([x], f);
    assert [x, y, z][..2] == [x, y] && [x, y][..1] == [x] && [x][..0] == [];
    assert PooledEvents([], f) == [];
  }

  lemma FilterMapOfThree<T, U>(f: T -> Option<U>, x: seq<T>, y: seq<T>, z: seq<T>)
    ensures FilterMap(f, x + y + z) == FilterMap(f, x) + FilterMap(f, y) + FilterMap(f, z)
  {
    FilterMapConcat(f, x + y, z);
    FilterMapConcat(f, x, y);
  }

  lemma CountOfThree<T>(p: T -> bool, x: seq<T>, y: seq<T>, z: seq<T>)
    ensures Count(p, x + y + z) == Count(p, x) + Count(p, y) + Count(p, z)
  {
    CountConcat(p, x + y, z);
    CountConcat(p, x, y);
  }

  /** The metrics of three clean logs in one pool, as far as the gate reads them. */
  lemma PoolOfThreeClean(
    logs: seq<Log>, f: Filter,
    a: seq<string>, b: seq<string>, c: seq<string>, ra: seq<string>, rb: seq<string>, rc: seq<string>)
    requires |logs| == 3
    requires Clean(Selected(logs[0], f), a, ra) && Clean(Selected(logs[1], f), b, rb)
    requires Clean(Selected(logs[2], f), c, rc)
    ensures var p := Pooled(logs, f);
            && p.queryCount == 3 && p.estimatedCost == 3 && p.correctionErrors == 0 && p.retryRate == 0.0
            && p.latencyP95 == MetricRank([100, 100, 100], P95)
            && p.correctionRate == PerQuery(|a + b + c|, 3) && p.repairRate == PerQuery(|ra + rb + rc|, 3)
            && Elements(p.correctionIds) == Elements(a + b + c)
            && Elements(p.repairIds) == Elements(ra + rb + rc)
  {
    hide FilterMap, Count, Sum, MetricRank, SortIds, MaxCount;
    var x, y, z := Selected(logs[0], f), Selected(logs[1], f), Selected(logs[2], f);
    assert logs == [logs[0], logs[1], logs[2]];
    PoolOfThree(logs[0], logs[1], logs[2], f);
    FilterMapOfThree(CorrectionKey, x, y, z);
    FilterMapOfThree(SuccessKey, x, y, z);
    FilterMapOfThree(RepairKey, x, y, z);
    FilterMapOfThree(EndLatency, x, y, z);
    FilterMapOfThree(CostEntry, x, y, z);
    SumConcat(FilterMap(CostEntry, x) + FilterMap(CostEntry, y), FilterMap(CostEntry, z));
    SumConcat(FilterMap(CostEntry, x), FilterMap(CostEntry, y));
    CountOfThree(IsQueryEnd, x, y, z);
    CountOfThree(IsCorrectionError, x, y, z);
    CountOfThree(IsLlmRetry, x, y, z);
    assert [100] + [100] + [100] == [100, 100, 100];
    IdsOfOne(PooledEvents(logs, f));
  }

  lemma CleanQualifies(logs: seq<Log>, f: Filter)
    requires forall log :: log in logs ==> exists cs, rs :: Clean(Selected(log, f), cs, rs) && |cs| <= 1 && |rs| <= 1
    ensures EachOneQuery(logs, f) && EachMeasured(logs, f)
    ensures EachDistinct(CorrectionKey, logs, f) && EachDistinct(RepairKey, logs, f)
  {
  }

  const CAUTIOUS_FLAGS := map["crag" := "true", "claim_repair" := "true", "semantic_cache" := "false"]

  function PassedCase(traceId: string, fixture: bool): CaseResult {
    CaseResult(traceId, Some(traceId), true, false, fixture, fixture)
  }

  /** Three passed cases, the third of which requires a correction and a repair. */
  function Evaluation(a: string, b: string, c: string): EvalReport {
    EvalReport(3, 3, 0, 0, 0, CAUTIOUS_FLAGS, map[],
               [PassedCase(a, false), PassedCase(b, false)] + [PassedCase(c, true)])
  }

  lemma EvaluationChecks(a: string, b: string, c: string)
    ensures var r := Evaluation(a, b, c);
            && FilterMap(CorrectionNeeded, r.cases) == [Some(c)] && FilterMap(RepairNeeded, r.cases) == [Some(c)]
            && Count(IsProviderFailure, r.cases) == 0
            && Flag(r, "crag") == "true" && Flag(r, "claim_repair") == "true" && Flag(r, "semantic_cache") == "false"
  {
    hide FilterMap, Count;
    var x, y, z := PassedCase(a, false), PassedCase(b, false), PassedCase(c, true);
    FilterMapOfTwo(CorrectionNeeded, x, y);
    FilterMapLast(CorrectionNeeded, [x, y], z);
    FilterMapOfTwo(RepairNeeded, x, y);
    FilterMapLast(RepairNeeded, [x, y], z);
    CountOfTwo(IsProviderFailure, x, y);
    CountLast(IsProviderFailure, [x, y], z);
    assert Fold("true") == "true" && Fold("false") == "false";
  }

  /** The gate passes clean metrics of the evaluation's three cases. */
  lemma EvaluationPasses(a: string, b: string, c: string, baseline: SystemMetrics, candidate: SystemMetrics)
    requires candidate.correctionErrors == 0 && candidate.retryRate <= 2.0
    requires candidate.correctionRate <= 1.0 && candidate.maxCorrections <= 1
    requires candidate.repairRate <= 1.0 && candidate.maxRepairs <= 1
    requires c in candidate.correctionIds && c in candidate.repairIds
    requires baseline.estimatedCost == candidate.estimatedCost >= 0
    requires baseline.latencyP95 == candidate.latencyP95 && baseline.latencyP95.Some? && baseline.latencyP95.value >= 0
    ensures Passed(CompareReports(Evaluation(a, b, c), Evaluation(a, b, c), baseline, candidate))
  {
    hide FilterMap, Count, Flag;
    EvaluationChecks(a, b, c);
    var latency := baseline.latencyP95.value as real;
    assert latency <= latency * MAX_LATENCY_RATIO;
  }

  /** The three candidate logs: two anonymous corrections and one worked case. */
  function SplitLogs(a: string, b: string, c: string): seq<Log> {
    [AnonymousLog(a), AnonymousLog(b), WorkedLog(c)]
  }

  function QuietLogs(a: string, b: string, c: string): seq<Log> {
    [QuietLog(a), QuietLog(b), QuietLog(c)]
  }

  lemma SplitLogsQualify(a: string, b: string, c: string)
    requires c != ""
    ensures var logs := SplitLogs(a, b, c);
            && EachOneQuery(logs, EVALUATION_ONLY) && EachMeasured(logs, EVALUATION_ONLY)
            && EachDistinct(CorrectionKey, logs, EVALUATION_ONLY) && EachDistinct(RepairKey, logs, EVALUATION_ONLY)
            && !Apart(CorrectionKey, logs, EVALUATION_ONLY)
  {
    hide FilterMap, Count, Sum;
    AnonymousEvents(a);
    AnonymousEvents(b);
    WorkedEvents(c);
    CleanQualifies(SplitLogs(a, b, c), EVALUATION_ONLY);
    var logs := SplitLogs(a, b, c);
    assert MISSING in Elements(FilterMap(CorrectionKey, Selected(logs[0], EVALUATION_ONLY)));
    assert MISSING in Elements(FilterMap(CorrectionKey, Selected(logs[1], EVALUATION_ONLY)));
  }

  lemma QuietLogsQualify(a: string, b: string, c: string)
    ensures EachOneQuery(QuietLogs(a, b, c), EVALUATION_ONLY) && EachMeasured(QuietLogs(a, b, c), EVALUATION_ONLY)
  {
    hide FilterMap, Count, Sum;
    QuietEvents(a);
    QuietEvents(b);
    QuietEvents(c);
    CleanQualifies(QuietLogs(a, b, c), EVALUATION_ONLY);
  }

  lemma SplitPool(a: string, b: string, c: string)
    requires c != ""
    ensures var p := Pooled(SplitLogs(a, b, c), EVALUATION_ONLY);
            && p.queryCount == 3 && p.estimatedCost == 3 && p.correctionErrors == 0 && p.retryRate == 0.0
            && p.latencyP95 == MetricRank([100, 100, 100], P95)
            && p.correctionRate <= 1.0 && p.repairRate <= 1.0 && c in p.correctionIds && c in p.repairIds
  {
    hide Pooled, Clean, MetricRank;
    AnonymousEvents(a);
    AnonymousEvents(b);
    WorkedEvents(c);
    PoolOfThreeClean(SplitLogs(a, b, c), EVALUATION_ONLY, [MISSING], [MISSING], [c], [], [], [c]);
    assert c in [MISSING] + [MISSING] + [c] && c in [] + [] + [c];
    var p := Pooled(SplitLogs(a, b, c), EVALUATION_ONLY);
    assert c in Elements(p.correctionIds) && c in Elements(p.repairIds);
  }

  lemma QuietPool(a: string, b: string, c: string)
    ensures var p := Pooled(QuietLogs(a, b, c), EVALUATION_ONLY);
            p.estimatedCost == 3 && p.latencyP95 == MetricRank([100, 100, 100], P95)
  {
    hide Pooled, Clean, MetricRank;
    QuietEvents(a);
    QuietEvents(b);
    QuietEvents(c);
    PoolOfThreeClean(QuietLogs(a, b, c), EVALUATION_ONLY, [], [], [], [], [], []);
  }

  /** Three candidate logs that name different traces, two of them with a
      correction that names none: the gate passes on the merged reports and fails
      on the pooled logs. */
  lemma AnonymousCorrectionsSplitVerdict(a: string, b: string, c: string)
    requires a != b && b != c && a != c && c != ""
    ensures DisjointTraces(SplitLogs(a, b, c), EVALUATION_ONLY)
    ensures AggregateTraces(MetricsOf(SplitLogs(a, b, c), EVALUATION_ONLY)).Ok?
    ensures AggregateTraces(MetricsOf(QuietLogs(a, b, c), EVALUATION_ONLY)).Ok?
    ensures Passed(CompareReports(Evaluation(a, b, c), Evaluation(a, b, c),
                                  Merged(QuietLogs(a, b, c), EVALUATION_ONLY),
                                  Merged(SplitLogs(a, b, c), EVALUATION_ONLY)))
    ensures !Passed(CompareReports(Evaluation(a, b, c), Evaluation(a, b, c),
                                   Pooled(QuietLogs(a, b, c), EVALUATION_ONLY),
                                   Pooled(SplitLogs(a, b, c), EVALUATION_ONLY)))
  {
    hide Merged, Pooled, Passed, CompareReports, MetricRank;
    hide EachOneQuery, EachMeasured, EachDistinct, Apart, DisjointTraces;
    var f, baseline, logs := EVALUATION_ONLY, QuietLogs(a, b, c), SplitLogs(a, b, c);
    SplitLogsDisjoint(a, b, c);
    SplitLogsQualify(a, b, c);
    QuietLogsQualify(a, b, c);
    SplitPool(a, b, c);
    QuietPool(a, b, c);
    MergedMatchesPooled(baseline, f);
    MergedMatchesPooled(logs, f);
    MergedRatesUnderCount(logs, f);
    AttemptBudgets(logs, f);
    HundredRank();
    assert c in Elements(Merged(logs, f).correctionIds) && c in Elements(Merged(logs, f).repairIds);
    EvaluationPasses(a, b, c, Merged(baseline, f), Merged(logs, f));
    VerdictOfPool(Evaluation(a, b, c), Evaluation(a, b, c), baseline, logs, f);
  }

  lemma HundredRank()
    ensures MetricRank([100, 100, 100], P95) == Some(100)
  {
    var values := [100, 100, 100];
    NearestRankCodesAgree(values, P95);
    NearestRankIsLeast(values, P95);
    assert forall v :: v in values ==> v == 100;
  }

  lemma LogNamesTrace(log: Log, traceId: string, e: Event)
    requires log == AnonymousLog(traceId) || log == WorkedLog(traceId)
    requires e in Selected(log, EVALUATION_ONLY)
    ensures e.traceId == "" || e.traceId == traceId
  {
    FilterMapMember(Select(EVALUATION_ONLY), log, e);
  }

  lemma SplitLogsDisjoint(a: string, b: string, c: string)
    requires a != b && b != c && a != c
    ensures DisjointTraces(SplitLogs(a, b, c), EVALUATION_ONLY)
  {
    hide Selected, AnonymousLog, WorkedLog;
    var logs, names := SplitLogs(a, b, c), [a, b, c];
    forall i, x | 0 <= i < |logs| && x in Selected(logs[i], EVALUATION_ONLY)
      ensures x.traceId == "" || x.traceId == names[i]
    {
      LogNamesTrace(logs[i], names[i], x);
    }
    assert forall i, j :: 0 <= i < j < |names| ==> names[i] != names[j];
  }
}

/** When a decomposition arm is admitted, in terms of the fields of its evaluation,
    of the events in the snapshot's window and of those in the appended log. */
module AdmissionMeaning {
  import opened Collections
  import opened Strings
  import opened TraceEvents
  import opened TraceSnapshot
  import opened SnapshotMeaning
  import opened RolloutGate
  import opened TraceAdmission

  /** A decomposition that says it was split deterministically. */
  predicate DeclaredSplit(e: Event) {
    && e.name == QueryDecomposition && "deterministic_fallback" in e.fallbackFields
    && e.fallbackFields["deterministic_fallback"] == JsonTrue
  }

  /** ... of an expected trace, falling back in no other way, into two or three
      fully covered parts, without planner, tokens, cost, overflow or timeout. */
  predicate LocalSplit(e: Event, ids: seq<string>) {
    && DeclaredSplit(e) && e.context == "evaluation" && e.traceId in ids
    && (forall k :: k in e.fallbackFields ==> Fold(k) == "deterministic_fallback")
    && e.split.intentCount in [Some(2), Some(3)] && e.split.subqueryCount == e.split.intentCount
    && e.split.coverage.Some? && Some(|e.split.coverage.value|) == e.split.intentCount
    && false !in e.split.coverage.value
    && e.split.intentOverflow == Some(false) && e.split.deadlineExceeded == Some(false)
    && e.split.plannerCount == e.split.inputTokens == e.split.outputTokens == Some(0)
    && e.estimatedCost == e.exclusiveCost == Some(0)
  }

  lemma StrictExactly(e: Event, ids: seq<string>)
    ensures IsSplit(e) <==> DeclaredSplit(e)
    ensures StrictSplit(e, Elements(ids)) <==> LocalSplit(e, ids)
  {
    assert Fold(DETERMINISTIC) == DETERMINISTIC;
    if DeclaredSplit(e) {
      assert FoldedKeys(e.fallbackFields) == {DETERMINISTIC} <==>
             forall k :: k in e.fallbackFields ==> Fold(k) == DETERMINISTIC by {
        assert Fold(DETERMINISTIC) in FoldedKeys(e.fallbackFields);
        assert forall k :: k in e.fallbackFields ==> Fold(k) in FoldedKeys(e.fallbackFields);
      }
    }
  }

  function EndsTrace(id: string): Event -> bool {
    (e: Event) => e.context == "evaluation" && e.name == RagEnd && e.traceId == id
  }

  function SplitsTrace(id: string): Event -> bool { (e: Event) => DeclaredSplit(e) && e.traceId == id }

  /** Every expected trace ended as often as it is expected, and no other did. */
  ghost predicate EndedAsExpected(ids: seq<string>, events: seq<Event>) {
    forall id :: Count(EndsTrace(id), events) == multiset(ids)[id]
  }

  /** No trace was split twice, and every split is a local one of an enabled arm. */
  ghost predicate SplitsSound(ids: seq<string>, events: seq<Event>, enabled: bool) {
    && (forall id :: Count(SplitsTrace(id), events) <= 1)
    && forall e :: e in events && DeclaredSplit(e) ==> enabled && LocalSplit(e, ids)
  }

  lemma EndedExactly(ids: seq<string>, events: seq<Event>)
    ensures multiset(FilterMap(EndKey, events)) == multiset(ids) <==> EndedAsExpected(ids, events)
  {
    hide FilterMap, Count;
    forall id ensures multiset(FilterMap(EndKey, events))[id] == Count(EndsTrace(id), events) {
      MultiplicityCounted(EndKey, EndsTrace(id), events, id);
    }
  }

  lemma SplitOnce(events: seq<Event>)
    ensures Distinct(FilterMap(SplitKey, events)) <==> forall id :: Count(SplitsTrace(id), events) <= 1
  {
    hide FilterMap, Count, MaxCount;
    var keys := FilterMap(SplitKey, events);
    forall id ensures multiset(keys)[id] == Count(SplitsTrace(id), events) {
      MultiplicityCounted(SplitKey, SplitsTrace(id), events, id);
    }
    MultisetKeys(keys);
    MaxCountIsLeastBound(multiset(keys));
    NoCount();
  }

  /** The appended log admits an arm exactly if its queries and splits are as they
      should be and the snapshot counted as many fallbacks as there are splits. */
  lemma AppendedExactly(ids: seq<string>, events: seq<Event>, snapshot: Snapshot, enabled: bool)
    ensures ValidateAppended(ids, events, snapshot, enabled).Ok? <==>
            && EndedAsExpected(ids, events) && SplitsSound(ids, events, enabled)
            && snapshot.fallbackEvents == Count(DeclaredSplit, events)
    ensures ValidateAppended(ids, events, snapshot, enabled).Ok? ==>
              ValidateAppended(ids, events, snapshot, enabled).value == Count(DeclaredSplit, events)
  {
    hide FilterMap, Count, StrictSplit, LocalSplit, IsSplit, DeclaredSplit, EndedAsExpected;
    EndedExactly(ids, events);
    SplitOnce(events);
    forall e ensures (IsSplit(e) <==> DeclaredSplit(e)) && (StrictSplit(e, Elements(ids)) <==> LocalSplit(e, ids)) {
      StrictExactly(e, ids);
    }
    CountCongruent(IsSplit, DeclaredSplit, events);
    CountZero(IsSplit, events);
  }

  /** A case of the evaluation with this trace; none stands for the empty one. */
  function OfTrace(id: string): CaseResult -> bool {
    (c: CaseResult) => (if c.traceId.Some? then c.traceId.value else "") == id
  }

  /** The snapshot of a window is accepted exactly if the evaluation lists the
      expected traces, each has a finished query, at least one of them stamped, and
      no line is unreadable and no event in the window failed or was retried. */
  lemma SnapshotExactly(ids: seq<string>, evaluation: EvalReport, log: seq<Line>, window: Filter)
    ensures var es := Selected(log, window);
            ValidateSnapshot(ids, evaluation, SnapshotOf(log, window)) == None <==>
            && evaluation.totalCases == |ids|
            && (forall id :: Count(OfTrace(id), evaluation.cases) == multiset(ids)[id])
            && Count(Ended, es) == |ids| && (exists e :: e in es && e.name == RagEnd && e.ts.Some?)
            && Malformed !in log
            && forall e :: e in es ==> !Erred(e) && !Retried(e)
  {
    hide FilterMap, Count, Erred, Retried, SnapshotOf, Selected;
    var es := Selected(log, window);
    SnapshotCounts(log, window);
    SnapshotRates(log, window);
    CountZero(Unreadable, log);
    CountZero(Erred, es);
    CountZero(Retried, es);
    var traces := FilterMap(CaseTrace, evaluation.cases);
    forall id ensures multiset(traces)[id] == Count(OfTrace(id), evaluation.cases) {
      MultiplicityCounted(CaseTrace, OfTrace(id), evaluation.cases, id);
    }
    assert multiset(traces) == multiset(ids) <==> forall id :: multiset(traces)[id] == multiset(ids)[id];
  }

  /** The expected traces name the cases of the manifest, in order, behind the arm. */
  lemma ManifestMeans(lines: seq<ManifestLine>, side: string)
    ensures ValidManifest(lines) <==>
            && BadJson !in lines && (exists id :: CaseId(id) in lines)
            && (forall i, j :: 0 <= i < j < |lines| && lines[i].CaseId? && lines[j].CaseId? ==>
                  lines[i].id != lines[j].id)
            && CaseId("") !in lines
    ensures forall trace :: trace in TraceIds(side, CaseIds(lines)) <==>
              exists id :: CaseId(id) in lines && trace == "eval:" + side + ":" + id
  {
    hide FilterMap;
    var ids := CaseIds(lines);
    forall id ensures id in ids <==> CaseId(id) in lines {
      FilterMapMember(CaseOf, lines, id);
    }
    if ids != [] {
      assert ids[0] in ids;
    }
    CaseIdsDistinct(lines);
    forall trace
      ensures trace in TraceIds(side, ids) <==> exists id :: CaseId(id) in lines && trace == TraceId(side, id)
    {
      if trace in TraceIds(side, ids) {
        var i :| 0 <= i < |ids| && TraceIds(side, ids)[i] == trace;
        assert ids[i] in ids;
      }
      if id :| CaseId(id) in lines && trace == TraceId(side, id) {
        var i :| 0 <= i < |ids| && ids[i] == id;
        assert TraceIds(side, ids)[i] == trace;
      }
    }
  }

  lemma {:induction false} CaseIdsDistinct(lines: seq<ManifestLine>)
    ensures Distinct(CaseIds(lines)) <==>
            forall i, j :: 0 <= i < j < |lines| && lines[i].CaseId? && lines[j].CaseId? ==> lines[i].id != lines[j].id
  {
    if lines != [] {
      var front, last := lines[..|lines| - 1], lines[|lines| - 1];
      assert lines == front + [last];
      CaseIdsDistinct(front);
      FilterMapLast(CaseOf, front, last);
      var ids := CaseIds(front);
      assert forall i :: 0 <= i < |front| ==> front[i] == lines[i];
      if last.CaseId? {
        FilterMapMember(CaseOf, front, last.id);
        assert CaseIds(lines) == ids + [last.id];
        LastNew(ids, last.id);
        assert last.id in ids <==> exists i :: 0 <= i < |front| && lines[i].CaseId? && lines[i].id == last.id by {
          if last.id in ids {
            var line :| line in front && CaseOf(line) == Some(last.id);
            var i :| 0 <= i < |front| && front[i] == line;
          }
          if i :| 0 <= i < |front| && lines[i].CaseId? && lines[i].id == last.id {
            assert front[i] in front;
          }
        }
      } else {
        assert CaseIds(lines) == ids;
      }
    }
  }

  lemma LastNew(ids: seq<string>, id: string)
    ensures Distinct(ids + [id]) <==> Distinct(ids) && id !in ids
  {
    var all := ids + [id];
    if Distinct(all) {
      forall i, j | 0 <= i < j < |ids| ensures ids[i] != ids[j] {
        assert all[i] != all[j];
      }
      forall i | 0 <= i < |ids| ensures ids[i] != id {
        assert all[i] != all[|ids|];
      }
    }
    assert forall i :: 0 <= i < |ids| ==> ids[i] in ids;
  }
}

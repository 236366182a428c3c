/** Admission of a decomposition arm: its snapshot and its appended log are
    checked independently, and the counts they give must agree. */
module TraceAdmission {
  import opened Collections
  import opened Strings
  import opened TraceEvents
  import opened TraceSnapshot
  import opened RolloutGate

  datatype Refusal =
    | InvalidManifest
    | WrongCases
    | Uncovered
    | ParseErrors
    | ErrorEvents
    | RetryEvents
    | InvalidJson
    | WrongTraces
    | DuplicateSplits
    | FallbackEvents

  // ----- the manifest

  datatype ManifestLine = Blank | BadJson | CaseId(id: string)

  function TraceId(side: string, caseId: string): string { "eval:" + side + ":" + caseId }

  function CaseOf(line: ManifestLine): Option<string> {
    if line.CaseId? then Some(line.id) else None
  }

  function CaseIds(lines: seq<ManifestLine>): seq<string> { FilterMap(CaseOf, lines) }

  function TraceIds(side: string, caseIds: seq<string>): seq<string> {
    seq(|caseIds|, i requires 0 <= i < |caseIds| => TraceId(side, caseIds[i]))
  }

  predicate ValidManifest(lines: seq<ManifestLine>) {
    && BadJson !in lines
    && "" !in CaseIds(lines)
    && CaseIds(lines) != [] && Distinct(CaseIds(lines))
  }

  /** `_manifest_trace_ids`. */
  method ManifestTraceIds(lines: seq<ManifestLine>, side: string) returns (r: Result<seq<string>, Refusal>)
    ensures r == if ValidManifest(lines) then Ok(TraceIds(side, CaseIds(lines))) else Err(InvalidManifest)
  {
    var ids: seq<string> := [];
    for i := 0 to |lines|
      invariant ids == CaseIds(lines[..i]) && BadJson !in lines[..i] && "" !in ids
    {
      var line := lines[i];
      assert lines[..i + 1] == lines[..i] + [line];
      FilterMapLast(CaseOf, lines[..i], line);
      if line.BadJson? {
        return Err(InvalidManifest);
      }
      if line.CaseId? {
        if line.id == "" {
          FilterMapMember(CaseOf, lines, "");
          return Err(InvalidManifest);
        }
        ids := ids + [line.id];
      }
    }
    assert lines[..|lines|] == lines;
    DistinctByCardinality(ids);
    var members := set id | id in ids;
    assert members == Elements(ids);
    if ids == [] || |ids| != |members| {
      return Err(InvalidManifest);
    }
    r := Ok(TraceIds(side, ids));
  }

  lemma TraceIdInjective(side: string, a: string, b: string)
    requires TraceId(side, a) == TraceId(side, b)
    ensures a == b
  {
    var prefix := "eval:" + side + ":";
    assert a == TraceId(side, a)[|prefix|..] && b == TraceId(side, b)[|prefix|..];
  }

  /** The expected identities are as distinct as the case identities. */
  lemma ExpectedDistinct(lines: seq<ManifestLine>, side: string)
    requires ValidManifest(lines)
    ensures Distinct(TraceIds(side, CaseIds(lines))) && TraceIds(side, CaseIds(lines)) != []
  {
    var ids := CaseIds(lines);
    forall i, j | 0 <= i < j < |ids| ensures TraceIds(side, ids)[i] != TraceIds(side, ids)[j] {
      if TraceId(side, ids[i]) == TraceId(side, ids[j]) {
        TraceIdInjective(side, ids[i], ids[j]);
      }
    }
  }

  // ----- the snapshot

  function CaseTrace(c: CaseResult): Option<string> { Some(if c.traceId.Some? then c.traceId.value else "") }

  /** `_validate_trace_snapshot`: `None` when the snapshot is accepted. */
  function ValidateSnapshot(ids: seq<string>, evaluation: EvalReport, snapshot: Snapshot): Option<Refusal> {
    if evaluation.totalCases != |ids| || multiset(FilterMap(CaseTrace, evaluation.cases)) != multiset(ids)
    then Some(WrongCases)
    else if snapshot.system.queryCount != |ids| || !snapshot.observed then Some(Uncovered)
    else if snapshot.parseErrors != 0 then Some(ParseErrors)
    else if snapshot.errorEvents != 0 then Some(ErrorEvents)
    else if snapshot.retryEvents != 0 then Some(RetryEvents)
    else None
  }

  // ----- the appended log

  const DETERMINISTIC := "deterministic_fallback"

  /** An event with `deterministic_fallback` set to the constant `True`. */
  predicate IsSplit(e: Event) {
    e.name.QueryDecomposition? && DETERMINISTIC in e.fallbackFields && e.fallbackFields[DETERMINISTIC].JsonTrue?
  }

  function FoldedKeys(fields: map<string, FieldValue>): set<string> {
    set k | k in fields :: Fold(k)
  }

  /** `_is_strict_deterministic_local_split`. */
  predicate StrictSplit(e: Event, ids: set<string>) {
    && e.context == EVALUATION
    && IsSplit(e)
    && e.traceId in ids
    && FoldedKeys(e.fallbackFields) == {DETERMINISTIC}
    && e.split.intentCount.Some? && e.split.subqueryCount == e.split.intentCount
    && 2 <= e.split.intentCount.value <= 3
    && e.split.coverage.Some? && |e.split.coverage.value| == e.split.intentCount.value
    && (forall c :: c in e.split.coverage.value ==> c)
    && e.split.intentOverflow == Some(false)
    && e.split.deadlineExceeded == Some(false)
    && e.split.plannerCount == Some(0)
    && e.split.inputTokens == Some(0)
    && e.split.outputTokens == Some(0)
    && e.estimatedCost == Some(0)
    && e.exclusiveCost == Some(0)
  }

  function EndKey(e: Event): Option<string> {
    if e.context == EVALUATION && e.name.RagEnd? then Some(e.traceId) else None
  }

  function SplitKey(e: Event): Option<string> {
    if IsSplit(e) then Some(e.traceId) else None
  }

  function ParsedEvent(line: Line): Option<Event> {
    if line.Parsed? then Some(line.event) else None
  }

  /** `_read_appended_trace`, from the recorded offset on. */
  method ReadAppendedTrace(lines: seq<Line>) returns (r: Result<seq<Event>, Refusal>)
    ensures r == if Malformed in lines then Err(InvalidJson) else Ok(FilterMap(ParsedEvent, lines))
  {
    var events: seq<Event> := [];
    for i := 0 to |lines|
      invariant events == FilterMap(ParsedEvent, lines[..i]) && Malformed !in lines[..i]
    {
      assert lines[..i + 1] == lines[..i] + [lines[i]];
      FilterMapLast(ParsedEvent, lines[..i], lines[i]);
      if lines[i].Malformed? {
        return Err(InvalidJson);
      }
      events := events + [lines[i].event];
    }
    assert lines[..|lines|] == lines;
    r := Ok(events);
  }

  /** `_validate_appended_trace`: how many splits are allowed. */
  function ValidateAppended(
    ids: seq<string>, events: seq<Event>, snapshot: Snapshot, enabled: bool): Result<nat, Refusal>
  {
    var splits := Count(IsSplit, events);
    if multiset(FilterMap(EndKey, events)) != multiset(ids) then Err(WrongTraces)
    else if !Distinct(FilterMap(SplitKey, events)) then Err(DuplicateSplits)
    else if splits > 0 && !enabled then Err(FallbackEvents)
    else if exists e :: e in events && IsSplit(e) && !StrictSplit(e, Elements(ids)) then Err(FallbackEvents)
    else if snapshot.fallbackEvents != splits then Err(FallbackEvents)
    else Ok(splits)
  }

  // ----- what admission rests on

  function EvaluationEvent(e: Event): Option<Event> {
    if e.context == EVALUATION then Some(e) else None
  }

  /** The snapshot window selects the evaluation events of the appended log. */
  predicate SameEvents(log: seq<Line>, window: Filter, events: seq<Event>) {
    Selected(log, window) == FilterMap(EvaluationEvent, events)
  }

  lemma StrictIsFallback(e: Event, ids: set<string>)
    requires StrictSplit(e, ids)
    ensures HasFallback(e) && e.context == EVALUATION
  {
    assert DETERMINISTIC in e.fallbackFields;
  }

  predicate Stray(e: Event) { e.context == EVALUATION && HasFallback(e) && !IsSplit(e) }

  /** Counting: when every split is strict, the evaluation fallbacks are the
      splits and the strays. */
  lemma {:induction false} FallbackCount(events: seq<Event>, ids: set<string>)
    requires forall e :: e in events && IsSplit(e) ==> StrictSplit(e, ids)
    ensures Count(HasFallback, FilterMap(EvaluationEvent, events)) == Count(IsSplit, events) + Count(Stray, events)
  {
    hide FilterMap, Count, HasFallback, StrictSplit, IsSplit;
    if events == [] {
      FilterMapEmpty(EvaluationEvent);
      CountEmpty(HasFallback);
      CountEmpty(IsSplit);
      CountEmpty(Stray);
    } else {
      var front, e := events[..|events| - 1], events[|events| - 1];
      assert events == front + [e] && e in events;
      FallbackCount(front, ids);
      assert FilterMap(EvaluationEvent, front) + [] == FilterMap(EvaluationEvent, front);
      FilterMapLast(EvaluationEvent, front, e);
      CountLast(IsSplit, front, e);
      CountLast(Stray, front, e);
      CountLast(HasFallback, FilterMap(EvaluationEvent, front), e);
      if IsSplit(e) {
        StrictIsFallback(e, ids);
      }
    }
  }

  /** Admission, stated without any count: the arm ended every manifest trace
      once, its splits are strict, at most one per trace and absent from the
      baseline, and nothing else in the evaluation fell back. */
  ghost predicate FallbacksAccountedFor(ids: seq<string>, events: seq<Event>, enabled: bool) {
    && multiset(FilterMap(EndKey, events)) == multiset(ids)
    && Distinct(FilterMap(SplitKey, events))
    && (forall e :: e in events && IsSplit(e) ==> enabled && StrictSplit(e, Elements(ids)))
    && (forall e :: e in events && e.context == EVALUATION && HasFallback(e) ==> IsSplit(e))
  }

  /** When snapshot and log cover the same evaluation events, the equal counts
      leave no room for a fallback that is not a strict split; and nothing more
      is demanded. */
  lemma AdmissionExactly(
    ids: seq<string>, log: seq<Line>, window: Filter, events: seq<Event>, snapshot: Snapshot, enabled: bool)
    requires SameEvents(log, window, events)
    requires snapshot.fallbackEvents == Count(HasFallback, Selected(log, window))
    ensures ValidateAppended(ids, events, snapshot, enabled).Ok? <==> FallbacksAccountedFor(ids, events, enabled)
  {
    hide StrictSplit, HasFallback, IsSplit, FilterMap, Count, EndKey, SplitKey;
    CountZero(IsSplit, events);
    CountZero(Stray, events);
    if forall e :: e in events && IsSplit(e) ==> StrictSplit(e, Elements(ids)) {
      FallbackCount(events, Elements(ids));
    }
  }

  /** An admitted arm: every event its snapshot counted as a fallback is a strict
      deterministic split of a manifest trace, the only one of that trace, and the
      baseline has none. */
  lemma FallbacksAreStrictSplits(
    ids: seq<string>, log: seq<Line>, window: Filter, events: seq<Event>, enabled: bool, e: Event)
    requires SameEvents(log, window, events)
    requires ValidateAppended(ids, events, SnapshotOf(log, window), enabled).Ok?
    requires e in Selected(log, window) && HasFallback(e)
    ensures enabled && StrictSplit(e, Elements(ids))
    ensures multiset(FilterMap(SplitKey, events))[e.traceId] == 1
  {
    hide StrictSplit, HasFallback, IsSplit, ValidateAppended, FilterMap;
    AdmissionExactly(ids, log, window, events, SnapshotOf(log, window), enabled);
    FilterMapMember(EvaluationEvent, events, e);
    FilterMapMember(SplitKey, events, e.traceId);
    DistinctMultiplicity(FilterMap(SplitKey, events));
    assert e.traceId in multiset(FilterMap(SplitKey, events));
  }

  // ----- when the window and the appended log need not agree

  function StrictIn(ids: set<string>): Event -> bool { (e: Event) => StrictSplit(e, ids) }

  /** The counted fallbacks of a log are all strict splits. */
  ghost predicate OnlyStrictSplits(ids: seq<string>, log: seq<Line>, window: Filter) {
    forall e :: e in Selected(log, window) && HasFallback(e) ==> StrictSplit(e, Elements(ids))
  }

  /** Whatever window and log cover: what an accepted arm's snapshot counted as
      fallbacks are strict splits exactly when the window holds as many strict
      splits as the appended log holds splits. */
  lemma AcceptedArmTrusted(ids: seq<string>, log: seq<Line>, window: Filter, events: seq<Event>, enabled: bool)
    requires ValidateAppended(ids, events, SnapshotOf(log, window), enabled).Ok?
    ensures OnlyStrictSplits(ids, log, window) <==>
            Count(StrictIn(Elements(ids)), Selected(log, window)) == Count(IsSplit, events)
  {
    hide StrictSplit, HasFallback, IsSplit, FilterMap, Count;
    forall e | e in Selected(log, window) && StrictSplit(e, Elements(ids)) ensures HasFallback(e) {
      StrictIsFallback(e, Elements(ids));
    }
    CountWithin(StrictIn(Elements(ids)), HasFallback, Selected(log, window));
  }

  /** If the window selects appended events only, counting the splits in it is enough. */
  lemma AppendedArmTrusted(ids: seq<string>, log: seq<Line>, window: Filter, events: seq<Event>, enabled: bool)
    requires ValidateAppended(ids, events, SnapshotOf(log, window), enabled).Ok?
    requires forall e :: e in Selected(log, window) ==> e in events
    ensures OnlyStrictSplits(ids, log, window) <==>
            Count(IsSplit, Selected(log, window)) == Count(IsSplit, events)
  {
    hide HasFallback, IsSplit, FilterMap, Count, SnapshotOf, StrictSplit;
    AcceptedArmTrusted(ids, log, window, events, enabled);
    forall e ensures StrictSplit(e, Elements(ids)) ==> IsSplit(e) {
      StrictIsSplit(e, Elements(ids));
    }
    CountWithin(StrictIn(Elements(ids)), IsSplit, Selected(log, window));
  }

  lemma StrictIsSplit(e: Event, ids: set<string>)
    ensures StrictSplit(e, ids) ==> IsSplit(e)
  {
  }

  // A window that closes before the arm's split is logged.

  const EMPTY_SPLIT := Split(None, None, None, None, None, None, None, None)

  function QuietEvent(name: EventName, traceId: string, ts: int): Event {
    Event(EVALUATION, Some(ts), name, traceId, false, false, false, map[], false, false, Some(0), Some(0),
          false, false, None, None, EMPTY_SPLIT)
  }

  function EndOf(traceId: string): Event { QuietEvent(RagEnd, traceId, 1) }

  /** A fallback of the language model, which no split accounts for. */
  function StrayOf(traceId: string): Event {
    QuietEvent(LlmGeneration, traceId, 1).(fallbackFields := map["fallback" := JsonTrue])
  }

  function LateSplit(traceId: string): Event {
    QuietEvent(QueryDecomposition, traceId, 3).(
      fallbackFields := map[DETERMINISTIC := JsonTrue],
      split := Split(Some(2), Some(2), Some([true, true]), Some(false), Some(false), Some(0), Some(0), Some(0)))
  }

  const EARLY := Filter({EVALUATION}, Some(1), Some(2))

  function HidingEvents(traceId: string): seq<Event> { [EndOf(traceId), StrayOf(traceId)] + [LateSplit(traceId)] }

  function HidingLog(traceId: string): seq<Line> {
    [Parsed(EndOf(traceId)), Parsed(StrayOf(traceId))] + [Parsed(LateSplit(traceId))]
  }

  lemma LateSplitIsStrict(t: string)
    ensures StrictSplit(LateSplit(t), {t}) && !InWindow(LateSplit(t), EARLY)
  {
    assert Fold(DETERMINISTIC) == DETERMINISTIC;
    assert FoldedKeys(LateSplit(t).fallbackFields) == {DETERMINISTIC} by {
      assert DETERMINISTIC in LateSplit(t).fallbackFields;
    }
  }

  lemma StrayHides(t: string)
    ensures HasFallback(StrayOf(t)) && !IsSplit(StrayOf(t)) && InWindow(StrayOf(t), EARLY)
    ensures !IsError(StrayOf(t)) && !IsRetry(StrayOf(t))
    ensures !HasFallback(EndOf(t)) && InWindow(EndOf(t), EARLY) && IsStampedEnd(EndOf(t))
    ensures !IsError(EndOf(t)) && !IsRetry(EndOf(t))
  {
    assert "fallback" in StrayOf(t).fallbackFields;
  }

  lemma HidingCounts(t: string)
    ensures Selected(HidingLog(t), EARLY) == [EndOf(t), StrayOf(t)]
    ensures Count(HasFallback, Selected(HidingLog(t), EARLY)) == 1
    ensures Count(IsSplit, HidingEvents(t)) == 1 && FilterMap(SplitKey, HidingEvents(t)) == [t]
    ensures FilterMap(EndKey, HidingEvents(t)) == [t]
  {
    hide FilterMap, Count, HasFallback, InWindow;
    var a, b, c := EndOf(t), StrayOf(t), LateSplit(t);
    StrayHides(t);
    LateSplitIsStrict(t);
    FilterMapOfTwo(Select(EARLY), Parsed(a), Parsed(b));
    FilterMapLast(Select(EARLY), [Parsed(a), Parsed(b)], Parsed(c));
    CountOfTwo(HasFallback, a, b);
    CountOfTwo(IsSplit, a, b);
    CountLast(IsSplit, [a, b], c);
    FilterMapOfTwo(SplitKey, a, b);
    FilterMapLast(SplitKey, [a, b], c);
    FilterMapOfTwo(EndKey, a, b);
    FilterMapLast(EndKey, [a, b], c);
  }

  /** Any evaluation of the one case. */
  predicate OneCase(evaluation: EvalReport, t: string) {
    evaluation.totalCases == 1 && FilterMap(CaseTrace, evaluation.cases) == [t]
  }

  lemma HidingSnapshot(t: string, evaluation: EvalReport)
    requires OneCase(evaluation, t)
    ensures ValidateSnapshot([t], evaluation, SnapshotOf(HidingLog(t), EARLY)) == None
  {
    hide FilterMap, Count, HasFallback, IsError, IsRetry, Selected;
    var a, b := EndOf(t), StrayOf(t);
    HidingCounts(t);
    StrayHides(t);
    CountZero(IsMalformed, HidingLog(t));
    CountOfTwo(IsError, a, b);
    CountOfTwo(IsRetry, a, b);
    CountOfTwo(IsQueryEnd, a, b);
    CountOfTwo(IsStampedEnd, a, b);
  }

  /** A log of one trace whose split lies outside the window and whose stray
      fallback lies inside: snapshot and appended log are accepted, and the
      fallback that was counted is no split. */
  lemma LateSplitHidesStray(t: string, evaluation: EvalReport)
    requires OneCase(evaluation, t)
    ensures ValidateSnapshot([t], evaluation, SnapshotOf(HidingLog(t), EARLY)) == None
    ensures ValidateAppended([t], HidingEvents(t), SnapshotOf(HidingLog(t), EARLY), true).Ok?
    ensures forall e :: e in Selected(HidingLog(t), EARLY) ==> e in HidingEvents(t)
    ensures StrayOf(t) in Selected(HidingLog(t), EARLY) && HasFallback(StrayOf(t)) && !IsSplit(StrayOf(t))
    ensures !OnlyStrictSplits([t], HidingLog(t), EARLY)
  {
    hide FilterMap, Count, HasFallback, StrictSplit, Selected, ValidateSnapshot;
    HidingSnapshot(t, evaluation);
    HidingCounts(t);
    StrayHides(t);
    LateSplitIsStrict(t);
    assert Elements([t]) == {t};
    StrictIsSplit(StrayOf(t), {t});
  }

  /** An admitted arm of a valid manifest ended every case exactly once. */
  lemma EveryCaseEndedOnce(
    lines: seq<ManifestLine>, side: string, events: seq<Event>, snapshot: Snapshot, enabled: bool)
    requires ValidManifest(lines)
    requires ValidateAppended(TraceIds(side, CaseIds(lines)), events, snapshot, enabled).Ok?
    ensures Distinct(FilterMap(EndKey, events))
    ensures Elements(FilterMap(EndKey, events)) == Elements(TraceIds(side, CaseIds(lines)))
  {
    ExpectedDistinct(lines, side);
    var ends, ids := FilterMap(EndKey, events), TraceIds(side, CaseIds(lines));
    MultisetKeys(ends);
    MultisetKeys(ids);
    forall x ensures x in Elements(ends) <==> x in Elements(ids) {
      assert x in multiset(ends) <==> x in multiset(ids);
    }
  }

  /** An accepted snapshot of a log: no malformed line, no error or retry among
      the selected events, and one finished query per manifest case. */
  lemma AcceptedSnapshotIsClean(ids: seq<string>, evaluation: EvalReport, log: seq<Line>, window: Filter)
    ensures ValidateSnapshot(ids, evaluation, SnapshotOf(log, window)) == None ==>
              && Malformed !in log
              && (forall e :: e in Selected(log, window) ==> !IsError(e) && !IsRetry(e))
              && Count(IsQueryEnd, Selected(log, window)) == |ids| == evaluation.totalCases
              && multiset(FilterMap(CaseTrace, evaluation.cases)) == multiset(ids)
  {
    hide FilterMap, Count, IsError, IsRetry;
    CountZero(IsMalformed, log);
    CountZero(IsError, Selected(log, window));
    CountZero(IsRetry, Selected(log, window));
  }
}

/** Correlating the trace log of a benchmark level with its requests: stage
    latencies are reported only when the traces are exactly the requests'. */
module TraceCorrelation {
  import opened Collections

  /** The stage latencies of one event; none when it is outside the window. */
  type Stages = map<string, nat>

  datatype TraceEvent = TraceEvent(ts: Option<int>, traceId: string, stages: Stages)

  datatype Line = Blank | Malformed | Parsed(event: TraceEvent)

  datatype Window = Window(started: Option<int>, finished: Option<int>)

  predicate Inside(e: TraceEvent, w: Window) {
    && (w.started.Some? ==> e.ts.Some? && w.started.value <= e.ts.value)
    && (w.finished.Some? ==> e.ts.Some? && e.ts.value <= w.finished.value)
  }

  /** `_trace_event_stages`. */
  function StagesIn(e: TraceEvent, w: Window): Stages {
    if Inside(e, w) then e.stages else map[]
  }

  /** An event with stages, by its trace. */
  datatype Kept = Kept(traceId: string, stages: Stages)

  function WithStages(w: Window): Line -> Option<Kept> {
    (line: Line) =>
      if line.Parsed? && StagesIn(line.event, w) != map[] then Some(Kept(line.event.traceId, StagesIn(line.event, w)))
      else None
  }

  function Allow(allowed: set<string>): Kept -> Option<Kept> {
    (k: Kept) => if k.traceId in allowed then Some(k) else None
  }

  function KeptOf(lines: seq<Line>, w: Window, allowed: set<string>): seq<Kept> {
    FilterMap(Allow(allowed), FilterMap(WithStages(w), lines))
  }

  // ----- merging the stages of one trace

  /** `_merge_trace_stage_value`: caches add up, embeddings keep the largest,
      any other stage keeps the last. */
  function Merged(current: Option<nat>, stage: string, latency: nat): nat {
    var before := if current.Some? then current.value else 0;
    if stage == "cache" then before + latency
    else if stage == "embed" then (if before < latency then latency else before)
    else latency
  }

  function ValueOf(stages: Stages, stage: string): Option<nat> {
    if stage in stages then Some(stages[stage]) else None
  }

  function MergeStages(before: Stages, more: Stages): Stages {
    map s | s in before.Keys + more.Keys ::
      if s in more then Merged(ValueOf(before, s), s, more[s]) else before[s]
  }

  type Metrics = map<string, Stages>

  function StagesOf(m: Metrics, trace: string): Stages {
    if trace in m then m[trace] else map[]
  }

  function MetricsOf(kept: seq<Kept>): Metrics {
    if kept == [] then map[]
    else
      var before, last := MetricsOf(kept[..|kept| - 1]), kept[|kept| - 1];
      before[last.traceId := MergeStages(StagesOf(before, last.traceId), last.stages)]
  }

  /** Traces in the order they were first seen. */
  function TraceOrder(kept: seq<Kept>): seq<string> {
    if kept == [] then []
    else
      var before, last := TraceOrder(kept[..|kept| - 1]), kept[|kept| - 1].traceId;
      if last in before then before else before + [last]
  }

  function StageAt(m: Metrics, stage: string): string -> Option<nat> {
    (trace: string) => ValueOf(StagesOf(m, trace), stage)
  }

  /** `_flatten_trace_stage_metrics`: the values of one stage, one for each trace. */
  function StageValues(kept: seq<Kept>, stage: string): seq<nat> {
    FilterMap(StageAt(MetricsOf(kept), stage), TraceOrder(kept))
  }

  // ----- reading a log, with or without a set of allowed traces

  predicate Permitted(allowed: Option<set<string>>, trace: string) {
    allowed.Some? ==> trace in allowed.value
  }

  /** The decimal digits of a line number. */
  function Decimal(n: nat): string {
    if n < 10 then ["0123456789"[n]] else Decimal(n / 10) + ["0123456789"[n % 10]]
  }

  /** An event without a trace is kept under its line. */
  function KeyOf(trace: string, line: nat): string {
    if trace != "" then trace else "event:" + Decimal(line)
  }

  /** The kept events of a log by their keys; the last line has number `|lines|`. */
  function Keyed(lines: seq<Line>, w: Window, allowed: Option<set<string>>): seq<Kept> {
    if lines == [] then []
    else
      Keyed(lines[..|lines| - 1], w, allowed) +
      match WithStages(w)(lines[|lines| - 1])
      case None => []
      case Some(k) => if Permitted(allowed, k.traceId) then [Kept(KeyOf(k.traceId, |lines|), k.stages)] else []
  }

  function NamedTrace(w: Window, allowed: Option<set<string>>): Line -> Option<string> {
    (line: Line) =>
      match WithStages(w)(line)
      case None => None
      case Some(k) => if k.traceId != "" && Permitted(allowed, k.traceId) then Some(k.traceId) else None
  }

  datatype Reading = Reading(
    metrics: Metrics, order: seq<string>, traces: set<string>, events: nat, excluded: nat, ignored: nat)

  predicate IsMalformed(line: Line) { line.Malformed? }

  /** An event with stages of a trace that is not allowed. */
  function IsExcluded(w: Window, allowed: Option<set<string>>): Line -> bool {
    (line: Line) => WithStages(w)(line).Some? && !Permitted(allowed, WithStages(w)(line).value.traceId)
  }

  function ReadingOf(lines: seq<Line>, w: Window, allowed: Option<set<string>>): Reading {
    var kept := Keyed(lines, w, allowed);
    Reading(MetricsOf(kept), TraceOrder(kept), Elements(FilterMap(NamedTrace(w, allowed), lines)),
            |kept|, Count(IsExcluded(w, allowed), lines), Count(IsMalformed, lines))
  }

  /** The inner loop over the stages of an event. */
  method MergeEvent(before: Stages, more: Stages) returns (stages: Stages)
    ensures stages == MergeStages(before, more)
  {
    stages := before;
    var todo := more.Keys;
    while todo != {}
      invariant todo <= more.Keys
      invariant stages.Keys == before.Keys + (more.Keys - todo)
      invariant forall s :: s in stages ==>
        stages[s] == if s in more && s !in todo then Merged(ValueOf(before, s), s, more[s]) else before[s]
      decreases todo
    {
      var s :| s in todo;
      stages := stages[s := Merged(ValueOf(stages, s), s, more[s])];
      todo := todo - {s};
    }
  }

  lemma {:induction false} OrderListsTraces(kept: seq<Kept>)
    ensures Distinct(TraceOrder(kept))
    ensures forall t :: t in TraceOrder(kept) <==> t in MetricsOf(kept)
    ensures forall t :: t in MetricsOf(kept) <==> exists k :: k in kept && k.traceId == t
  {
    if kept != [] {
      var front, last := kept[..|kept| - 1], kept[|kept| - 1];
      assert kept == front + [last];
      OrderListsTraces(front);
      assert forall i :: 0 <= i < |TraceOrder(front)| ==> TraceOrder(front)[i] in TraceOrder(front);
    }
  }

  /** The loop state after a kept event. */
  lemma ReadingLast(kept: seq<Kept>, k: Kept)
    ensures MetricsOf(kept + [k]) ==
            MetricsOf(kept)[k.traceId := MergeStages(StagesOf(MetricsOf(kept), k.traceId), k.stages)]
    ensures TraceOrder(kept + [k]) ==
            if k.traceId in MetricsOf(kept) then TraceOrder(kept) else TraceOrder(kept) + [k.traceId]
  {
    assert (kept + [k])[..|kept|] == kept;
    OrderListsTraces(kept);
  }

  lemma KeyedLast(lines: seq<Line>, line: Line, w: Window, allowed: Option<set<string>>)
    ensures Keyed(lines + [line], w, allowed) ==
            Keyed(lines, w, allowed) +
            match WithStages(w)(line)
            case None => []
            case Some(k) =>
              if Permitted(allowed, k.traceId) then [Kept(KeyOf(k.traceId, |lines| + 1), k.stages)] else []
  {
    assert (lines + [line])[..|lines|] == lines;
  }

  lemma NamedLast(lines: seq<Line>, line: Line, w: Window, allowed: Option<set<string>>)
    ensures Elements(FilterMap(NamedTrace(w, allowed), lines + [line])) ==
            Elements(FilterMap(NamedTrace(w, allowed), lines)) +
            match NamedTrace(w, allowed)(line) case None => {} case Some(t) => {t}
  {
    hide FilterMap, WithStages;
    FilterMapLast(NamedTrace(w, allowed), lines, line);
  }

  lemma EmptyReading(w: Window, allowed: Option<set<string>>)
    ensures ReadingOf([], w, allowed) == Reading(map[], [], {}, 0, 0, 0)
  {
  }

  /** `read_trace_jsonl`: every log and window, with a set of allowed traces or
      without one. */
  method ReadTraceJsonl(lines: seq<Line>, w: Window, allowed: Option<set<string>>) returns (r: Reading)
    ensures r == ReadingOf(lines, w, allowed)
  {
    hide FilterMap, Count, MetricsOf, TraceOrder, StagesIn, MergeStages, Keyed, KeyOf, Permitted;
    r := Reading(map[], [], {}, 0, 0, 0);
    EmptyReading(w, allowed);
    for i := 0 to |lines|
      invariant r == ReadingOf(lines[..i], w, allowed)
    {
      var line := lines[i];
      assert lines[..i + 1] == lines[..i] + [line];
      ghost var kept := Keyed(lines[..i], w, allowed);
      KeyedLast(lines[..i], line, w, allowed);
      NamedLast(lines[..i], line, w, allowed);
      CountLast(IsMalformed, lines[..i], line);
      CountLast(IsExcluded(w, allowed), lines[..i], line);
      assert kept + [] == kept;
      if line.Malformed? {
        r := r.(ignored := r.ignored + 1);
      } else if line.Parsed? {
        var stages := StagesIn(line.event, w);
        var trace := line.event.traceId;
        if stages != map[] {
          if !Permitted(allowed, trace) {
            r := r.(excluded := r.excluded + 1);
          } else {
            var key := KeyOf(trace, i + 1);
            ReadingLast(kept, Kept(key, stages));
            var merged := MergeEvent(StagesOf(r.metrics, key), stages);
            r := r.(metrics := r.metrics[key := merged],
                    order := if key in r.metrics then r.order else r.order + [key],
                    traces := if trace != "" then r.traces + {trace} else r.traces,
                    events := r.events + 1);
          }
        }
      }
    }
    assert lines[..|lines|] == lines;
  }

  /** With a set of allowed traces, none of them empty, the keys are the traces:
      what is read is what the level reports on. */
  lemma {:induction false} AllowedReading(lines: seq<Line>, w: Window, allowed: set<string>)
    requires "" !in allowed
    ensures Keyed(lines, w, Some(allowed)) == KeptOf(lines, w, allowed)
    ensures ReadingOf(lines, w, Some(allowed)).traces == TracesSeen(lines, w, allowed)
  {
    hide FilterMap, StagesIn, KeyOf, Count;
    if lines == [] {
      FilterMapEmpty(WithStages(w));
      FilterMapEmpty(Allow(allowed));
      FilterMapEmpty(NamedTrace(w, Some(allowed)));
    } else {
      var front, line := lines[..|lines| - 1], lines[|lines| - 1];
      assert lines == front + [line];
      AllowedReading(front, w, allowed);
      NamedLast(front, line, w, Some(allowed));
      FilterMapLast(WithStages(w), front, line);
      var before, kept := FilterMap(WithStages(w), front), KeptOf(front, w, allowed);
      assert before + [] == before && kept + [] == kept;
      if WithStages(w)(line).Some? {
        var k := WithStages(w)(line).value;
        NamedKey(k.traceId, |lines|);
        FilterMapLast(Allow(allowed), before, k);
        if k.traceId in allowed {
          ReadingLast(kept, k);
        }
      }
    }
  }

  lemma NamedKey(trace: string, line: nat)
    ensures trace != "" ==> KeyOf(trace, line) == trace
  {
  }

  // ----- the requests of a level

  datatype Sample = Sample(ok: bool, traceId: string)

  datatype Scope = Scope(allowed: set<string>, complete: bool, expected: nat, provided: nat)

  function Successful(s: Sample): Option<Sample> { if s.ok then Some(s) else None }

  function ProvidedId(s: Sample): Option<string> { if s.ok && s.traceId != "" then Some(s.traceId) else None }

  /** `_sample_trace_scope`. */
  function ScopeOf(samples: seq<Sample>): Scope {
    var successful, provided := FilterMap(Successful, samples), FilterMap(ProvidedId, samples);
    var complete := successful != [] && |provided| == |successful| && |Elements(provided)| == |provided|;
    Scope(if complete then Elements(provided) else {}, complete, |successful|, |provided|)
  }

  datatype Correlation = ExactTraceId | IncompleteEvents | MissingIds | IncompleteIds

  /** `_level_trace_correlation`. */
  function CorrelationOf(scope: Scope, traceCount: nat): Correlation {
    if scope.complete && traceCount == scope.expected then ExactTraceId
    else if scope.complete then IncompleteEvents
    else if scope.provided == 0 then MissingIds
    else IncompleteIds
  }

  /** The traces that left stage events. */
  function TracesSeen(lines: seq<Line>, w: Window, allowed: set<string>): set<string> {
    MetricsOf(KeptOf(lines, w, allowed)).Keys
  }

  function LevelCorrelation(samples: seq<Sample>, lines: seq<Line>, w: Window): Correlation {
    CorrelationOf(ScopeOf(samples), |TracesSeen(lines, w, ScopeOf(samples).allowed)|)
  }

  /** The stage values a level reports: none unless the correlation is exact. */
  function LevelValues(samples: seq<Sample>, lines: seq<Line>, w: Window, stage: string): seq<nat> {
    if LevelCorrelation(samples, lines, w).ExactTraceId?
    then StageValues(KeptOf(lines, w, ScopeOf(samples).allowed), stage)
    else []
  }

  lemma {:induction false} ProvidedNamed(samples: seq<Sample>)
    ensures "" !in FilterMap(ProvidedId, samples)
    ensures |FilterMap(ProvidedId, samples)| <= |FilterMap(Successful, samples)|
    ensures |FilterMap(ProvidedId, samples)| == |FilterMap(Successful, samples)| <==>
            forall s :: s in samples && s.ok ==> s.traceId != ""
  {
    if samples != [] {
      assert samples == samples[..|samples| - 1] + [samples[|samples| - 1]];
      ProvidedNamed(samples[..|samples| - 1]);
    }
  }

  lemma SeenAreAllowed(lines: seq<Line>, w: Window, allowed: set<string>)
    ensures TracesSeen(lines, w, allowed) <= allowed
  {
    hide FilterMap, StagesIn;
    OrderListsTraces(KeptOf(lines, w, allowed));
    forall t | t in TracesSeen(lines, w, allowed) ensures t in allowed {
      var k :| k in KeptOf(lines, w, allowed) && k.traceId == t;
      FilterMapMember(Allow(allowed), FilterMap(WithStages(w), lines), k);
    }
  }

  /** Every successful request names a trace of its own, and there is one. */
  predicate OwnTraces(samples: seq<Sample>) {
    && FilterMap(Successful, samples) != []
    && (forall s :: s in samples && s.ok ==> s.traceId != "")
    && Distinct(FilterMap(ProvidedId, samples))
  }

  /** Equal counts are enough: `exact_trace_id` is reported exactly when every
      successful request names a trace of its own and those traces are the ones
      that left stage events. */
  lemma ExactlyExact(samples: seq<Sample>, lines: seq<Line>, w: Window)
    ensures LevelCorrelation(samples, lines, w) == ExactTraceId <==>
            && OwnTraces(samples)
            && TracesSeen(lines, w, Elements(FilterMap(ProvidedId, samples))) ==
               Elements(FilterMap(ProvidedId, samples))
  {
    hide FilterMap, TracesSeen;
    var ids := FilterMap(ProvidedId, samples);
    ProvidedNamed(samples);
    DistinctByCardinality(ids);
    SeenAreAllowed(lines, w, Elements(ids));
    if |TracesSeen(lines, w, Elements(ids))| == |Elements(ids)| {
      SubsetOfEqualSize(TracesSeen(lines, w, Elements(ids)), Elements(ids));
    }
  }

  lemma {:induction false} FilterMapShrinks<T, U>(f: T -> Option<U>, s: seq<T>)
    ensures |FilterMap(f, s)| <= |s|
  {
    if |s| > 0 {
      FilterMapShrinks(f, s[..|s| - 1]);
    }
  }

  /** A stage never has more values than there were successful requests. */
  lemma OneValuePerRequest(samples: seq<Sample>, lines: seq<Line>, w: Window, stage: string)
    ensures |LevelValues(samples, lines, w, stage)| <= |FilterMap(Successful, samples)|
  {
    hide FilterMap;
    if LevelCorrelation(samples, lines, w).ExactTraceId? {
      var kept := KeptOf(lines, w, ScopeOf(samples).allowed);
      FilterMapShrinks(StageAt(MetricsOf(kept), stage), TraceOrder(kept));
      OrderListsTraces(kept);
      DistinctByCardinality(TraceOrder(kept));
      assert Elements(TraceOrder(kept)) == MetricsOf(kept).Keys;
    }
  }

  // ----- the order of events

  function ValueIn(trace: string, stage: string): Kept -> Option<int> {
    (k: Kept) => if k.traceId == trace && stage in k.stages then Some(k.stages[stage]) else None
  }

  lemma MergedAt(before: Stages, more: Stages, stage: string)
    ensures ValueOf(MergeStages(before, more), stage) ==
            if stage in more then Some(Merged(ValueOf(before, stage), stage, more[stage])) else ValueOf(before, stage)
  {
  }

  lemma SumOfNone()
    ensures Sum([]) == 0
  {
  }

  /** What a trace accumulates for a stage: the sum of its cache latencies, the
      largest embedding, the last of anything else. */
  lemma {:induction false} Accumulated(kept: seq<Kept>, trace: string, stage: string)
    ensures var values := FilterMap(ValueIn(trace, stage), kept);
            ValueOf(StagesOf(MetricsOf(kept), trace), stage) ==
            if values == [] then None
            else if stage == "cache" then Some(Sum(values))
            else if stage == "embed" then Some(Largest(values))
            else Some(values[|values| - 1])
  {
    hide FilterMap, MergeStages, Sum, Largest;
    SumOfNone();
    if kept == [] {
      FilterMapEmpty(ValueIn(trace, stage));
    } else {
      var front, last := kept[..|kept| - 1], kept[|kept| - 1];
      assert kept == front + [last];
      Accumulated(front, trace, stage);
      FilterMapLast(ValueIn(trace, stage), front, last);
      var values := FilterMap(ValueIn(trace, stage), front);
      assert values + [] == values;
      MergedAt(StagesOf(MetricsOf(front), last.traceId), last.stages, stage);
      if ValueIn(trace, stage)(last).Some? {
        SumLast(values, last.stages[stage]);
        LargestLast(values, last.stages[stage]);
      }
    }
  }

  /** Cache and embedding latencies do not depend on the order of the events. */
  lemma OrderDoesNotMatter(a: seq<Kept>, b: seq<Kept>, trace: string, stage: string)
    requires multiset(a) == multiset(b) && stage in {"cache", "embed"}
    ensures ValueOf(StagesOf(MetricsOf(a), trace), stage) == ValueOf(StagesOf(MetricsOf(b), trace), stage)
  {
    hide FilterMap, MetricsOf;
    var va, vb := FilterMap(ValueIn(trace, stage), a), FilterMap(ValueIn(trace, stage), b);
    FilterMapPermuted(ValueIn(trace, stage), a, b);
    Accumulated(a, trace, stage);
    Accumulated(b, trace, stage);
    SumPermuted(va, vb);
    assert |multiset(va)| == |va| && |multiset(vb)| == |vb|;
    if va != [] {
      LargestPermuted(va, vb);
    }
  }

  /** Nor does the set of traces seen. */
  lemma SeenIgnoresOrder(a: seq<Line>, b: seq<Line>, w: Window, allowed: set<string>)
    requires multiset(a) == multiset(b)
    ensures TracesSeen(a, w, allowed) == TracesSeen(b, w, allowed)
  {
    hide FilterMap, StagesIn;
    FilterMapPermuted(WithStages(w), a, b);
    FilterMapPermuted(Allow(allowed), FilterMap(WithStages(w), a), FilterMap(WithStages(w), b));
    OrderListsTraces(KeptOf(a, w, allowed));
    OrderListsTraces(KeptOf(b, w, allowed));
    forall k ensures k in KeptOf(a, w, allowed) <==> k in KeptOf(b, w, allowed) {
      assert k in multiset(KeptOf(a, w, allowed)) <==> k in multiset(KeptOf(b, w, allowed));
    }
  }

  lemma CorrelationIgnoresOrder(samples: seq<Sample>, a: seq<Line>, b: seq<Line>, w: Window)
    requires multiset(a) == multiset(b)
    ensures LevelCorrelation(samples, a, w) == LevelCorrelation(samples, b, w)
  {
    hide TracesSeen, ScopeOf;
    SeenIgnoresOrder(a, b, w, ScopeOf(samples).allowed);
  }

  /** What the loop reads with the allowed traces of a level is what the level's
      correlation is decided on. */
  lemma LevelDecidedOnReading(samples: seq<Sample>, lines: seq<Line>, w: Window)
    ensures LevelCorrelation(samples, lines, w) ==
            CorrelationOf(ScopeOf(samples), |ReadingOf(lines, w, Some(ScopeOf(samples).allowed)).traces|)
  {
    hide FilterMap, ReadingOf, TracesSeen;
    ProvidedNamed(samples);
    AllowedReading(lines, w, ScopeOf(samples).allowed);
  }
}

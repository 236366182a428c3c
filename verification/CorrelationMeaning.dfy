/** What the correlation of a benchmark level reports, in terms of its requests and
    of the lines of the trace log. */
module CorrelationMeaning {
  import opened Collections
  import opened TraceCorrelation

  // ----- the lines that count

  /** An event with stages whose time is in the window; without a time it is in no
      window that has an end. */
  predicate HasStages(line: Line, w: Window): (r: bool)
    ensures r ==> line.Parsed?
  {
    && line.Parsed? && line.event.stages != map[]
    && (match line.event.ts
        case None => w.started.None? && w.finished.None?
        case Some(ts) =>
          && (w.started.None? || w.started.value <= ts)
          && (w.finished.None? || ts <= w.finished.value))
  }

  predicate Admits(allowed: Option<set<string>>, t: string) { allowed.None? || t in allowed.value }

  function Taken(w: Window, allowed: Option<set<string>>): Line -> bool {
    (line: Line) => HasStages(line, w) && Admits(allowed, line.event.traceId)
  }

  function ShutOut(w: Window, allowed: Option<set<string>>): Line -> bool {
    (line: Line) => HasStages(line, w) && !Admits(allowed, line.event.traceId)
  }

  predicate Unreadable(line: Line) { line == Malformed }

  predicate LeftStages(lines: seq<Line>, w: Window, t: string) {
    exists line :: line in lines && HasStages(line, w) && line.event.traceId == t
  }

  lemma LineCounts(line: Line, w: Window)
    ensures WithStages(w)(line) ==
            if HasStages(line, w) then Some(Kept(line.event.traceId, line.event.stages)) else None
  {
  }

  lemma {:induction false} KeptCounted(lines: seq<Line>, w: Window, allowed: Option<set<string>>)
    ensures |Keyed(lines, w, allowed)| == Count(Taken(w, allowed), lines)
  {
    hide WithStages, HasStages, KeyOf, Count;
    if lines == [] {
      CountEmpty(Taken(w, allowed));
    } else {
      var front, line := lines[..|lines| - 1], lines[|lines| - 1];
      assert lines == front + [line];
      KeptCounted(front, w, allowed);
      LineCounts(line, w);
      CountLast(Taken(w, allowed), front, line);
    }
  }

  /** Every line with stages is an event that was kept or one that was shut out, and
      the traces are those of the kept events that name one. */
  lemma ReadExactly(lines: seq<Line>, w: Window, allowed: Option<set<string>>)
    ensures var r := ReadingOf(lines, w, allowed);
            && r.events == Count(Taken(w, allowed), lines)
            && r.excluded == Count(ShutOut(w, allowed), lines)
            && r.ignored == Count(Unreadable, lines)
            && (forall t :: t in r.traces <==> t != "" && Admits(allowed, t) && LeftStages(lines, w, t))
            && Distinct(r.order) && (forall t :: t in r.order <==> t in r.metrics)
  {
    hide FilterMap, Count, Keyed, MetricsOf, TraceOrder, WithStages, HasStages;
    KeptCounted(lines, w, allowed);
    OrderListsTraces(Keyed(lines, w, allowed));
    forall line ensures WithStages(w)(line) ==
      if HasStages(line, w) then Some(Kept(line.event.traceId, line.event.stages)) else None
    {
      LineCounts(line, w);
    }
    CountCongruent(IsExcluded(w, allowed), ShutOut(w, allowed), lines);
    CountCongruent(IsMalformed, Unreadable, lines);
    forall t ensures t in ReadingOf(lines, w, allowed).traces <==>
                     t != "" && Admits(allowed, t) && LeftStages(lines, w, t)
    {
      FilterMapMember(NamedTrace(w, allowed), lines, t);
    }
  }

  // ----- the values of a trace

  function Latency(w: Window, t: string, stage: string): Line -> Option<int> {
    (line: Line) =>
      if HasStages(line, w) && line.event.traceId == t && stage in line.event.stages
      then Some(line.event.stages[stage]) else None
  }

  /** What the lines of a trace make of a stage: caches add up, of embeddings the
      longest counts, of anything else the last. */
  function Measured(lines: seq<Line>, w: Window, t: string, stage: string): Option<int> {
    var values := FilterMap(Latency(w, t, stage), lines);
    if values == [] then None
    else if stage == "cache" then Some(Sum(values))
    else if stage == "embed" then Some(Largest(values))
    else Some(values[|values| - 1])
  }

  lemma {:induction false} ValuesOfTrace(lines: seq<Line>, w: Window, allowed: set<string>, t: string, stage: string)
    requires t in allowed
    ensures FilterMap(ValueIn(t, stage), KeptOf(lines, w, allowed)) == FilterMap(Latency(w, t, stage), lines)
  {
    hide FilterMap, WithStages, HasStages;
    if lines == [] {
      FilterMapEmpty(WithStages(w));
      FilterMapEmpty(Allow(allowed));
      FilterMapEmpty(ValueIn(t, stage));
      FilterMapEmpty(Latency(w, t, stage));
    } else {
      var front, line := lines[..|lines| - 1], lines[|lines| - 1];
      assert lines == front + [line];
      ValuesOfTrace(front, w, allowed, t, stage);
      LineCounts(line, w);
      FilterMapLast(WithStages(w), front, line);
      FilterMapLast(Latency(w, t, stage), front, line);
      var some, kept := FilterMap(WithStages(w), front), KeptOf(front, w, allowed);
      var values := FilterMap(ValueIn(t, stage), kept);
      assert some + [] == some && kept + [] == kept && values + [] == values;
      if HasStages(line, w) {
        var k := Kept(line.event.traceId, line.event.stages);
        FilterMapLast(Allow(allowed), some, k);
        FilterMapLast(ValueIn(t, stage), kept, k);
      }
    }
  }

  /** The value a reading holds for a stage of an allowed trace. */
  lemma MeasuredExactly(lines: seq<Line>, w: Window, allowed: set<string>, t: string, stage: string)
    requires "" !in allowed && t in allowed
    ensures ValueOf(StagesOf(ReadingOf(lines, w, Some(allowed)).metrics, t), stage) == Measured(lines, w, t, stage)
  {
    hide FilterMap, Sum, Largest, Keyed, KeptOf, MetricsOf;
    AllowedReading(lines, w, allowed);
    Accumulated(KeptOf(lines, w, allowed), t, stage);
    ValuesOfTrace(lines, w, allowed, t, stage);
  }

  // ----- the correlation of a level

  /** There are successful requests, they all name a trace, and no two the same. */
  predicate OwnTracesNamed(samples: seq<Sample>) {
    && (exists s :: s in samples && s.ok)
    && (forall s :: s in samples && s.ok ==> s.traceId != "")
    && forall i, j :: 0 <= i < j < |samples| && samples[i].ok && samples[j].ok ==>
         samples[i].traceId != samples[j].traceId
  }

  predicate AllLeftStages(samples: seq<Sample>, lines: seq<Line>, w: Window) {
    forall s :: s in samples && s.ok ==> LeftStages(lines, w, s.traceId)
  }

  lemma NamedExactly(samples: seq<Sample>)
    ensures OwnTraces(samples) <==> OwnTracesNamed(samples)
    ensures ScopeOf(samples).complete <==> OwnTracesNamed(samples)
    ensures ScopeOf(samples).provided == 0 <==> forall s :: s in samples && s.ok ==> s.traceId == ""
  {
    hide FilterMap;
    ProvidedNamed(samples);
    var provided, successful := FilterMap(ProvidedId, samples), FilterMap(Successful, samples);
    DistinctByCardinality(provided);
    DistinctExtracted(ProvidedId, samples);
    forall s ensures s in successful <==> s in samples && s.ok {
      FilterMapMember(Successful, samples, s);
    }
    forall t ensures t in provided <==> exists s :: s in samples && ProvidedId(s) == Some(t) {
      FilterMapMember(ProvidedId, samples, t);
    }
    assert successful != [] ==> successful[0] in successful;
    assert provided != [] ==> provided[0] in provided;
  }

  lemma SeenExactly(lines: seq<Line>, w: Window, allowed: set<string>, t: string)
    ensures t in TracesSeen(lines, w, allowed) <==> t in allowed && LeftStages(lines, w, t)
  {
    hide FilterMap, WithStages, HasStages, MetricsOf;
    OrderListsTraces(KeptOf(lines, w, allowed));
    forall k ensures k in KeptOf(lines, w, allowed) <==>
      k.traceId in allowed &&
      exists line :: line in lines && HasStages(line, w) && k == Kept(line.event.traceId, line.event.stages)
    {
      FilterMapMember(Allow(allowed), FilterMap(WithStages(w), lines), k);
      FilterMapMember(WithStages(w), lines, k);
      forall line ensures WithStages(w)(line) ==
        if HasStages(line, w) then Some(Kept(line.event.traceId, line.event.stages)) else None
      {
        LineCounts(line, w);
      }
    }
    if t in allowed && LeftStages(lines, w, t) {
      var line :| line in lines && HasStages(line, w) && line.event.traceId == t;
      assert Kept(t, line.event.stages) in KeptOf(lines, w, allowed);
    }
  }

  lemma AllSeenExactly(samples: seq<Sample>, lines: seq<Line>, w: Window)
    requires OwnTraces(samples)
    ensures var ids := Elements(FilterMap(ProvidedId, samples));
            TracesSeen(lines, w, ids) == ids <==> AllLeftStages(samples, lines, w)
  {
    hide FilterMap, TracesSeen, LeftStages;
    var ids := Elements(FilterMap(ProvidedId, samples));
    forall t ensures t in ids <==> exists s :: s in samples && s.ok && s.traceId == t {
      FilterMapMember(ProvidedId, samples, t);
      assert forall s :: s in samples && s.ok ==> ProvidedId(s) == Some(s.traceId);
    }
    forall t ensures t in TracesSeen(lines, w, ids) <==> t in ids && LeftStages(lines, w, t) {
      SeenExactly(lines, w, ids, t);
    }
  }

  /** The four correlations a level can report, each exactly. */
  lemma CorrelationExactly(samples: seq<Sample>, lines: seq<Line>, w: Window)
    ensures var c := LevelCorrelation(samples, lines, w);
            && (c == ExactTraceId <==> OwnTracesNamed(samples) && AllLeftStages(samples, lines, w))
            && (c == IncompleteEvents <==> OwnTracesNamed(samples) && !AllLeftStages(samples, lines, w))
            && (c == MissingIds <==> forall s :: s in samples && s.ok ==> s.traceId == "")
            && (c == IncompleteIds <==>
                !OwnTracesNamed(samples) && exists s :: s in samples && s.ok && s.traceId != "")
  {
    hide OwnTraces, OwnTracesNamed, AllLeftStages, TracesSeen, FilterMap, ScopeOf;
    NamedExactly(samples);
    ExactlyExact(samples, lines, w);
    NamedSome(samples);
    if OwnTraces(samples) {
      AllSeenExactly(samples, lines, w);
    }
  }

  lemma NamedSome(samples: seq<Sample>)
    ensures OwnTracesNamed(samples) ==> exists s :: s in samples && s.ok && s.traceId != ""
  {
  }

  /** A level reports the measured values of its requests' traces if its correlation
      is exact, and nothing otherwise. */
  lemma LevelValuesExactly(samples: seq<Sample>, lines: seq<Line>, w: Window, stage: string, v: nat)
    ensures v in LevelValues(samples, lines, w, stage) <==>
            && OwnTracesNamed(samples) && AllLeftStages(samples, lines, w)
            && exists s :: s in samples && s.ok && Measured(lines, w, s.traceId, stage) == Some(v)
  {
    hide OwnTraces, OwnTracesNamed, AllLeftStages, FilterMap, ScopeOf, MetricsOf, Measured, KeptOf, LevelCorrelation;
    CorrelationExactly(samples, lines, w);
    if LevelCorrelation(samples, lines, w).ExactTraceId? {
      var allowed := ScopeOf(samples).allowed;
      var kept := KeptOf(lines, w, allowed);
      ScopeAllows(samples);
      OrderListsTraces(kept);
      FilterMapMember(StageAt(MetricsOf(kept), stage), TraceOrder(kept), v);
      forall t | t in allowed ensures StageAt(MetricsOf(kept), stage)(t) == Measured(lines, w, t, stage) {
        AllowedReading(lines, w, allowed);
        MeasuredExactly(lines, w, allowed, t, stage);
      }
      forall t | t in MetricsOf(kept) ensures t in allowed {
        SeenAreAllowed(lines, w, allowed);
      }
    }
  }

  lemma ScopeAllows(samples: seq<Sample>)
    requires OwnTracesNamed(samples)
    ensures forall t :: t in ScopeOf(samples).allowed <==> exists s :: s in samples && s.ok && s.traceId == t
    ensures "" !in ScopeOf(samples).allowed
  {
    hide FilterMap;
    NamedExactly(samples);
    ProvidedNamed(samples);
    forall t ensures t in FilterMap(ProvidedId, samples) <==> exists s :: s in samples && s.ok && s.traceId == t {
      FilterMapMember(ProvidedId, samples, t);
      assert forall s :: s in samples && s.ok ==> ProvidedId(s) == Some(s.traceId);
    }
  }
}

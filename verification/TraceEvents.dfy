/** One parsed line of a RAG trace log. Absent numbers are `None`, absent text
    is empty, and a boolean field records Python truthiness. */
module TraceEvents {
  import opened Collections

  datatype EventName =
    | RagEnd
    | CorrectiveRetrieval
    | ClaimRepair
    | LlmRetry
    | QueryDecomposition
    | CommunitySummaries
    | Retrieval
    | ParentContext
    | Rerank
    | GraphRetrieval
    | LlmGeneration
    | GroundedMathGeneration
    | DeterministicGeneration
    | Other(text: string)

  /** A truthy field value: the constant `True`, or anything else by its text. */
  datatype FieldValue = JsonTrue | JsonText(text: string)

  /** The fields a decomposition event reports about its split. */
  datatype Split = Split(
    intentCount: Option<int>,
    subqueryCount: Option<int>,
    coverage: Option<seq<bool>>,
    intentOverflow: Option<bool>,
    deadlineExceeded: Option<bool>,
    plannerCount: Option<int>,
    inputTokens: Option<int>,
    outputTokens: Option<int>)

  datatype Event = Event(
    context: string,
    ts: Option<int>,
    name: EventName,
    traceId: string,
    hasError: bool,
    hasErrorType: bool,
    hasErrorStatus: bool,
    fallbackFields: map<string, FieldValue>,  // truthy fields whose folded key contains "fallback"
    retryAttempted: bool,
    isRollup: bool,
    exclusiveCost: Option<int>,
    estimatedCost: Option<int>,
    hasAttempt: bool,
    hasAttempted: bool,
    latency: Option<int>,
    finalLatency: Option<int>,
    split: Split)

  datatype Line = Malformed | Parsed(event: Event)

  /** The execution contexts and the time window of a report. */
  datatype Filter = Filter(contexts: set<string>, start: Option<int>, end: Option<int>)

  const EVALUATION := "evaluation"

  function ContextOf(e: Event): string {
    if e.context == "" then "production" else e.context
  }

  predicate InWindow(e: Event, f: Filter) {
    && ContextOf(e) in f.contexts
    && (f.start.Some? ==> e.ts.Some? && f.start.value <= e.ts.value)
    && (f.end.Some? ==> e.ts.Some? && e.ts.value <= f.end.value)
  }

  function Select(f: Filter): Line -> Option<Event> {
    (line: Line) => if line.Parsed? && InWindow(line.event, f) then Some(line.event) else None
  }

  /** The events of a log that a report with filter `f` looks at. */
  function Selected(lines: seq<Line>, f: Filter): seq<Event> {
    FilterMap(Select(f), lines)
  }

  predicate IsMalformed(line: Line) { line.Malformed? }
}

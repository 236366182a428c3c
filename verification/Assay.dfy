/** One synthetic assay: a metered provider that reserves every call on disk
    before making it, driven by an executor that may call it arbitrarily and
    ignore whatever it raises. */
module Assay {
  import opened Collections

  datatype Receipt = Receipt(trace: string, attempt: nat, auditComplete: bool, httpStatus: Option<int>, responded: bool)

  datatype Meter = Meter(traces: seq<string>, receipts: seq<Receipt>, fatalReason: Option<string>)

  /** A row of the result, one per case that was run to its end. */
  datatype Row = Row(
    caseId: string, observed: bool, receipt: Option<Receipt>, stop: bool, fatalReason: Option<string>, calls: nat)

  /** The files an assay creates below its output directory, each exclusively. */
  datatype Name =
    | ReservedFile(attempt: nat)
    | ReceiptFile(attempt: nat)
    | StopFile
    | StartedFile(caseId: string)
    | RowFile(caseId: string)

  datatype Content = Reservation(trace: string) | ReceiptOf(receipt: Receipt) | Text(text: string) | RowOf(row: Row)

  /** What happened, in order. */
  datatype Entry = Created(name: Name) | Called(trace: string, attempt: nat)

  datatype Session = Session(meter: Meter, expected: string, files: map<Name, Content>, history: seq<Entry>)

  const NEW_SESSION := Session(Meter([], [], None), "", map[], [])

  const SURFACE := "query_decomposition"

  datatype Answer = Response | Failure(policy: bool, httpStatus: Option<int>)

  /** One call of `invoke_once`, with everything the outside decides about it. */
  datatype Attempt = Attempt(
    surface: string,
    trace: string,
    cancelled: bool,
    expired: bool,
    pinned: bool,
    stopDisk: bool,
    reserveDisk: bool,
    adapterBuilt: bool,
    answer: Answer,
    auditRead: bool,
    auditComplete: bool,
    receiptDisk: bool,
    cancelledAfter: bool,
    expiredAfter: bool)

  datatype Outcome = Returned | Stopped(reason: string) | Failed

  const DENIED := {401, 403, 404}

  function StatusOf(answer: Answer): Option<int> {
    match answer case Response => None case Failure(_, status) => status
  }

  predicate Denied(status: Option<int>) { status.Some? && status.value in DENIED }

  // ----- the provider, as a function of its state

  /** `path.open('x')`: creates the file or fails, never overwrites. */
  function Create(s: Session, name: Name, content: Content, disk: bool): Option<Session> {
    if !disk || name in s.files then None
    else Some(s.(files := s.files[name := content], history := s.history + [Created(name)]))
  }

  function StopStep(s: Session, reason: string, disk: bool): (Session, Outcome) {
    var marked := s.(meter := s.meter.(fatalReason := Some(reason)));
    var written := Create(marked, StopFile, Text(reason), disk);
    if written.Some? then (written.value, Stopped(reason)) else (marked, Failed)
  }

  predicate BreaksContract(s: Session, a: Attempt, limit: nat) {
    a.surface != SURFACE || a.trace != s.expected || a.trace in s.meter.traces || |s.meter.traces| >= limit
  }

  function InvokeStep(s: Session, a: Attempt, limit: nat): (Session, Outcome) {
    if a.cancelled then (s, Failed)
    else if a.expired then StopStep(s, "window_expired", a.stopDisk)
    else if BreaksContract(s, a, limit) then StopStep(s, "provider_call_contract", a.stopDisk)
    else if !a.pinned then StopStep(s, "pinned_input_drift", a.stopDisk)
    else ReserveStep(s.(meter := s.meter.(traces := s.meter.traces + [a.trace])), a)
  }

  function ReserveStep(s: Session, a: Attempt): (Session, Outcome) {
    var attempt := |s.meter.traces|;
    var reserved := Create(s, ReservedFile(attempt), Reservation(a.trace), a.reserveDisk);
    if reserved.None? || !a.adapterBuilt then (if reserved.Some? then reserved.value else s, Failed)
    else
      var called := reserved.value.(history := reserved.value.history + [Called(a.trace, attempt)]);
      if !a.auditRead then (called, Failed)
      else
        RecordStep(called, a, Receipt(a.trace, attempt, a.auditComplete, StatusOf(a.answer), a.answer.Response?))
  }

  function RecordStep(s: Session, a: Attempt, receipt: Receipt): (Session, Outcome) {
    var metered := s.(meter := s.meter.(receipts := s.meter.receipts + [receipt]));
    var written := Create(metered, ReceiptFile(receipt.attempt), ReceiptOf(receipt), a.receiptDisk);
    if written.None? then (metered, Failed)
    else if !a.auditComplete then StopStep(written.value, "audit_terminal_missing", a.stopDisk)
    else if a.answer.Failure? then
      if a.answer.policy || Denied(a.answer.httpStatus)
      then StopStep(written.value, "provider_policy_or_configuration_failure", a.stopDisk)
      else (written.value, Failed)
    else if a.cancelledAfter then (written.value, Failed)
    else if a.expiredAfter then StopStep(written.value, "window_expired_after_provider", a.stopDisk)
    else (written.value, Returned)
  }

  /** What an executor does: calls, and diagnostics whose capture may fail. */
  datatype Action = Invoke(attempt: Attempt) | CaptureFailed(disk: bool)

  function ActStep(s: Session, action: Action, limit: nat): Session {
    match action
    case Invoke(attempt) => InvokeStep(s, attempt, limit).0
    case CaptureFailed(disk) => StopStep(s, "routing_diagnostics_capture_failed", disk).0
  }

  /** An executor is the list of its actions: whatever it makes of an outcome
      shows in what it does next. */
  function ActFrom(s: Session, actions: seq<Action>, i: nat, limit: nat): Session
    decreases |actions| - i
  {
    if i >= |actions| then s else ActFrom(ActStep(s, actions[i], limit), actions, i + 1, limit)
  }

  // ----- one case

  datatype Work = Work(
    actions: seq<Action>,
    observed: bool,       // the executor returned, and observation and grade were written
    closedAfter: bool,    // cancelled or past the deadline when the case ends
    startedDisk: bool,
    rowDisk: bool)

  function TraceOf(runId: string, caseId: string): string { "fixed:" + runId + ":" + caseId }

  function NewReceipt(before: Session, after: Session): Option<Receipt> {
    var receipts := after.meter.receipts;
    if |receipts| > |before.meter.receipts| then Some(receipts[|receipts| - 1]) else None
  }

  function RowFor(before: Session, after: Session, caseId: string, work: Work): Row {
    var receipt := NewReceipt(before, after);
    var stop := after.meter.fatalReason.Some? || (!work.observed && receipt.None?) || work.closedAfter ||
                (receipt.Some? && (!receipt.value.auditComplete || Denied(receipt.value.httpStatus)));
    Row(caseId, work.observed, receipt, stop, after.meter.fatalReason, |after.meter.traces|)
  }

  /** `_case_result`; no row when an exclusive write fails, which ends the assay. */
  function CaseStep(s: Session, runId: string, caseId: string, work: Work, limit: nat): (Session, Option<Row>) {
    var entered := s.(expected := TraceOf(runId, caseId));
    var started := Create(entered, StartedFile(caseId), Text(caseId), work.startedDisk);
    if started.None? then (entered, None)
    else
      var acted := ActFrom(started.value, work.actions, 0, limit);
      var row := RowFor(s, acted, caseId, work);
      var written := Create(acted, RowFile(caseId), RowOf(row), work.rowDisk);
      if written.None? then (acted, None) else (written.value, Some(row))
  }

  // ----- the case loop

  datatype Plan = Plan(
    runId: string,
    closedBefore: nat -> bool,   // cancelled or past the deadline before case `i`
    pinned: nat -> bool,         // the pins verify before case `i`
    work: nat -> Work)

  datatype Loop = Loop(session: Session, rows: seq<Row>, aborted: bool)

  function CasesFrom(s: Session, plan: Plan, ids: seq<string>, i: nat, rows: seq<Row>, limit: nat): Loop
    decreases |ids| - i
  {
    if i >= |ids| || plan.closedBefore(i) then Loop(s, rows, false)
    else if !plan.pinned(i) then Loop(s, rows, true)
    else
      var (next, row) := CaseStep(s, plan.runId, ids[i], plan.work(i), limit);
      if row.None? then Loop(next, rows, true)
      else if row.value.stop then Loop(next, rows + [row.value], false)
      else CasesFrom(next, plan, ids, i + 1, rows + [row.value], limit)
  }

  function RunCases(plan: Plan, ids: seq<string>, limit: nat): Loop {
    CasesFrom(NEW_SESSION, plan, ids, 0, [], limit)
  }

  // ----- what every step owes its past

  /** Files are never changed once created. */
  predicate FilesKept(s: Session, t: Session) {
    forall name :: name in s.files ==> name in t.files && t.files[name] == s.files[name]
  }

  /** The past stays, and nothing was called for since. */
  predicate Silent(s: Session, t: Session) {
    && FilesKept(s, t) && s.history <= t.history
    && forall k :: |s.history| <= k < |t.history| ==> t.history[k].Created?
  }

  /** The past stays, and whatever was called for since was called for right after
      its reservation was created, as the first entry. */
  predicate CalledReserved(s: Session, t: Session, trace: string, attempt: nat) {
    && FilesKept(s, t) && s.history <= t.history
    && forall k :: |s.history| <= k < |t.history| && t.history[k].Called? ==>
         && k == |s.history| + 1 && t.history[k] == Called(trace, attempt)
         && t.history[|s.history|] == Created(ReservedFile(attempt)) && ReservedFile(attempt) !in s.files
         && ReservedFile(attempt) in t.files && t.files[ReservedFile(attempt)] == Reservation(trace)
  }

  // ----- what an attempt is refused for

  /** A planner call of the expected trace, not called for before, within the limit. */
  predicate Proper(s: Session, a: Attempt, limit: nat) {
    && a.surface == "query_decomposition" && a.trace == s.expected
    && a.trace !in s.meter.traces && |s.meter.traces| < limit
  }

  /** Nothing about the attempt stands between it and its reservation. */
  predicate Admitted(s: Session, a: Attempt, limit: nat) {
    !a.cancelled && !a.expired && Proper(s, a, limit) && a.pinned
  }

  /** A cancelled attempt leaves no reason; any other the first that applies. */
  function RefusalReason(s: Session, a: Attempt, limit: nat): Option<string> {
    if a.cancelled then None
    else if a.expired then Some("window_expired")
    else if !Proper(s, a, limit) then Some("provider_call_contract")
    else Some("pinned_input_drift")
  }

  /** From `s` to `t` an attempt was refused: its reason is marked, and at most
      the stop file was written; nothing was reserved, called or received. */
  predicate Refused(s: Session, a: Attempt, limit: nat, t: Session) {
    var reason := RefusalReason(s, a, limit);
    && t.meter == s.meter.(fatalReason := if reason.Some? then reason else s.meter.fatalReason)
    && t.expected == s.expected
    && (t.history == s.history || (reason.Some? && t.history == s.history + [Created(StopFile)]))
  }

  /** An admitted attempt calls the provider exactly if its reservation could be
      created and the adapter built. */
  predicate Served(s: Session, a: Attempt, t: Session) {
    && t.meter.traces == s.meter.traces + [a.trace]
    && ((exists k :: |s.history| <= k < |t.history| && t.history[k].Called?) <==>
        a.reserveDisk && ReservedFile(|s.meter.traces| + 1) !in s.files && a.adapterBuilt)
  }

  /** The reason after a receipt: incomplete audit, denial, or a window that has
      expired since, in this order; else what it was. */
  function ReceiptReason(a: Attempt, written: bool, before: Option<string>): Option<string> {
    if !written then before
    else if !a.auditComplete then Some("audit_terminal_missing")
    else if a.answer.Failure? && (a.answer.policy || a.answer.httpStatus in [Some(401), Some(403), Some(404)]) then
      Some("provider_policy_or_configuration_failure")
    else if a.answer.Response? && !a.cancelledAfter && a.expiredAfter then Some("window_expired_after_provider")
    else before
  }

  predicate Delivered(a: Attempt, written: bool) {
    written && a.auditComplete && a.answer.Response? && !a.cancelledAfter && !a.expiredAfter
  }

  /** Whether a case ends the assay. */
  predicate Stops(m: Meter, observed: bool, receipt: Option<Receipt>, closedAfter: bool) {
    || m.fatalReason != None || closedAfter || (!observed && receipt == None)
    || (receipt.Some? &&
        (!receipt.value.auditComplete || receipt.value.httpStatus in [Some(401), Some(403), Some(404)]))
  }

  // ----- the source's object

  class Provider {
    var meter: Meter
    var expectedTrace: string
    const callLimit: nat
    var files: map<Name, Content>
    var history: seq<Entry>

    function State(): Session
      reads this
    {
      Session(meter, expectedTrace, files, history)
    }

    constructor (limit: nat)
      ensures State() == NEW_SESSION && callLimit == limit
    {
      meter, expectedTrace, callLimit := Meter([], [], None), "", limit;
      files, history := map[], [];
    }

    method Write(name: Name, content: Content, disk: bool) returns (ok: bool)
      modifies this`files, this`history
      ensures ok == Create(old(State()), name, content, disk).Some?
      ensures State() == if ok then Create(old(State()), name, content, disk).value else old(State())
      ensures Silent(old(State()), State()) && (ok ==> files[name] == content)
    {
      ok := disk && name !in files;
      if ok {
        files := files[name := content];
        history := history + [Created(name)];
      }
    }

    method Stop(reason: string, disk: bool) returns (outcome: Outcome)
      modifies this
      ensures (State(), outcome) == StopStep(old(State()), reason, disk)
      ensures Silent(old(State()), State()) && meter.fatalReason == Some(reason) && !outcome.Returned?
      ensures meter.traces == old(meter.traces) && meter.receipts == old(meter.receipts)
    {
      meter := meter.(fatalReason := Some(reason));
      var ok := Write(StopFile, Text(reason), disk);
      outcome := if ok then Stopped(reason) else Failed;
    }

    method InvokeOnce(a: Attempt) returns (outcome: Outcome)
      modifies this
      ensures (State(), outcome) == InvokeStep(old(State()), a, callLimit)
      ensures CalledReserved(old(State()), State(), old(expectedTrace), old(|meter.traces|) + 1)
      ensures meter.traces == old(meter.traces) ==> Silent(old(State()), State()) && !outcome.Returned?
      ensures meter.traces != old(meter.traces) ==>
                && meter.traces == old(meter.traces) + [old(expectedTrace)] && |meter.traces| <= callLimit
                && old(expectedTrace) !in old(meter.traces)
      ensures !Admitted(old(State()), a, callLimit) ==>
                Refused(old(State()), a, callLimit, State()) && !outcome.Returned?
      ensures Admitted(old(State()), a, callLimit) ==> Served(old(State()), a, State())
    {
      hide ReserveStep, RecordStep;
      if a.cancelled {
        return Failed;
      }
      if a.expired {
        outcome := Stop("window_expired", a.stopDisk);
        return;
      }
      if a.surface != SURFACE || a.trace != expectedTrace || a.trace in meter.traces || |meter.traces| >= callLimit {
        outcome := Stop("provider_call_contract", a.stopDisk);
        return;
      }
      if !a.pinned {
        outcome := Stop("pinned_input_drift", a.stopDisk);
        return;
      }
      meter := meter.(traces := meter.traces + [a.trace]);
      outcome := Reserve(a);
    }

    method Reserve(a: Attempt) returns (outcome: Outcome)
      modifies this
      ensures (State(), outcome) == ReserveStep(old(State()), a)
      ensures CalledReserved(old(State()), State(), a.trace, |meter.traces|) && meter.traces == old(meter.traces)
      ensures meter.receipts != old(meter.receipts) ==>
                && |history| > |old(history)| + 1 && history[|old(history)| + 1] == Called(a.trace, |meter.traces|)
      ensures var called := a.reserveDisk && ReservedFile(|meter.traces|) !in old(files) && a.adapterBuilt;
              && ((exists k :: |old(history)| <= k < |history| && history[k].Called?) <==> called)
              && meter.receipts == old(meter.receipts) +
                   if !called || !a.auditRead then []
                   else [Receipt(a.trace, |meter.traces|, a.auditComplete,
                                 if a.answer.Failure? then a.answer.httpStatus else None, a.answer.Response?)]
    {
      hide RecordStep;
      var attempt := |meter.traces|;
      var reserved := Write(ReservedFile(attempt), Reservation(a.trace), a.reserveDisk);
      if !reserved || !a.adapterBuilt {
        return Failed;
      }
      ghost var call := |history|;
      history := history + [Called(a.trace, attempt)];
      assert history[call].Called?;
      if !a.auditRead {
        return Failed;
      }
      var receipt := Receipt(a.trace, attempt, a.auditComplete, StatusOf(a.answer), a.answer.Response?);
      outcome := Record(a, receipt);
      assert history[call].Called?;
    }

    method Record(a: Attempt, receipt: Receipt) returns (outcome: Outcome)
      modifies this
      ensures (State(), outcome) == RecordStep(old(State()), a, receipt)
      ensures Silent(old(State()), State()) && meter.receipts == old(meter.receipts) + [receipt]
      ensures meter.traces == old(meter.traces)
      ensures var written := a.receiptDisk && ReceiptFile(receipt.attempt) !in old(files);
              && meter.fatalReason == ReceiptReason(a, written, old(meter.fatalReason))
              && (outcome.Returned? <==> Delivered(a, written))
      ensures outcome.Returned? ==>
                && a.auditComplete && a.answer.Response? && meter.fatalReason == old(meter.fatalReason)
                && ReceiptFile(receipt.attempt) in files && files[ReceiptFile(receipt.attempt)] == ReceiptOf(receipt)
    {
      hide StopStep;
      meter := meter.(receipts := meter.receipts + [receipt]);
      var written := Write(ReceiptFile(receipt.attempt), ReceiptOf(receipt), a.receiptDisk);
      if !written {
        return Failed;
      }
      if !a.auditComplete {
        outcome := Stop("audit_terminal_missing", a.stopDisk);
      } else if a.answer.Failure? {
        if a.answer.policy || Denied(a.answer.httpStatus) {
          outcome := Stop("provider_policy_or_configuration_failure", a.stopDisk);
        } else {
          outcome := Failed;
        }
      } else if a.cancelledAfter {
        outcome := Failed;
      } else if a.expiredAfter {
        outcome := Stop("window_expired_after_provider", a.stopDisk);
      } else {
        outcome := Returned;
      }
    }

    /** The executor at work on the current case. */
    method Act(actions: seq<Action>)
      modifies this
      ensures State() == ActFrom(old(State()), actions, 0, callLimit)
      ensures FilesKept(old(State()), State())
    {
      for i := 0 to |actions|
        invariant FilesKept(old(State()), State())
        invariant ActFrom(State(), actions, i, callLimit) == ActFrom(old(State()), actions, 0, callLimit)
      {
        match actions[i] {
          case Invoke(attempt) =>
            var _ := InvokeOnce(attempt);
          case CaptureFailed(disk) =>
            var _ := Stop("routing_diagnostics_capture_failed", disk);
        }
      }
    }

    method RunCase(runId: string, caseId: string, work: Work) returns (row: Option<Row>)
      modifies this
      ensures (State(), row) == CaseStep(old(State()), runId, caseId, work, callLimit)
      ensures FilesKept(old(State()), State())
      ensures row.Some? ==>
                && row.value.caseId == caseId && row.value.fatalReason == meter.fatalReason
                && row.value.observed == work.observed && row.value.calls == |meter.traces|
                && row.value.receipt ==
                     (if |meter.receipts| > |old(meter.receipts)|
                      then Some(meter.receipts[|meter.receipts| - 1]) else None)
                && row.value.stop == Stops(meter, work.observed, row.value.receipt, work.closedAfter)
                && StartedFile(caseId) !in old(files) && RowFile(caseId) !in old(files)
                && RowFile(caseId) in files && files[RowFile(caseId)] == RowOf(row.value)
    {
      var before := State();
      expectedTrace := TraceOf(runId, caseId);
      var ok := Write(StartedFile(caseId), Text(caseId), work.startedDisk);
      if !ok {
        return None;
      }
      Act(work.actions);
      var result := RowFor(before, State(), caseId, work);
      ok := Write(RowFile(caseId), RowOf(result), work.rowDisk);
      row := if ok then Some(result) else None;
    }

    method RunAll(plan: Plan, ids: seq<string>) returns (rows: seq<Row>, aborted: bool)
      requires State() == NEW_SESSION
      modifies this
      ensures Loop(State(), rows, aborted) == RunCases(plan, ids, callLimit)
    {
      rows, aborted := [], false;
      for i := 0 to |ids|
        invariant CasesFrom(State(), plan, ids, i, rows, callLimit) == RunCases(plan, ids, callLimit)
      {
        if plan.closedBefore(i) {
          return;
        }
        if !plan.pinned(i) {
          return rows, true;
        }
        var row := RunCase(plan.runId, ids[i], plan.work(i));
        if row.None? {
          return rows, true;
        }
        rows := rows + [row.value];
        if row.value.stop {
          return;
        }
      }
    }
  }
}

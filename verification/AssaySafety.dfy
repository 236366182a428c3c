/** What an assay keeps whatever its executor and its surroundings do. */
module AssaySafety {
  import opened Collections
  import opened Assay

  function CallKey(e: Entry): Option<string> {
    match e case Called(trace, _) => Some(trace) case Created(_) => None
  }

  /** The traces the provider was really called for, in order. */
  function Calls(s: Session): seq<string> { FilterMap(CallKey, s.history) }

  /** Every call comes after the file that reserves it, which names its trace. */
  ghost predicate ReservedFirst(s: Session) {
    forall p :: 0 <= p < |s.history| && s.history[p].Called? ==> ReservedBefore(s, p)
  }

  ghost predicate ReservedBefore(s: Session, p: nat)
    requires p < |s.history| && s.history[p].Called?
  {
    var name := ReservedFile(s.history[p].attempt);
    && name in s.files && s.files[name] == Reservation(s.history[p].trace)
    && exists q :: 0 <= q < p && s.history[q] == Created(name)
  }

  /** Attempt numbers index the metered traces. */
  predicate Numbered(s: Session) {
    && (forall p :: 0 <= p < |s.history| && s.history[p].Called? ==>
          1 <= s.history[p].attempt <= |s.meter.traces| &&
          s.meter.traces[s.history[p].attempt - 1] == s.history[p].trace)
    && (forall r :: r in s.meter.receipts ==>
          1 <= r.attempt <= |s.meter.traces| && s.meter.traces[r.attempt - 1] == r.trace)
  }

  predicate Metered(s: Session, limit: nat) {
    && Distinct(s.meter.traces) && |s.meter.traces| <= limit
    && Distinct(Calls(s)) && (forall t :: t in Calls(s) ==> t in s.meter.traces)
  }

  ghost predicate Sound(s: Session, limit: nat) {
    Metered(s, limit) && Numbered(s) && ReservedFirst(s)
  }

  // ----- single steps

  lemma Extended(s: Session, e: Entry)
    ensures Calls(s.(history := s.history + [e])) ==
            Calls(s) + match e case Called(trace, _) => [trace] case Created(_) => []
  {
    FilterMapLast(CallKey, s.history, e);
  }

  /** Creating a file disturbs nothing. */
  lemma CreateKeeps(s: Session, name: Name, content: Content, disk: bool, limit: nat)
    requires Sound(s, limit) && Create(s, name, content, disk).Some?
    ensures var t := Create(s, name, content, disk).value;
            Sound(t, limit) && Calls(t) == Calls(s) && t.meter == s.meter && t.expected == s.expected
  {
    var t := Create(s, name, content, disk).value;
    Extended(s, Created(name));
    assert t.history[..|s.history|] == s.history;
    forall p | 0 <= p < |t.history| && t.history[p].Called? ensures ReservedBefore(t, p) {
      assert ReservedBefore(s, p);
      var q :| 0 <= q < p && s.history[q] == Created(ReservedFile(s.history[p].attempt));
      assert t.history[q] == s.history[q];
    }
  }

  lemma MarkKeeps(s: Session, reason: Option<string>, expected: string, limit: nat)
    requires Sound(s, limit)
    ensures var t := s.(meter := s.meter.(fatalReason := reason), expected := expected);
            Sound(t, limit) && Calls(t) == Calls(s)
  {
    var t := s.(meter := s.meter.(fatalReason := reason), expected := expected);
    forall p | 0 <= p < |t.history| && t.history[p].Called? ensures ReservedBefore(t, p) {
      assert ReservedBefore(s, p);
    }
  }

  lemma StopKeeps(s: Session, reason: string, disk: bool, limit: nat)
    requires Sound(s, limit)
    ensures var t := StopStep(s, reason, disk).0;
            && Sound(t, limit) && Calls(t) == Calls(s)
            && t.meter == s.meter.(fatalReason := Some(reason)) && t.expected == s.expected
  {
    MarkKeeps(s, Some(reason), s.expected, limit);
    var marked := s.(meter := s.meter.(fatalReason := Some(reason)));
    if Create(marked, StopFile, Text(reason), disk).Some? {
      CreateKeeps(marked, StopFile, Text(reason), disk, limit);
    }
  }

  /** The meter grows before anything else happens for a call. */
  lemma TraceKeeps(s: Session, trace: string, limit: nat)
    requires Sound(s, limit) && trace !in s.meter.traces && |s.meter.traces| < limit
    ensures var t := s.(meter := s.meter.(traces := s.meter.traces + [trace]));
            Sound(t, limit) && Calls(t) == Calls(s) && trace !in Calls(t)
  {
    var t := s.(meter := s.meter.(traces := s.meter.traces + [trace]));
    forall p | 0 <= p < |t.history| && t.history[p].Called? ensures ReservedBefore(t, p) {
      assert ReservedBefore(s, p);
    }
  }

  lemma CallKeeps(s: Session, trace: string, limit: nat)
    requires Sound(s, limit) && s.meter.traces != [] && trace == s.meter.traces[|s.meter.traces| - 1]
    requires trace !in Calls(s) && s.history != []
    requires s.history[|s.history| - 1] == Created(ReservedFile(|s.meter.traces|))
    requires ReservedFile(|s.meter.traces|) in s.files
    requires s.files[ReservedFile(|s.meter.traces|)] == Reservation(trace)
    ensures var t := s.(history := s.history + [Called(trace, |s.meter.traces|)]);
            Sound(t, limit) && Calls(t) == Calls(s) + [trace]
  {
    var t := s.(history := s.history + [Called(trace, |s.meter.traces|)]);
    Extended(s, Called(trace, |s.meter.traces|));
    forall p | 0 <= p < |t.history| && t.history[p].Called? ensures ReservedBefore(t, p) {
      if p < |s.history| {
        assert ReservedBefore(s, p);
        var q :| 0 <= q < p && s.history[q] == Created(ReservedFile(s.history[p].attempt));
        assert t.history[q] == s.history[q];
      } else {
        assert t.history[p - 1] == s.history[p - 1];
      }
    }
  }

  lemma ReceiptKeeps(s: Session, receipt: Receipt, limit: nat)
    requires Sound(s, limit) && 1 <= receipt.attempt <= |s.meter.traces|
    requires s.meter.traces[receipt.attempt - 1] == receipt.trace
    ensures var t := s.(meter := s.meter.(receipts := s.meter.receipts + [receipt]));
            Sound(t, limit) && Calls(t) == Calls(s)
  {
    var t := s.(meter := s.meter.(receipts := s.meter.receipts + [receipt]));
    forall p | 0 <= p < |t.history| && t.history[p].Called? ensures ReservedBefore(t, p) {
      assert ReservedBefore(s, p);
    }
  }

  // ----- one case: what grows, and by whose trace

  /** From `s` to `t` the provider was called at most once, for the expected
      trace, and at most one receipt was added, for that trace. */
  ghost predicate AtMostOne(s: Session, t: Session) {
    && t.expected == s.expected
    && (Calls(t) == Calls(s) || Calls(t) == Calls(s) + [s.expected])
    && (t.meter.traces == s.meter.traces || t.meter.traces == s.meter.traces + [s.expected])
    && (t.meter.traces == s.meter.traces ==> Calls(t) == Calls(s) && t.meter.receipts == s.meter.receipts)
    && (t.meter.receipts == s.meter.receipts ||
        exists r :: t.meter.receipts == s.meter.receipts + [r] && r.trace == s.expected)
  }

  lemma RecordKeeps(s: Session, a: Attempt, receipt: Receipt, limit: nat)
    requires Sound(s, limit) && 1 <= receipt.attempt <= |s.meter.traces|
    requires s.meter.traces[receipt.attempt - 1] == receipt.trace
    ensures var t := RecordStep(s, a, receipt).0;
            && Sound(t, limit) && Calls(t) == Calls(s) && t.expected == s.expected
            && t.meter.traces == s.meter.traces && t.meter.receipts == s.meter.receipts + [receipt]
  {
    hide Sound, Calls;
    ReceiptKeeps(s, receipt, limit);
    var metered := s.(meter := s.meter.(receipts := s.meter.receipts + [receipt]));
    var written := Create(metered, ReceiptFile(receipt.attempt), ReceiptOf(receipt), a.receiptDisk);
    if written.Some? {
      CreateKeeps(metered, ReceiptFile(receipt.attempt), ReceiptOf(receipt), a.receiptDisk, limit);
      StopKeeps(written.value, "audit_terminal_missing", a.stopDisk, limit);
      StopKeeps(written.value, "provider_policy_or_configuration_failure", a.stopDisk, limit);
      StopKeeps(written.value, "window_expired_after_provider", a.stopDisk, limit);
    }
  }

  lemma ReserveKeeps(s: Session, a: Attempt, limit: nat)
    requires Sound(s, limit) && s.meter.traces != [] && s.meter.traces[|s.meter.traces| - 1] == a.trace
    requires a.trace !in Calls(s) && a.trace == s.expected
    ensures var t := ReserveStep(s, a).0;
            && Sound(t, limit) && t.expected == s.expected && t.meter.traces == s.meter.traces
            && (Calls(t) == Calls(s) || Calls(t) == Calls(s) + [a.trace])
            && (t.meter.receipts == s.meter.receipts ||
                exists r :: t.meter.receipts == s.meter.receipts + [r] && r.trace == s.expected)
  {
    hide RecordStep, Sound;
    var attempt := |s.meter.traces|;
    var reserved := Create(s, ReservedFile(attempt), Reservation(a.trace), a.reserveDisk);
    if reserved.Some? {
      CreateKeeps(s, ReservedFile(attempt), Reservation(a.trace), a.reserveDisk, limit);
      CallKeeps(reserved.value, a.trace, limit);
      var called := reserved.value.(history := reserved.value.history + [Called(a.trace, attempt)]);
      RecordKeeps(called, a, Receipt(a.trace, attempt, a.auditComplete, StatusOf(a.answer), a.answer.Response?), limit);
    }
  }

  lemma InvokeKeeps(s: Session, a: Attempt, limit: nat)
    requires Sound(s, limit)
    ensures Sound(InvokeStep(s, a, limit).0, limit)
    ensures AtMostOne(s, InvokeStep(s, a, limit).0)
  {
    StopKeeps(s, "window_expired", a.stopDisk, limit);
    StopKeeps(s, "provider_call_contract", a.stopDisk, limit);
    StopKeeps(s, "pinned_input_drift", a.stopDisk, limit);
    if !a.cancelled && !a.expired && !BreaksContract(s, a, limit) && a.pinned {
      TraceKeeps(s, a.trace, limit);
      ReserveKeeps(s.(meter := s.meter.(traces := s.meter.traces + [a.trace])), a, limit);
    }
  }

  /** Once its trace is metered, a case gets no further call. */
  lemma SpentTrace(s: Session, a: Attempt, limit: nat)
    requires Sound(s, limit) && s.expected in s.meter.traces
    ensures var t := InvokeStep(s, a, limit).0;
            t.meter.traces == s.meter.traces && t.meter.receipts == s.meter.receipts && Calls(t) == Calls(s)
  {
    StopKeeps(s, "window_expired", a.stopDisk, limit);
    StopKeeps(s, "provider_call_contract", a.stopDisk, limit);
  }

  lemma ActKeeps(s: Session, action: Action, limit: nat)
    requires Sound(s, limit)
    ensures var t := ActStep(s, action, limit);
            Sound(t, limit) && AtMostOne(s, t) && (s.expected in s.meter.traces ==> t.meter.traces == s.meter.traces)
  {
    match action
    case Invoke(a) =>
      InvokeKeeps(s, a, limit);
      if s.expected in s.meter.traces {
        SpentTrace(s, a, limit);
      }
    case CaptureFailed(disk) =>
      StopKeeps(s, "routing_diagnostics_capture_failed", disk, limit);
  }

  lemma Chain(s: Session, t: Session, u: Session)
    requires AtMostOne(s, t) && AtMostOne(t, u)
    requires t.expected in t.meter.traces ==> u.meter.traces == t.meter.traces
    ensures AtMostOne(s, u)
  {
  }

  /** Whatever an executor does within a case: at most one call, for the case's
      own trace, and at most one receipt, for that trace. */
  lemma {:induction false} CaseCallsOnce(s: Session, actions: seq<Action>, i: nat, limit: nat)
    requires Sound(s, limit)
    ensures Sound(ActFrom(s, actions, i, limit), limit)
    ensures AtMostOne(s, ActFrom(s, actions, i, limit))
    ensures s.expected in s.meter.traces ==> ActFrom(s, actions, i, limit).meter.traces == s.meter.traces
    decreases |actions| - i
  {
    if i < |actions| {
      var t := ActStep(s, actions[i], limit);
      ActKeeps(s, actions[i], limit);
      CaseCallsOnce(t, actions, i + 1, limit);
      Chain(s, t, ActFrom(t, actions, i + 1, limit));
    }
  }

  lemma RecordKeepsFiles(s: Session, a: Attempt, receipt: Receipt)
    ensures FilesKept(s, RecordStep(s, a, receipt).0)
  {
  }

  lemma ReserveKeepsFiles(s: Session, a: Attempt)
    ensures FilesKept(s, ReserveStep(s, a).0)
  {
    hide RecordStep;
    var attempt := |s.meter.traces|;
    var reserved := Create(s, ReservedFile(attempt), Reservation(a.trace), a.reserveDisk);
    if reserved.Some? {
      var called := reserved.value.(history := reserved.value.history + [Called(a.trace, attempt)]);
      RecordKeepsFiles(called, a, Receipt(a.trace, attempt, a.auditComplete, StatusOf(a.answer), a.answer.Response?));
    }
  }

  lemma ActKeepsFiles(s: Session, action: Action, limit: nat)
    ensures FilesKept(s, ActStep(s, action, limit))
  {
    hide ReserveStep;
    if action.Invoke? {
      var a := action.attempt;
      ReserveKeepsFiles(s.(meter := s.meter.(traces := s.meter.traces + [a.trace])), a);
    }
  }

  lemma {:induction false} CaseKeepsFiles(s: Session, actions: seq<Action>, i: nat, limit: nat)
    ensures FilesKept(s, ActFrom(s, actions, i, limit))
    decreases |actions| - i
  {
    hide ActStep;
    if i < |actions| {
      ActKeepsFiles(s, actions[i], limit);
      CaseKeepsFiles(ActStep(s, actions[i], limit), actions, i + 1, limit);
    }
  }

  // ----- one case of the loop

  /** A row's receipt belongs to the row's trace. A row that does not stop the
      assay reports no fatal reason, was observed or at least called for, and its
      call, if any, was fully audited and not denied. */
  predicate RowFits(row: Row, runId: string, caseId: string) {
    && row.caseId == caseId
    && (row.receipt.Some? ==> row.receipt.value.trace == TraceOf(runId, caseId))
    && (!row.stop ==>
          && row.fatalReason.None? && (row.observed || row.receipt.Some?)
          && (row.receipt.Some? ==> row.receipt.value.auditComplete && !Denied(row.receipt.value.httpStatus)))
  }

  lemma CaseKeeps(s: Session, runId: string, caseId: string, work: Work, limit: nat)
    requires Sound(s, limit)
    ensures var (t, row) := CaseStep(s, runId, caseId, work, limit);
            && Sound(t, limit)
            && (Calls(t) == Calls(s) || Calls(t) == Calls(s) + [TraceOf(runId, caseId)])
            && (row.Some? ==> RowFits(row.value, runId, caseId))
            && (row.Some? ==> row.value.fatalReason == t.meter.fatalReason)
  {
    hide Sound, Calls;
    var entered := s.(expected := TraceOf(runId, caseId));
    MarkKeeps(s, s.meter.fatalReason, TraceOf(runId, caseId), limit);
    assert entered == s.(meter := s.meter.(fatalReason := s.meter.fatalReason), expected := TraceOf(runId, caseId));
    var started := Create(entered, StartedFile(caseId), Text(caseId), work.startedDisk);
    if started.Some? {
      CreateKeeps(entered, StartedFile(caseId), Text(caseId), work.startedDisk, limit);
      CaseCallsOnce(started.value, work.actions, 0, limit);
      var acted := ActFrom(started.value, work.actions, 0, limit);
      var row := RowFor(s, acted, caseId, work);
      if Create(acted, RowFile(caseId), RowOf(row), work.rowDisk).Some? {
        CreateKeeps(acted, RowFile(caseId), RowOf(row), work.rowDisk, limit);
      }
    }
  }

  // ----- the whole assay

  /** The rows so far fit the cases in order, and none of them stopped the assay. */
  predicate RowsFit(rows: seq<Row>, runId: string, ids: seq<string>) {
    |rows| <= |ids| && forall j :: 0 <= j < |rows| ==> RowFits(rows[j], runId, ids[j])
  }

  predicate NoneStopped(rows: seq<Row>) { forall j :: 0 <= j < |rows| ==> !rows[j].stop }

  /** Only the first `n` cases were called for. */
  predicate CallsWithin(s: Session, runId: string, ids: seq<string>, n: nat) {
    forall t :: t in Calls(s) ==> exists j :: 0 <= j < n && j < |ids| && t == TraceOf(runId, ids[j])
  }

  lemma CallsWithinStep(s: Session, t: Session, runId: string, ids: seq<string>, n: nat)
    requires CallsWithin(s, runId, ids, n) && n < |ids|
    requires Calls(t) == Calls(s) || Calls(t) == Calls(s) + [TraceOf(runId, ids[n])]
    ensures CallsWithin(t, runId, ids, n + 1)
  {
    hide Calls;
    forall c | c in Calls(t) ensures exists j :: 0 <= j < n + 1 && j < |ids| && c == TraceOf(runId, ids[j]) {
      if c in Calls(s) {
        var j :| 0 <= j < n && j < |ids| && c == TraceOf(runId, ids[j]);
      } else {
        assert c == TraceOf(runId, ids[n]);
      }
    }
  }

  /** The rows of an assay that ended: at most the last one stopped it, and an
      aborted assay has none that did. */
  ghost predicate Ended(l: Loop, runId: string, ids: seq<string>, limit: nat) {
    && Sound(l.session, limit) && RowsFit(l.rows, runId, ids)
    && (l.aborted ==> NoneStopped(l.rows))
    && (l.rows != [] ==> NoneStopped(l.rows[..|l.rows| - 1]))
    && CallsWithin(l.session, runId, ids, |l.rows| + if l.aborted then 1 else 0)
  }

  lemma {:induction false} LoopKeeps(s: Session, plan: Plan, ids: seq<string>, i: nat, rows: seq<Row>, limit: nat)
    requires i <= |ids| && Sound(s, limit)
    requires |rows| == i && RowsFit(rows, plan.runId, ids) && NoneStopped(rows)
    requires CallsWithin(s, plan.runId, ids, i)
    ensures Ended(CasesFrom(s, plan, ids, i, rows, limit), plan.runId, ids, limit)
    decreases |ids| - i
  {
    hide Sound, Calls, CaseStep;
    if i < |ids| && !plan.closedBefore(i) {
      CallsWithinStep(s, s, plan.runId, ids, i);
      if plan.pinned(i) {
        var (next, row) := CaseStep(s, plan.runId, ids[i], plan.work(i), limit);
        CaseKeeps(s, plan.runId, ids[i], plan.work(i), limit);
        CallsWithinStep(s, next, plan.runId, ids, i);
        if row.Some? && !row.value.stop {
          LoopKeeps(next, plan, ids, i + 1, rows + [row.value], limit);
        }
      }
    }
  }

  lemma NewSessionSound(limit: nat)
    ensures Sound(NEW_SESSION, limit) && Calls(NEW_SESSION) == []
  {
    FilterMapEmpty(CallKey);
  }

  lemma CallsBounded(s: Session, limit: nat)
    requires Metered(s, limit)
    ensures |Calls(s)| <= |s.meter.traces| <= limit
  {
    DistinctByCardinality(Calls(s));
    DistinctByCardinality(s.meter.traces);
    SubsetSize(Elements(Calls(s)), Elements(s.meter.traces));
  }

  /** For every executor and every behaviour of disk, clock and provider: traces
      stay distinct and within the limit, every call was reserved first, rows
      answer the cases in order with receipts of their own trace, and only cases
      that were reached were called for, each at most once. */
  lemma AssayIsSafe(plan: Plan, ids: seq<string>, limit: nat)
    ensures Ended(RunCases(plan, ids, limit), plan.runId, ids, limit)
    ensures |Calls(RunCases(plan, ids, limit).session)| <= limit
    ensures Distinct(Calls(RunCases(plan, ids, limit).session))
  {
    NewSessionSound(limit);
    LoopKeeps(NEW_SESSION, plan, ids, 0, [], limit);
    CallsBounded(RunCases(plan, ids, limit).session, limit);
  }

  /** Once a row carries a fatal reason it is the last, and no later case was
      ever called for. */
  lemma FatalReasonIsFinal(plan: Plan, ids: seq<string>, limit: nat, j: nat)
    requires j < |RunCases(plan, ids, limit).rows| && RunCases(plan, ids, limit).rows[j].fatalReason.Some?
    ensures var l := RunCases(plan, ids, limit);
            j == |l.rows| - 1 && !l.aborted && CallsWithin(l.session, plan.runId, ids, j + 1)
  {
    hide Sound, RunCases;
    var l := RunCases(plan, ids, limit);
    AssayIsSafe(plan, ids, limit);
    assert RowFits(l.rows[j], plan.runId, ids[j]);
    forall k | 0 <= k < |l.rows| - 1 ensures !l.rows[k].stop {
      assert l.rows[..|l.rows| - 1][k] == l.rows[k];
    }
  }

  lemma TracesDiffer(runId: string, a: string, b: string)
    requires TraceOf(runId, a) == TraceOf(runId, b)
    ensures a == b
  {
    var prefix := "fixed:" + runId + ":";
    assert a == TraceOf(runId, a)[|prefix|..] && b == TraceOf(runId, b)[|prefix|..];
  }

  /** A case that the assay never reached made no call: its trace differs from
      that of every other case. */
  lemma UnreachedCaseSilent(plan: Plan, ids: seq<string>, limit: nat, k: nat)
    requires Distinct(ids) && k < |ids|
    requires k >= |RunCases(plan, ids, limit).rows| + if RunCases(plan, ids, limit).aborted then 1 else 0
    ensures TraceOf(plan.runId, ids[k]) !in Calls(RunCases(plan, ids, limit).session)
  {
    AssayIsSafe(plan, ids, limit);
    var l := RunCases(plan, ids, limit);
    if TraceOf(plan.runId, ids[k]) in Calls(l.session) {
      var j :| 0 <= j < |l.rows| + (if l.aborted then 1 else 0) && j < |ids| &&
               TraceOf(plan.runId, ids[k]) == TraceOf(plan.runId, ids[j]);
      TracesDiffer(plan.runId, ids[k], ids[j]);
    }
  }

  // ----- rows and their files

  /** Every row stands unchanged in the file of its case. */
  predicate OnDisk(s: Session, rows: seq<Row>) {
    forall row :: row in rows ==> RowFile(row.caseId) in s.files && s.files[RowFile(row.caseId)] == RowOf(row)
  }

  lemma CaseWritesRow(s: Session, runId: string, caseId: string, work: Work, limit: nat)
    ensures var (t, row) := CaseStep(s, runId, caseId, work, limit);
            FilesKept(s, t) && (row.Some? ==> OnDisk(t, [row.value]))
  {
    var entered := s.(expected := TraceOf(runId, caseId));
    var started := Create(entered, StartedFile(caseId), Text(caseId), work.startedDisk);
    if started.Some? {
      CaseKeepsFiles(started.value, work.actions, 0, limit);
    }
  }

  lemma {:induction false} RowsStayOnDisk(s: Session, plan: Plan, ids: seq<string>, i: nat, rows: seq<Row>, limit: nat)
    requires OnDisk(s, rows)
    ensures OnDisk(CasesFrom(s, plan, ids, i, rows, limit).session, CasesFrom(s, plan, ids, i, rows, limit).rows)
    decreases |ids| - i
  {
    hide CaseStep;
    if i < |ids| && !plan.closedBefore(i) && plan.pinned(i) {
      var (next, row) := CaseStep(s, plan.runId, ids[i], plan.work(i), limit);
      CaseWritesRow(s, plan.runId, ids[i], plan.work(i), limit);
      if row.Some? {
        assert OnDisk(next, rows + [row.value]);
        if !row.value.stop {
          RowsStayOnDisk(next, plan, ids, i + 1, rows + [row.value], limit);
        }
      }
    }
  }

  // ----- only admitted attempts call the provider

  lemma AttemptRefused(s: Session, a: Attempt, limit: nat)
    requires !Admitted(s, a, limit)
    ensures Refused(s, a, limit, ActStep(s, Invoke(a), limit))
  {
  }

  /** What an action adds to the past; a call only if it was an admitted attempt. */
  lemma ActAdds(s: Session, action: Action, limit: nat)
    ensures var t := ActStep(s, action, limit);
            && t.expected == s.expected && s.history <= t.history
            && forall p :: |s.history| <= p < |t.history| && t.history[p].Called? ==>
                 && action.Invoke? && Admitted(s, action.attempt, limit)
                 && t.history[p].trace == s.expected
  {
    hide ReserveStep;
    if action.Invoke? {
      if Admitted(s, action.attempt, limit) {
        var metered := s.(meter := s.meter.(traces := s.meter.traces + [action.attempt.trace]));
        ReserveAdds(metered, action.attempt);
      } else {
        AttemptRefused(s, action.attempt, limit);
      }
    }
  }

  lemma ReserveAdds(s: Session, a: Attempt)
    ensures var t := ReserveStep(s, a).0;
            && t.expected == s.expected && s.history <= t.history
            && forall p :: |s.history| <= p < |t.history| && t.history[p].Called? ==> t.history[p].trace == a.trace
  {
    hide RecordStep;
    var attempt := |s.meter.traces|;
    var reserved := Create(s, ReservedFile(attempt), Reservation(a.trace), a.reserveDisk);
    if reserved.Some? {
      var called := reserved.value.(history := reserved.value.history + [Called(a.trace, attempt)]);
      RecordAdds(called, a, Receipt(a.trace, attempt, a.auditComplete, StatusOf(a.answer), a.answer.Response?));
    }
  }

  lemma RecordAdds(s: Session, a: Attempt, receipt: Receipt)
    ensures var t := RecordStep(s, a, receipt).0;
            && t.expected == s.expected && s.history <= t.history
            && forall p :: |s.history| <= p < |t.history| ==> !t.history[p].Called?
  {
    hide StopStep, Denied;
    var metered := s.(meter := s.meter.(receipts := s.meter.receipts + [receipt]));
    var written := Create(metered, ReceiptFile(receipt.attempt), ReceiptOf(receipt), a.receiptDisk);
    if written.Some? {
      StopAdds(written.value, "audit_terminal_missing", a.stopDisk);
      StopAdds(written.value, "provider_policy_or_configuration_failure", a.stopDisk);
      StopAdds(written.value, "window_expired_after_provider", a.stopDisk);
    }
  }

  lemma StopAdds(s: Session, reason: string, disk: bool)
    ensures var t := StopStep(s, reason, disk).0;
            && t.expected == s.expected && s.history <= t.history
            && forall p :: |s.history| <= p < |t.history| ==> !t.history[p].Called?
  {
  }

  /** Whatever an executor does: every call made in a case is that of an attempt
      that was neither cancelled nor expired, of the planner surface, for the
      case's trace, and with its inputs pinned. */
  lemma {:induction false} CallsWereAdmitted(s: Session, actions: seq<Action>, i: nat, limit: nat, p: nat)
    returns (j: nat)
    requires |s.history| <= p < |ActFrom(s, actions, i, limit).history|
    requires ActFrom(s, actions, i, limit).history[p].Called?
    ensures i <= j < |actions| && actions[j].Invoke?
    ensures var a := actions[j].attempt;
            && !a.cancelled && !a.expired && a.pinned
            && a.surface == "query_decomposition" && a.trace == s.expected
    ensures ActFrom(s, actions, i, limit).history[p].trace == s.expected
    decreases |actions| - i
  {
    hide ActStep;
    var t := ActStep(s, actions[i], limit);
    ActAdds(s, actions[i], limit);
    PastStays(t, actions, i + 1, limit);
    if p < |t.history| {
      j := i;
    } else {
      j := CallsWereAdmitted(t, actions, i + 1, limit, p);
    }
  }

  lemma {:induction false} PastStays(s: Session, actions: seq<Action>, i: nat, limit: nat)
    ensures s.history <= ActFrom(s, actions, i, limit).history
    ensures ActFrom(s, actions, i, limit).expected == s.expected
    decreases |actions| - i
  {
    hide ActStep;
    if i < |actions| {
      ActAdds(s, actions[i], limit);
      PastStays(ActStep(s, actions[i], limit), actions, i + 1, limit);
    }
  }

  lemma CaseAdds(s: Session, runId: string, caseId: string, work: Work, limit: nat)
    ensures var t := CaseStep(s, runId, caseId, work, limit).0;
            && s.history <= t.history
            && forall p :: |s.history| <= p < |t.history| && t.history[p].Called? ==>
                 && t.history[p].trace == TraceOf(runId, caseId)
                 && exists a :: Invoke(a) in work.actions && Live(a) && a.trace == TraceOf(runId, caseId)
  {
    hide ActStep, RowFor;
    var entered := s.(expected := TraceOf(runId, caseId));
    var started := Create(entered, StartedFile(caseId), Text(caseId), work.startedDisk);
    if started.Some? {
      var acted := ActFrom(started.value, work.actions, 0, limit);
      PastStays(started.value, work.actions, 0, limit);
      forall p | |s.history| <= p < |acted.history| && acted.history[p].Called?
        ensures acted.history[p].trace == TraceOf(runId, caseId)
        ensures exists a :: Invoke(a) in work.actions && Live(a) && a.trace == TraceOf(runId, caseId)
      {
        var j := CallsWereAdmitted(started.value, work.actions, 0, limit, p);
        assert Invoke(work.actions[j].attempt) in work.actions;
      }
    }
  }

  /** Neither cancelled nor expired, of the planner surface, its inputs pinned. */
  predicate Live(a: Attempt) { !a.cancelled && !a.expired && a.pinned && a.surface == "query_decomposition" }

  /** Every call of an assay was made for a case that began in time with its
      inputs pinned, by a live attempt of that case's executor for its own trace. */
  lemma EveryCallWasLive(plan: Plan, ids: seq<string>, limit: nat, p: nat) returns (i: nat, a: Attempt)
    requires p < |RunCases(plan, ids, limit).session.history|
    requires RunCases(plan, ids, limit).session.history[p].Called?
    ensures i < |ids| && plan.pinned(i) && !plan.closedBefore(i)
    ensures Invoke(a) in plan.work(i).actions && Live(a)
    ensures a.trace == RunCases(plan, ids, limit).session.history[p].trace == TraceOf(plan.runId, ids[i])
  {
    i, a := LoopCalls(NEW_SESSION, plan, ids, 0, [], limit, p);
  }

  lemma {:induction false} LoopCalls(
    s: Session, plan: Plan, ids: seq<string>, i: nat, rows: seq<Row>, limit: nat, p: nat) returns (j: nat, a: Attempt)
    requires |s.history| <= p < |CasesFrom(s, plan, ids, i, rows, limit).session.history|
    requires CasesFrom(s, plan, ids, i, rows, limit).session.history[p].Called?
    ensures i <= j < |ids| && plan.pinned(j) && !plan.closedBefore(j)
    ensures Invoke(a) in plan.work(j).actions && Live(a)
    ensures a.trace == CasesFrom(s, plan, ids, i, rows, limit).session.history[p].trace == TraceOf(plan.runId, ids[j])
    decreases |ids| - i
  {
    hide CaseStep;
    var (next, row) := CaseStep(s, plan.runId, ids[i], plan.work(i), limit);
    CaseAdds(s, plan.runId, ids[i], plan.work(i), limit);
    if p < |next.history| {
      j := i;
      if row.Some? && !row.value.stop {
        LoopPast(next, plan, ids, i + 1, rows + [row.value], limit);
      }
      a :| Invoke(a) in plan.work(i).actions && Live(a) && a.trace == TraceOf(plan.runId, ids[i]);
    } else {
      j, a := LoopCalls(next, plan, ids, i + 1, rows + [row.value], limit, p);
    }
  }

  lemma {:induction false} LoopPast(s: Session, plan: Plan, ids: seq<string>, i: nat, rows: seq<Row>, limit: nat)
    ensures s.history <= CasesFrom(s, plan, ids, i, rows, limit).session.history
    decreases |ids| - i
  {
    hide CaseStep;
    if i < |ids| && !plan.closedBefore(i) && plan.pinned(i) {
      var (next, row) := CaseStep(s, plan.runId, ids[i], plan.work(i), limit);
      CaseAdds(s, plan.runId, ids[i], plan.work(i), limit);
      if row.Some? && !row.value.stop {
        LoopPast(next, plan, ids, i + 1, rows + [row.value], limit);
      }
    }
  }

  // ----- where the case loop ends

  /** Whether the loop goes on to another case is decided by these alone: it ends
      after all cases, after a row that stops it, before a case that is too late or
      whose pins do not verify, or in one whose files the disk refused. */
  ghost predicate EndsRightly(l: Loop, plan: Plan, ids: seq<string>) {
    var n := |l.rows|;
    && n <= |ids|
    && (!l.aborted ==> n == |ids| || (n > 0 && l.rows[n - 1].stop) || plan.closedBefore(n))
    && (l.aborted ==>
          && n < |ids| && !plan.closedBefore(n)
          && (!plan.pinned(n) || !plan.work(n).startedDisk || !plan.work(n).rowDisk))
  }

  /** The files of a case do not exist yet. */
  predicate Untouched(s: Session, caseId: string) {
    StartedFile(caseId) !in s.files && RowFile(caseId) !in s.files
  }

  predicate SameCaseFiles(s: Session, t: Session, caseId: string) {
    && (StartedFile(caseId) in t.files <==> StartedFile(caseId) in s.files)
    && (RowFile(caseId) in t.files <==> RowFile(caseId) in s.files)
  }

  lemma {:induction false} ActionsLeaveCases(s: Session, actions: seq<Action>, i: nat, limit: nat, caseId: string)
    ensures SameCaseFiles(s, ActFrom(s, actions, i, limit), caseId)
    decreases |actions| - i
  {
    hide ActStep;
    if i < |actions| {
      ActionLeavesCases(s, actions[i], limit, caseId);
      ActionsLeaveCases(ActStep(s, actions[i], limit), actions, i + 1, limit, caseId);
    }
  }

  lemma StopLeavesCases(s: Session, reason: string, disk: bool, caseId: string)
    ensures SameCaseFiles(s, StopStep(s, reason, disk).0, caseId)
  {
  }

  lemma RecordLeavesCases(s: Session, a: Attempt, receipt: Receipt, caseId: string)
    ensures SameCaseFiles(s, RecordStep(s, a, receipt).0, caseId)
  {
    hide StopStep;
    var metered := s.(meter := s.meter.(receipts := s.meter.receipts + [receipt]));
    var written := Create(metered, ReceiptFile(receipt.attempt), ReceiptOf(receipt), a.receiptDisk);
    if written.Some? {
      StopLeavesCases(written.value, "audit_terminal_missing", a.stopDisk, caseId);
      StopLeavesCases(written.value, "provider_policy_or_configuration_failure", a.stopDisk, caseId);
      StopLeavesCases(written.value, "window_expired_after_provider", a.stopDisk, caseId);
    }
  }

  lemma ReserveLeavesCases(s: Session, a: Attempt, caseId: string)
    ensures SameCaseFiles(s, ReserveStep(s, a).0, caseId)
  {
    hide RecordStep;
    var attempt := |s.meter.traces|;
    var reserved := Create(s, ReservedFile(attempt), Reservation(a.trace), a.reserveDisk);
    if reserved.Some? {
      var called := reserved.value.(history := reserved.value.history + [Called(a.trace, attempt)]);
      RecordLeavesCases(called, a,
        Receipt(a.trace, attempt, a.auditComplete, StatusOf(a.answer), a.answer.Response?), caseId);
    }
  }

  lemma ActionLeavesCases(s: Session, action: Action, limit: nat, caseId: string)
    ensures SameCaseFiles(s, ActStep(s, action, limit), caseId)
  {
    hide StopStep, ReserveStep;
    match action
    case CaptureFailed(disk) => StopLeavesCases(s, "routing_diagnostics_capture_failed", disk, caseId);
    case Invoke(a) =>
      StopLeavesCases(s, "window_expired", a.stopDisk, caseId);
      StopLeavesCases(s, "provider_call_contract", a.stopDisk, caseId);
      StopLeavesCases(s, "pinned_input_drift", a.stopDisk, caseId);
      ReserveLeavesCases(s.(meter := s.meter.(traces := s.meter.traces + [a.trace])), a, caseId);
  }

  /** A case yields a row exactly if both its files could be created; it leaves
      the files of other cases alone. */
  lemma RowExactly(s: Session, runId: string, caseId: string, work: Work, limit: nat, other: string)
    ensures var (t, row) := CaseStep(s, runId, caseId, work, limit);
            && (Untouched(s, caseId) ==> (row.Some? <==> work.startedDisk && work.rowDisk))
            && (other != caseId && Untouched(s, other) ==> Untouched(t, other))
  {
    hide ActStep, RowFor, ActFrom;
    var entered := s.(expected := TraceOf(runId, caseId));
    var started := Create(entered, StartedFile(caseId), Text(caseId), work.startedDisk);
    if started.Some? {
      ActionsLeaveCases(started.value, work.actions, 0, limit, caseId);
      ActionsLeaveCases(started.value, work.actions, 0, limit, other);
    }
  }

  lemma {:induction false} LoopEndsFrom(s: Session, plan: Plan, ids: seq<string>, i: nat, rows: seq<Row>, limit: nat)
    requires |rows| == i <= |ids| && Distinct(ids)
    requires forall j :: i <= j < |ids| ==> Untouched(s, ids[j])
    ensures EndsRightly(CasesFrom(s, plan, ids, i, rows, limit), plan, ids)
    decreases |ids| - i
  {
    hide CaseStep, Untouched;
    if i < |ids| && !plan.closedBefore(i) && plan.pinned(i) {
      var (next, row) := CaseStep(s, plan.runId, ids[i], plan.work(i), limit);
      RowExactly(s, plan.runId, ids[i], plan.work(i), limit, ids[i]);
      if row.Some? && !row.value.stop {
        forall j | i + 1 <= j < |ids| ensures Untouched(next, ids[j]) {
          RowExactly(s, plan.runId, ids[i], plan.work(i), limit, ids[j]);
        }
        LoopEndsFrom(next, plan, ids, i + 1, rows + [row.value], limit);
      }
    }
  }

  lemma LoopEnds(plan: Plan, ids: seq<string>, limit: nat)
    requires Distinct(ids)
    ensures EndsRightly(RunCases(plan, ids, limit), plan, ids)
  {
    LoopEndsFrom(NEW_SESSION, plan, ids, 0, [], limit);
  }

  // ----- within the case that set it, a fatal reason does not bind the executor

  lemma ReserveCalls(s: Session, a: Attempt, limit: nat)
    requires Sound(s, limit) && s.meter.traces != [] && s.meter.traces[|s.meter.traces| - 1] == a.trace
    requires a.trace !in Calls(s) && a.reserveDisk && a.adapterBuilt && ReservedFile(|s.meter.traces|) !in s.files
    ensures Calls(ReserveStep(s, a).0) == Calls(s) + [a.trace]
  {
    hide Sound, Calls;
    var attempt := |s.meter.traces|;
    CreateKeeps(s, ReservedFile(attempt), Reservation(a.trace), a.reserveDisk, limit);
    var reserved := Create(s, ReservedFile(attempt), Reservation(a.trace), a.reserveDisk).value;
    CallKeeps(reserved, a.trace, limit);
    var called := reserved.(history := reserved.history + [Called(a.trace, attempt)]);
    RecordKeeps(called, a, Receipt(a.trace, attempt, a.auditComplete, StatusOf(a.answer), a.answer.Response?), limit);
  }

  /** The case has its call left: nothing but its own meter and the file of the
      next reservation decides this, and not the fatal reason. */
  predicate CallLeft(s: Session, limit: nat) {
    && s.expected !in s.meter.traces && |s.meter.traces| < limit
    && ReservedFile(|s.meter.traces| + 1) !in s.files
  }

  /** Some executor's actions get the provider called from here. */
  ghost predicate CanStillCall(s: Session, limit: nat) {
    exists actions :: Calls(ActFrom(s, actions, 0, limit)) != Calls(s)
  }

  /** Without the call left, an action makes none and does not bring it back. */
  lemma NoCallStep(s: Session, action: Action, limit: nat)
    requires Sound(s, limit) && !CallLeft(s, limit)
    ensures var t := ActStep(s, action, limit);
            Sound(t, limit) && !CallLeft(t, limit) && Calls(t) == Calls(s)
  {
    hide Sound, Calls, ReserveStep, AtMostOne;
    ActKeeps(s, action, limit);
    ActKeepsFiles(s, action, limit);
    match action
    case CaptureFailed(disk) => StopKeeps(s, "routing_diagnostics_capture_failed", disk, limit);
    case Invoke(a) => NoCallAttempt(s, a, limit);
  }

  lemma NoCallAttempt(s: Session, a: Attempt, limit: nat)
    requires Sound(s, limit) && !CallLeft(s, limit)
    ensures var t := InvokeStep(s, a, limit).0;
            !CallLeft(t, limit) && Calls(t) == Calls(s)
  {
    hide Sound, Calls, ReserveStep;
    StopKeeps(s, "window_expired", a.stopDisk, limit);
    StopKeeps(s, "provider_call_contract", a.stopDisk, limit);
    StopKeeps(s, "pinned_input_drift", a.stopDisk, limit);
    if !a.cancelled && !a.expired && !BreaksContract(s, a, limit) && a.pinned {
      assert BlockedReservation(s, a, limit);
      TraceKeeps(s, a.trace, limit);
      BlockedReserve(s.(meter := s.meter.(traces := s.meter.traces + [a.trace])), a);
    }
  }

  predicate BlockedReservation(s: Session, a: Attempt, limit: nat) {
    a.trace == s.expected && ReservedFile(|s.meter.traces| + 1) in s.files
  }

  lemma BlockedReserve(s: Session, a: Attempt)
    requires ReservedFile(|s.meter.traces|) in s.files
    ensures ReserveStep(s, a).0 == s
  {
  }

  lemma {:induction false} NoCallActions(s: Session, actions: seq<Action>, i: nat, limit: nat)
    requires Sound(s, limit) && !CallLeft(s, limit)
    ensures Calls(ActFrom(s, actions, i, limit)) == Calls(s)
    decreases |actions| - i
  {
    hide Sound, Calls, ActStep, CallLeft;
    if i < |actions| {
      NoCallStep(s, actions[i], limit);
      NoCallActions(ActStep(s, actions[i], limit), actions, i + 1, limit);
    }
  }

  /** An attempt that nothing outside obstructs. */
  predicate Unobstructed(s: Session, a: Attempt, limit: nat) {
    && !a.cancelled && !a.expired && !BreaksContract(s, a, limit) && a.pinned
    && a.reserveDisk && a.adapterBuilt && ReservedFile(|s.meter.traces| + 1) !in s.files
  }

  /** A proper attempt in fair weather. */
  function ProperAttempt(trace: string): Attempt {
    Attempt(SURFACE, trace, false, false, true, true, true, true, Response, true, true, true, false, false)
  }

  lemma ProperAttemptServed(s: Session, proper: Attempt, limit: nat)
    requires Sound(s, limit) && Unobstructed(s, proper, limit)
    ensures Calls(ActStep(s, Invoke(proper), limit)) == Calls(s) + [s.expected]
  {
    hide Sound, Calls, ReserveStep;
    TraceKeeps(s, proper.trace, limit);
    var metered := s.(meter := s.meter.(traces := s.meter.traces + [proper.trace]));
    ReserveCalls(metered, proper, limit);
  }

  /** When a stop binds within its case: some executor can still get the provider
      called if and only if the case has its call left, whatever the fatal reason. */
  lemma StopBindsWithinCase(s: Session, limit: nat)
    requires Sound(s, limit)
    ensures CanStillCall(s, limit) <==> CallLeft(s, limit)
  {
    hide Sound, Calls, ActStep;
    if CallLeft(s, limit) {
      var actions := [Invoke(ProperAttempt(s.expected))];
      ProperAttemptServed(s, ProperAttempt(s.expected), limit);
      var t := ActStep(s, actions[0], limit);
      assert ActFrom(t, actions, 1, limit) == t;
      assert ActFrom(s, actions, 0, limit) == t;
      assert |Calls(t)| == |Calls(s)| + 1;
    } else {
      forall actions ensures Calls(ActFrom(s, actions, 0, limit)) == Calls(s) {
        NoCallActions(s, actions, 0, limit);
      }
    }
  }

  /** An executor that breaks the call contract, ignores the stop and then calls
      properly is still served: the reason ends the assay only after its case. */
  lemma StopDoesNotBindItsOwnCase(s: Session, wrong: Attempt, proper: Attempt, limit: nat)
    requires Sound(s, limit) && Unobstructed(s, proper, limit)
    requires !wrong.cancelled && !wrong.expired && wrong.surface != SURFACE
    ensures var stopped := ActStep(s, Invoke(wrong), limit);
            stopped.meter.fatalReason.Some? && Calls(ActStep(stopped, Invoke(proper), limit)) == Calls(s) + [s.expected]
  {
    hide Sound, Calls, ReserveStep;
    StopKeeps(s, "provider_call_contract", wrong.stopDisk, limit);
    var stopped := ActStep(s, Invoke(wrong), limit);
    ProperAttemptServed(stopped, proper, limit);
  }
}

/** Any number of assay runs sharing a file system, interleaved step by step and
    crashing anywhere. Files are only ever created exclusively. */
module AssayProtocol {
  import opened Assay
  import opened AssaySafety

  /** The content of an authorization; its digest is taken to be injective, so
      the content itself stands for the digest. */
  datatype Authorization = Authorization(text: string, maximumCalls: nat)

  /** What a claim file is named by: the directory of the authorization file and
      the digest of its content. */
  datatype Key = Key(directory: string, authorization: Authorization)

  datatype Config = Config(key: Key, runId: string, out: string)

  datatype Path = ClaimFile(key: Key) | OutDirectory(out: string) | ClosureFile(out: string) | ResultFile(out: string)

  datatype Phase =
    | Starting | Checked | Claimed | Opened | Running | Closing(built: bool) | Closed | Finished | Broken | Crashed

  datatype Policy = Unissued | Active | Inactive

  datatype Run = Run(config: Config, phase: Phase, claimed: bool, owner: bool, policy: Policy, session: Session)

  /** A run that has not created anything but its claim. */
  function At(config: Config, phase: Phase, claimed: bool): Run {
    Run(config, phase, claimed, false, Unissued, NEW_SESSION)
  }

  datatype System = System(files: set<Path>, runs: seq<Run>)

  const EMPTY := System({}, [])

  /** One step of the case loop as far as the session is concerned. */
  datatype Tick =
    | Enter(caseId: string, disk: bool)
    | Do(action: Action)
    | WriteRow(caseId: string, row: Row, disk: bool)

  function TickStep(s: Session, runId: string, tick: Tick, limit: nat): Session {
    match tick
    case Enter(caseId, disk) =>
      var entered := s.(expected := TraceOf(runId, caseId));
      var started := Create(entered, StartedFile(caseId), Text(caseId), disk);
      if started.Some? then started.value else entered
    case Do(action) => ActStep(s, action, limit)
    case WriteRow(caseId, row, disk) =>
      var written := Create(s, RowFile(caseId), RowOf(row), disk);
      if written.Some? then written.value else s
  }

  datatype Event =
    | Spawn(config: Config)
    | CheckOut(run: nat)
    | TakeClaim(run: nat, disk: bool)
    | MakeOut(run: nat, disk: bool)
    | Issue(run: nat, ok: bool)
    | Work(run: nat, tick: Tick)
    | EndLoop(run: nat, built: bool)
    | Close(run: nat, ok: bool)
    | WriteResult(run: nat, disk: bool)
    | Crash(run: nat)

  function LimitOf(run: Run): nat { run.config.key.authorization.maximumCalls }

  predicate Over(phase: Phase) { phase.Finished? || phase.Broken? || phase.Crashed? }

  /** What a run does to its own state, and the file it creates if any. An event
      that does not fit the run's phase does nothing. */
  function Advance(run: Run, files: set<Path>, event: Event): (Run, set<Path>) {
    match event
    case CheckOut(_) =>
      if !run.phase.Starting? then (run, {})
      else (run.(phase := if OutDirectory(run.config.out) in files then Broken else Checked), {})
    case TakeClaim(_, disk) =>
      var claim := ClaimFile(run.config.key);
      if !run.phase.Checked? then (run, {})
      else if claim in files || !disk then (run.(phase := Broken), {})
      else (run.(phase := Claimed, claimed := true), {claim})
    case MakeOut(_, disk) =>
      var out := OutDirectory(run.config.out);
      if !run.phase.Claimed? then (run, {})
      else if out in files || !disk then (run.(phase := Broken), {})
      else (run.(phase := Opened, owner := true), {out})
    case Issue(_, ok) =>
      if !run.phase.Opened? then (run, {})
      else if ok then (run.(phase := Running, policy := Active), {})
      else (run.(phase := Closing(false)), {})
    case Work(_, tick) =>
      if !run.phase.Running? then (run, {})
      else (run.(session := TickStep(run.session, run.config.runId, tick, LimitOf(run))), {})
    case EndLoop(_, built) =>
      if !run.phase.Running? then (run, {}) else (run.(phase := Closing(built)), {})
    case Close(_, ok) =>
      var closure := ClosureFile(run.config.out);
      if !run.phase.Closing? then (run, {})
      else if !ok || closure in files then (run.(phase := Broken), {})
      else
        (run.(phase := if run.phase.built then Closed else Broken,
              policy := if run.policy.Active? then Inactive else run.policy), {closure})
    case WriteResult(_, disk) =>
      var result := ResultFile(run.config.out);
      if !run.phase.Closed? then (run, {})
      else if result in files || !disk then (run.(phase := Broken), {})
      else (run.(phase := Finished), {result})
    case Crash(_) =>
      if Over(run.phase) then (run, {}) else (run.(phase := Crashed), {})
    case Spawn(_) => (run, {})
  }

  function Step(sys: System, event: Event): System {
    match event
    case Spawn(config) => sys.(runs := sys.runs + [At(config, Starting, false)])
    case _ =>
      if event.run >= |sys.runs| then sys
      else
        var (run, created) := Advance(sys.runs[event.run], sys.files, event);
        System(sys.files + created, sys.runs[event.run := run])
  }

  function Execute(sys: System, events: seq<Event>): System {
    if events == [] then sys else Step(Execute(sys, events[..|events| - 1]), events[|events| - 1])
  }

  // ----- the invariant

  predicate Past(phase: Phase) { phase.Opened? || phase.Running? || phase.Closing? || phase.Closed? || phase.Finished? }

  /** What one run knows, given the files that exist. */
  ghost predicate RunFits(run: Run, files: set<Path>) {
    && Sound(run.session, LimitOf(run))
    && (run.claimed ==> ClaimFile(run.config.key) in files)
    && (run.owner ==> run.claimed && OutDirectory(run.config.out) in files)
    && (!run.owner ==> run.session == NEW_SESSION && run.policy.Unissued?)
    && (Past(run.phase) ==> run.owner)
    && (run.phase.Claimed? ==> run.claimed)
    && (run.phase.Starting? || run.phase.Checked? ==> !run.claimed)
    && (run.phase.Claimed? ==> !run.owner)
    && (run.phase.Closed? || run.phase.Finished? ==>
          !run.policy.Active? && ClosureFile(run.config.out) in files)
  }

  predicate Apart(a: Run, b: Run) {
    && (a.claimed && b.claimed ==> a.config.key != b.config.key)
    && (a.owner && b.owner ==> a.config.out != b.config.out)
  }

  ghost predicate ResultsClosed(files: set<Path>) {
    forall out :: ResultFile(out) in files ==> ClosureFile(out) in files
  }

  ghost predicate Inv(sys: System) {
    && (forall i :: 0 <= i < |sys.runs| ==> RunFits(sys.runs[i], sys.files))
    && (forall i, j :: 0 <= i < j < |sys.runs| ==> Apart(sys.runs[i], sys.runs[j]))
    && ResultsClosed(sys.files)
  }

  lemma TickKeeps(s: Session, runId: string, tick: Tick, limit: nat)
    requires Sound(s, limit)
    ensures Sound(TickStep(s, runId, tick, limit), limit)
  {
    hide Sound, ActStep;
    match tick
    case Enter(caseId, disk) =>
      var entered := s.(expected := TraceOf(runId, caseId));
      MarkKeeps(s, s.meter.fatalReason, TraceOf(runId, caseId), limit);
      assert entered == s.(meter := s.meter.(fatalReason := s.meter.fatalReason), expected := TraceOf(runId, caseId));
      if Create(entered, StartedFile(caseId), Text(caseId), disk).Some? {
        CreateKeeps(entered, StartedFile(caseId), Text(caseId), disk, limit);
      }
    case Do(action) =>
      ActKeeps(s, action, limit);
    case WriteRow(caseId, row, disk) =>
      if Create(s, RowFile(caseId), RowOf(row), disk).Some? {
        CreateKeeps(s, RowFile(caseId), RowOf(row), disk, limit);
      }
  }

  lemma AdvanceFits(run: Run, files: set<Path>, event: Event)
    requires RunFits(run, files)
    ensures var (next, created) := Advance(run, files, event); RunFits(next, files + created)
  {
    hide Sound, TickStep;
    if event.Work? && run.phase.Running? {
      TickKeeps(run.session, run.config.runId, event.tick, LimitOf(run));
    }
  }

  lemma FitsGrows(run: Run, files: set<Path>, created: set<Path>)
    requires RunFits(run, files)
    ensures RunFits(run, files + created)
  {
    hide Sound;
  }

  lemma AdvanceApart(run: Run, other: Run, files: set<Path>, event: Event)
    requires RunFits(run, files) && RunFits(other, files) && Apart(run, other)
    ensures Apart(Advance(run, files, event).0, other) && Apart(other, Advance(run, files, event).0)
  {
    hide Sound, TickStep;
  }

  lemma AdvanceCloses(run: Run, files: set<Path>, event: Event)
    requires RunFits(run, files)
    ensures var created := Advance(run, files, event).1;
            forall out :: ResultFile(out) in created ==> ClosureFile(out) in files
  {
    hide Sound, TickStep;
  }

  lemma StepKeeps(sys: System, event: Event)
    requires Inv(sys)
    ensures Inv(Step(sys, event))
  {
    hide Sound, RunFits, Apart, Advance;
    var after := Step(sys, event);
    if event.Spawn? {
      var spawned := At(event.config, Starting, false);
      FreshFits(event.config, sys.files);
      forall i, j | 0 <= i < j < |after.runs| ensures Apart(after.runs[i], after.runs[j]) {
        FreshApart(event.config, after.runs[i]);
      }
    } else if event.run < |sys.runs| {
      var k := event.run;
      var (next, created) := Advance(sys.runs[k], sys.files, event);
      AdvanceFits(sys.runs[k], sys.files, event);
      AdvanceCloses(sys.runs[k], sys.files, event);
      forall i | 0 <= i < |after.runs| ensures RunFits(after.runs[i], after.files) {
        if i != k {
          FitsGrows(sys.runs[i], sys.files, created);
        }
      }
      forall i, j | 0 <= i < j < |after.runs| ensures Apart(after.runs[i], after.runs[j]) {
        ApartSymmetric(sys.runs[i], sys.runs[j]);
        if i == k {
          AdvanceApart(sys.runs[k], sys.runs[j], sys.files, event);
        } else if j == k {
          AdvanceApart(sys.runs[k], sys.runs[i], sys.files, event);
        }
      }
    }
  }

  lemma FreshFits(config: Config, files: set<Path>)
    ensures RunFits(At(config, Starting, false), files)
  {
    NewSessionSound(config.key.authorization.maximumCalls);
  }

  lemma FreshApart(config: Config, other: Run)
    ensures Apart(other, At(config, Starting, false))
  {
  }

  lemma ApartSymmetric(a: Run, b: Run)
    requires Apart(a, b)
    ensures Apart(b, a)
  {
  }

  lemma {:induction false} EveryRunKeeps(sys: System, events: seq<Event>)
    requires Inv(sys)
    ensures Inv(Execute(sys, events))
  {
    hide Inv, Step;
    if events != [] {
      EveryRunKeeps(sys, events[..|events| - 1]);
      StepKeeps(Execute(sys, events[..|events| - 1]), events[|events| - 1]);
    }
  }

  lemma Reached(events: seq<Event>)
    ensures Inv(Execute(EMPTY, events))
  {
    EveryRunKeeps(EMPTY, events);
  }

  // ----- one-shot safety

  function CallsFor(key: Key, runs: seq<Run>): nat {
    if runs == [] then 0
    else
      CallsFor(key, runs[..|runs| - 1]) +
      if runs[|runs| - 1].config.key == key then |Calls(runs[|runs| - 1].session)| else 0
  }

  /** At most one run of a claim key ever passes its claim, whatever the
      interleaving and the crashes. */
  lemma ClaimIsExclusive(events: seq<Event>, i: nat, j: nat)
    requires i < |Execute(EMPTY, events).runs| && j < |Execute(EMPTY, events).runs|
    requires Execute(EMPTY, events).runs[i].claimed && Execute(EMPTY, events).runs[j].claimed
    requires Execute(EMPTY, events).runs[i].config.key == Execute(EMPTY, events).runs[j].config.key
    ensures i == j
  {
    Reached(events);
    var runs := Execute(EMPTY, events).runs;
    assert i < j ==> Apart(runs[i], runs[j]);
    assert j < i ==> Apart(runs[j], runs[i]);
  }

  lemma UnclaimedIsSilent(run: Run, files: set<Path>)
    requires RunFits(run, files)
    ensures !run.claimed ==> Calls(run.session) == []
    ensures |Calls(run.session)| <= LimitOf(run)
  {
    NewSessionSound(LimitOf(run));
    CallsBounded(run.session, LimitOf(run));
  }

  lemma {:induction false} CallsOfRuns(sys: System, key: Key, n: nat)
    requires Inv(sys) && n <= |sys.runs|
    ensures CallsFor(key, sys.runs[..n]) <= key.authorization.maximumCalls
    ensures (forall i :: 0 <= i < n && sys.runs[i].config.key == key ==> !sys.runs[i].claimed) ==>
              CallsFor(key, sys.runs[..n]) == 0
  {
    hide Sound, Calls;
    if n > 0 {
      CallsOfRuns(sys, key, n - 1);
      assert sys.runs[..n][..n - 1] == sys.runs[..n - 1];
      var last := sys.runs[n - 1];
      assert RunFits(last, sys.files);
      UnclaimedIsSilent(last, sys.files);
      if last.claimed && last.config.key == key {
        forall i | 0 <= i < n - 1 && sys.runs[i].config.key == key ensures !sys.runs[i].claimed {
          assert Apart(sys.runs[i], last);
        }
      }
    }
  }

  /** The provider calls of all runs of a claim key together stay within the
      authorized maximum. */
  lemma CallsWithinAuthorization(events: seq<Event>, key: Key)
    ensures CallsFor(key, Execute(EMPTY, events).runs) <= key.authorization.maximumCalls
  {
    var sys := Execute(EMPTY, events);
    Reached(events);
    CallsOfRuns(sys, key, |sys.runs|);
    assert sys.runs[..|sys.runs|] == sys.runs;
  }

  /** A result is only ever written after its policy was closed. */
  lemma ResultFollowsClosure(events: seq<Event>, i: nat)
    requires i < |Execute(EMPTY, events).runs| && Execute(EMPTY, events).runs[i].phase.Finished?
    ensures var sys := Execute(EMPTY, events);
            ClosureFile(sys.runs[i].config.out) in sys.files && !sys.runs[i].policy.Active?
  {
    Reached(events);
    assert RunFits(Execute(EMPTY, events).runs[i], Execute(EMPTY, events).files);
  }

  lemma ResultFileFollowsClosure(events: seq<Event>, out: string)
    ensures ResultFile(out) in Execute(EMPTY, events).files ==> ClosureFile(out) in Execute(EMPTY, events).files
  {
    Reached(events);
  }

  // ----- no second claim

  lemma StepNeverReclaims(sys: System, event: Event, key: Key)
    requires ClaimFile(key) in sys.files
    ensures ClaimFile(key) in Step(sys, event).files
    ensures forall j :: 0 <= j < |Step(sys, event).runs| && Step(sys, event).runs[j].claimed &&
                        Step(sys, event).runs[j].config.key == key ==>
              j < |sys.runs| && sys.runs[j].claimed && sys.runs[j].config.key == key
  {
    hide TickStep;
  }

  /** Once a claim exists no other run ever obtains it: not after a crash of its
      holder, and not by starting again. */
  lemma {:induction false} NeverReclaimed(sys: System, events: seq<Event>, key: Key)
    requires ClaimFile(key) in sys.files
    ensures ClaimFile(key) in Execute(sys, events).files
    ensures forall j :: 0 <= j < |Execute(sys, events).runs| && Execute(sys, events).runs[j].claimed &&
                        Execute(sys, events).runs[j].config.key == key ==>
              j < |sys.runs| && sys.runs[j].claimed && sys.runs[j].config.key == key
  {
    hide Step;
    if events != [] {
      NeverReclaimed(sys, events[..|events| - 1], key);
      StepNeverReclaims(Execute(sys, events[..|events| - 1]), events[|events| - 1], key);
    }
  }

  // ----- the case loop is one of the ways a run works

  function TickAll(s: Session, runId: string, ticks: seq<Tick>, limit: nat): Session
    decreases |ticks|
  {
    if ticks == [] then s else TickAll(TickStep(s, runId, ticks[0], limit), runId, ticks[1..], limit)
  }

  lemma {:induction false} TickAllConcat(s: Session, runId: string, a: seq<Tick>, b: seq<Tick>, limit: nat)
    ensures TickAll(s, runId, a + b, limit) == TickAll(TickAll(s, runId, a, limit), runId, b, limit)
    decreases |a|
  {
    hide TickStep;
    if a == [] {
      assert a + b == b;
    } else {
      assert (a + b)[1..] == a[1..] + b;
      TickAllConcat(TickStep(s, runId, a[0], limit), runId, a[1..], b, limit);
    }
  }

  lemma OneTick(s: Session, runId: string, tick: Tick, limit: nat)
    ensures TickAll(s, runId, [tick], limit) == TickStep(s, runId, tick, limit)
  {
    hide TickStep;
    assert [tick][1..] == [];
  }

  lemma {:induction false} ActionsAreTicks(s: Session, runId: string, actions: seq<Action>, i: nat, limit: nat)
    returns (ticks: seq<Tick>)
    ensures TickAll(s, runId, ticks, limit) == ActFrom(s, actions, i, limit)
    decreases |actions| - i
  {
    hide ActStep;
    if i >= |actions| {
      ticks := [];
    } else {
      var rest := ActionsAreTicks(ActStep(s, actions[i], limit), runId, actions, i + 1, limit);
      OneTick(s, runId, Do(actions[i]), limit);
      TickAllConcat(s, runId, [Do(actions[i])], rest, limit);
      ticks := [Do(actions[i])] + rest;
    }
  }

  lemma CaseIsTicks(s: Session, runId: string, caseId: string, work: Assay.Work, limit: nat) returns (ticks: seq<Tick>)
    ensures TickAll(s, runId, ticks, limit) == CaseStep(s, runId, caseId, work, limit).0
  {
    hide ActStep, RowFor, TickAll;
    var enter := Enter(caseId, work.startedDisk);
    ticks := [enter];
    OneTick(s, runId, enter, limit);
    var entered := TickStep(s, runId, enter, limit);
    if Create(s.(expected := TraceOf(runId, caseId)), StartedFile(caseId), Text(caseId), work.startedDisk).Some? {
      var actions := ActionsAreTicks(entered, runId, work.actions, 0, limit);
      TickAllConcat(s, runId, ticks, actions, limit);
      var acted := ActFrom(entered, work.actions, 0, limit);
      var write := WriteRow(caseId, RowFor(s, acted, caseId, work), work.rowDisk);
      OneTick(acted, runId, write, limit);
      TickAllConcat(s, runId, ticks + actions, [write], limit);
      ticks := ticks + actions + [write];
    }
  }

  /** The session of the case loop is reached by steps of the protocol, so what
      holds of interleaved and crashing runs holds of runs that execute it. */
  lemma {:induction false} LoopIsTicks(
    s: Session, plan: Plan, ids: seq<string>, i: nat, rows: seq<Row>, limit: nat) returns (ticks: seq<Tick>)
    ensures TickAll(s, plan.runId, ticks, limit) == CasesFrom(s, plan, ids, i, rows, limit).session
    decreases |ids| - i
  {
    hide CaseStep, TickStep;
    ticks := [];
    if i < |ids| && !plan.closedBefore(i) && plan.pinned(i) {
      var (next, row) := CaseStep(s, plan.runId, ids[i], plan.work(i), limit);
      ticks := CaseIsTicks(s, plan.runId, ids[i], plan.work(i), limit);
      if row.Some? && !row.value.stop {
        var rest := LoopIsTicks(next, plan, ids, i + 1, rows + [row.value], limit);
        TickAllConcat(s, plan.runId, ticks, rest, limit);
        ticks := ticks + rest;
      }
    }
  }

  // ----- what the claim does not cover

  // A copy of an authorization in another directory can be claimed again, and
  // each of the two can make the maximum number of calls.

  function CaseName(i: nat): string { seq(i, _ => 'c') }

  /** The first `n` cases were called for, and nothing is reserved beyond them. */
  ghost predicate Served(s: Session, runId: string, n: nat, limit: nat) {
    && Sound(s, limit) && |Calls(s)| == n && |s.meter.traces| == n
    && (forall i :: 0 <= i < n ==> s.meter.traces[i] == TraceOf(runId, CaseName(i)))
    && (forall k: nat :: k > n ==> ReservedFile(k) !in s.files)
    && (forall k: nat :: k > n ==> ReceiptFile(k) !in s.files)
  }

  lemma ServeNext(s: Session, runId: string, n: nat, limit: nat)
    requires Served(s, runId, n, limit) && n < limit
    ensures var entered := s.(expected := TraceOf(runId, CaseName(n)));
            Served(ActStep(entered, Invoke(ProperAttempt(entered.expected)), limit), runId, n + 1, limit)
  {
    hide Sound, Calls;
    var trace := TraceOf(runId, CaseName(n));
    var entered := s.(expected := trace);
    MarkKeeps(s, s.meter.fatalReason, trace, limit);
    assert entered == s.(meter := s.meter.(fatalReason := s.meter.fatalReason), expected := trace);
    assert forall i :: 0 <= i < n ==> |TraceOf(runId, CaseName(i))| < |trace|;
    assert trace !in s.meter.traces;
    ProperAttemptServed(entered, ProperAttempt(trace), limit);
    ActKeeps(entered, Invoke(ProperAttempt(trace)), limit);
  }

  lemma {:induction false} ServeAll(runId: string, n: nat, limit: nat) returns (ticks: seq<Tick>)
    requires n <= limit
    ensures Served(TickAll(NEW_SESSION, runId, ticks, limit), runId, n, limit)
  {
    hide Served, ActStep;
    ticks := [];
    if n == 0 {
      NewSessionServed(runId, limit);
    } else {
      ticks := ServeAll(runId, n - 1, limit);
      var s := TickAll(NEW_SESSION, runId, ticks, limit);
      ServeNext(s, runId, n - 1, limit);
      var enter, call := Enter(CaseName(n - 1), false), Do(Invoke(ProperAttempt(TraceOf(runId, CaseName(n - 1)))));
      OneTick(s, runId, enter, limit);
      var entered := TickStep(s, runId, enter, limit);
      OneTick(entered, runId, call, limit);
      TickAllConcat(s, runId, [enter], [call], limit);
      TickAllConcat(NEW_SESSION, runId, ticks, [enter] + [call], limit);
      ticks := ticks + ([enter] + [call]);
    }
  }

  lemma NewSessionServed(runId: string, limit: nat)
    ensures Served(NEW_SESSION, runId, 0, limit)
  {
    NewSessionSound(limit);
  }

  lemma {:induction false} WorkAll(before: seq<Event>, i: nat, ticks: seq<Tick>) returns (events: seq<Event>)
    requires var sys := Execute(EMPTY, before); i < |sys.runs| && sys.runs[i].phase.Running?
    ensures var sys := Execute(EMPTY, before);
            var run := sys.runs[i];
            Execute(EMPTY, events) == sys.(runs := sys.runs[i :=
              run.(session := TickAll(run.session, run.config.runId, ticks, LimitOf(run)))])
    decreases |ticks|
  {
    hide TickStep, Execute;
    if ticks == [] {
      events := before;
    } else {
      events := Then(before, Event.Work(i, ticks[0]));
      events := WorkAll(events, i, ticks[1..]);
    }
  }

  /** Two runs whose claims differ, up to the start of their case loops. */
  lemma BothRunning(a: Config, b: Config) returns (events: seq<Event>)
    requires a.key != b.key && a.out != b.out
    ensures var sys := Execute(EMPTY, events);
            && |sys.runs| == 2
            && sys.runs[0] == At(a, Running, true).(owner := true, policy := Active)
            && sys.runs[1] == At(b, Running, true).(owner := true, policy := Active)
  {
    hide Execute;
    ExecuteNone(EMPTY);
    events := Then([], Spawn(a));
    events := Then(events, Spawn(b));
    events := Then(events, CheckOut(0));
    events := Then(events, CheckOut(1));
    events := Then(events, TakeClaim(0, true));
    events := Then(events, TakeClaim(1, true));
    events := Then(events, MakeOut(0, true));
    events := Then(events, MakeOut(1, true));
    events := Then(events, Issue(0, true));
    events := Then(events, Issue(1, true));
  }

  /** The bound holds per claim key only: two copies of one authorization can each
      make the maximum number of calls, twice the maximum together. */
  lemma CopiesCallSeparately(a: Config, b: Config) returns (events: seq<Event>)
    requires a.key.authorization == b.key.authorization && a.key.directory != b.key.directory && a.out != b.out
    ensures var runs := Execute(EMPTY, events).runs;
            && |runs| == 2 && runs[0].config == a && runs[1].config == b
            && CallsFor(a.key, runs) == CallsFor(b.key, runs) == a.key.authorization.maximumCalls
  {
    hide Execute, Sound, Calls, TickAll;
    var most := a.key.authorization.maximumCalls;
    events := BothRunning(a, b);
    var first := ServeAll(a.runId, most, most);
    var second := ServeAll(b.runId, most, most);
    events := WorkAll(events, 0, first);
    events := WorkAll(events, 1, second);
    var runs := Execute(EMPTY, events).runs;
    CallsForTwo(a.key, runs);
    CallsForTwo(b.key, runs);
  }

  /** The calls of all runs of an authorization, wherever its copies lie. */
  function CallsOf(authorization: Authorization, runs: seq<Run>): nat {
    if runs == [] then 0
    else
      var last := runs[|runs| - 1];
      CallsOf(authorization, runs[..|runs| - 1]) +
      if last.config.key.authorization == authorization then |Calls(last.session)| else 0
  }

  ghost predicate RunsFrom(runs: seq<Run>, configs: set<Config>) {
    forall i :: 0 <= i < |runs| ==> runs[i].config in configs
  }

  /** Configurations that write to different outputs name the same copy. */
  predicate OneCopy(configs: set<Config>) {
    forall a, b :: a in configs && b in configs && a.out != b.out ==> a.key.directory == b.key.directory
  }

  /** However runs of these configurations interleave and crash, the calls of all
      of them together stay within the authorized maximum. */
  ghost predicate MaximumHolds(authorization: Authorization, configs: set<Config>) {
    forall events :: RunsFrom(Execute(EMPTY, events).runs, configs) ==>
      CallsOf(authorization, Execute(EMPTY, events).runs) <= authorization.maximumCalls
  }

  lemma OwnersApart(sys: System, configs: set<Config>, authorization: Authorization, i: nat, j: nat)
    requires Inv(sys) && RunsFrom(sys.runs, configs) && OneCopy(configs) && i < j < |sys.runs|
    requires forall c :: c in configs ==> c.key.authorization == authorization
    ensures !(sys.runs[i].owner && sys.runs[j].owner)
  {
    hide Sound;
    var a, b := sys.runs[i], sys.runs[j];
    assert RunFits(a, sys.files) && RunFits(b, sys.files) && Apart(a, b);
    assert a.config in configs && b.config in configs;
  }

  lemma {:induction false} OneOwnersCalls(
    sys: System, configs: set<Config>, authorization: Authorization, n: nat)
    requires Inv(sys) && RunsFrom(sys.runs, configs) && n <= |sys.runs|
    requires forall c :: c in configs ==> c.key.authorization == authorization
    requires OneCopy(configs) || authorization.maximumCalls == 0
    ensures CallsOf(authorization, sys.runs[..n]) <= authorization.maximumCalls
    ensures (forall i :: 0 <= i < n ==> !sys.runs[i].owner) ==> CallsOf(authorization, sys.runs[..n]) == 0
  {
    hide Sound, Calls, OneCopy, Inv, Apart;
    if n > 0 {
      OneOwnersCalls(sys, configs, authorization, n - 1);
      assert sys.runs[..n][..n - 1] == sys.runs[..n - 1];
      var last := sys.runs[n - 1];
      assert last.config in configs;
      RunIsSilent(sys, n - 1);
      if last.owner && authorization.maximumCalls > 0 {
        forall i | 0 <= i < n - 1 ensures !sys.runs[i].owner {
          OwnersApart(sys, configs, authorization, i, n - 1);
        }
      }
    }
  }

  lemma RunIsSilent(sys: System, i: nat)
    requires Inv(sys) && i < |sys.runs|
    ensures !sys.runs[i].owner ==> Calls(sys.runs[i].session) == []
    ensures |Calls(sys.runs[i].session)| <= LimitOf(sys.runs[i])
  {
    assert RunFits(sys.runs[i], sys.files);
    NewSessionSound(LimitOf(sys.runs[i]));
    CallsBounded(sys.runs[i].session, LimitOf(sys.runs[i]));
  }

  lemma CopiesExceed(a: Config, b: Config, configs: set<Config>)
    requires a in configs && b in configs && a.out != b.out
    requires a.key.authorization == b.key.authorization && a.key.directory != b.key.directory
    requires a.key.authorization.maximumCalls > 0
    ensures !MaximumHolds(a.key.authorization, configs)
  {
    hide Execute, Calls;
    var events := CopiesCallSeparately(a, b);
    var runs := Execute(EMPTY, events).runs;
    CallsForTwo(a.key, runs);
    CallsForTwo(b.key, runs);
    CallsOfTwo(a.key.authorization, runs);
    assert RunsFrom(runs, configs);
  }

  /** Exactly when the maximum holds for an authorization as a whole: no calls are
      authorized, or configurations with different outputs name the same copy. */
  lemma MaximumHoldsExactly(authorization: Authorization, configs: set<Config>)
    requires forall c :: c in configs ==> c.key.authorization == authorization
    ensures MaximumHolds(authorization, configs) <==> authorization.maximumCalls == 0 || OneCopy(configs)
  {
    hide Execute, Inv, CallsOf;
    if authorization.maximumCalls == 0 || OneCopy(configs) {
      forall events | RunsFrom(Execute(EMPTY, events).runs, configs)
        ensures CallsOf(authorization, Execute(EMPTY, events).runs) <= authorization.maximumCalls
      {
        var sys := Execute(EMPTY, events);
        Reached(events);
        OneOwnersCalls(sys, configs, authorization, |sys.runs|);
        assert sys.runs[..|sys.runs|] == sys.runs;
      }
    } else {
      var a, b :| a in configs && b in configs && a.out != b.out && a.key.directory != b.key.directory;
      CopiesExceed(a, b, configs);
    }
  }

  lemma CallsOfTwo(authorization: Authorization, runs: seq<Run>)
    requires |runs| == 2
    requires runs[0].config.key.authorization == runs[1].config.key.authorization == authorization
    ensures CallsOf(authorization, runs) == |Calls(runs[0].session)| + |Calls(runs[1].session)|
  {
    hide Calls;
    assert runs[..1][..0] == [] && runs[..1][0] == runs[0];
    assert CallsOf(authorization, runs[..1][..0]) == 0;
  }

  lemma CallsForTwo(key: Key, runs: seq<Run>)
    requires |runs| == 2
    ensures CallsFor(key, runs) == (if runs[0].config.key == key then |Calls(runs[0].session)| else 0) +
                                   if runs[1].config.key == key then |Calls(runs[1].session)| else 0
  {
    hide Calls;
    assert runs[..1][..0] == [] && runs[..1][0] == runs[0];
    assert CallsFor(key, runs[..1][..0]) == 0;
  }

  lemma Then(before: seq<Event>, event: Event) returns (events: seq<Event>)
    ensures Execute(EMPTY, events) == Step(Execute(EMPTY, before), event)
  {
    events := before + [event];
    ExecuteLast(EMPTY, before, event);
  }

  lemma ExecuteNone(sys: System)
    ensures Execute(sys, []) == sys
  {
  }

  lemma ExecuteLast(sys: System, events: seq<Event>, event: Event)
    ensures Execute(sys, events + [event]) == Step(Execute(sys, events), event)
  {
    assert (events + [event])[..|events|] == events;
  }
}

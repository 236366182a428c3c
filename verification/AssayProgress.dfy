/** What a run of the assay has gone through by the time it is where it is, over any
    interleaving of any number of runs. */
module AssayProgress {
  import opened AssayProtocol

  /** The steps that have let run `i` get as far as it has. */
  ghost predicate Went(run: Run, i: nat, files: set<Path>, events: seq<Event>) {
    && (run.phase.Checked? ==> CheckOut(i) in events)
    && (run.claimed ==> CheckOut(i) in events && TakeClaim(i, true) in events)
    && (run.owner ==> run.claimed && MakeOut(i, true) in events)
    && (run.phase.Running? || !run.policy.Unissued? ==> run.owner && Issue(i, true) in events)
    && (run.phase.Closing? || run.phase.Opened? || run.phase.Closed? || run.phase.Finished? ==> run.owner)
    && (run.phase.Claimed? ==> run.claimed)
    && (run.phase.Starting? || run.phase.Checked? || run.phase.Claimed? || run.phase.Opened? ==> run.policy.Unissued?)
    && (run.phase.Closed? || run.phase.Finished? ==> !run.policy.Active?)
    && (Built(run.phase) ==> Issue(i, true) in events && EndLoop(i, true) in events)
    && (run.phase.Closed? || run.phase.Finished? ==> Close(i, true) in events)
    && (run.phase.Finished? ==> WriteResult(i, true) in events)
    && (run.phase.Broken? && run.policy.Active? ==> Close(i, false) in events || ClosureFile(run.config.out) in files)
  }

  predicate Built(phase: Phase) { phase == Closing(true) || phase.Closed? || phase.Finished? }

  /** The event is one of the run and of no other. */
  predicate Concerns(event: Event, i: nat) { !event.Spawn? && event.run == i }

  lemma WentOn(run: Run, i: nat, files: set<Path>, events: seq<Event>, event: Event)
    requires Went(run, i, files, events) && Concerns(event, i)
    ensures var (next, created) := Advance(run, files, event); Went(next, i, files + created, events + [event])
  {
    hide TickStep;
    assert event in events + [event] && forall e :: e in events ==> e in events + [event];
  }

  lemma WentBefore(run: Run, i: nat, files: set<Path>, created: set<Path>, events: seq<Event>, event: Event)
    requires Went(run, i, files, events)
    ensures Went(run, i, files + created, events + [event])
  {
    assert forall e :: e in events ==> e in events + [event];
  }

  lemma {:induction false} EveryRunWent(events: seq<Event>, i: nat)
    requires i < |Execute(EMPTY, events).runs|
    ensures Went(Execute(EMPTY, events).runs[i], i, Execute(EMPTY, events).files, events)
  {
    hide Went, Advance;
    var front, event := events[..|events| - 1], events[|events| - 1];
    assert events == front + [event];
    var sys := Execute(EMPTY, front);
    if i < |sys.runs| {
      EveryRunWent(front, i);
      if Concerns(event, i) {
        WentOn(sys.runs[i], i, sys.files, front, event);
      } else {
        WentBefore(sys.runs[i], i, sys.files, Created(sys, event), front, event);
        assert Execute(EMPTY, events).files == sys.files + Created(sys, event);
      }
    } else {
      NewRun(sys.files, event.config, i, events);
    }
  }

  /** The files a step adds. */
  function Created(sys: System, event: Event): set<Path> {
    if event.Spawn? || event.run >= |sys.runs| then {}
    else Advance(sys.runs[event.run], sys.files, event).1
  }

  lemma NewRun(files: set<Path>, config: Config, i: nat, events: seq<Event>)
    ensures Went(At(config, Starting, false), i, files, events)
  {
  }

  /** A run that has written its result looked at its output, took its claim, made its
      output, opened its policy, built its report and closed the policy. */
  lemma FinishedRunWorked(events: seq<Event>, i: nat)
    requires i < |Execute(EMPTY, events).runs| && Execute(EMPTY, events).runs[i].phase.Finished?
    ensures CheckOut(i) in events && TakeClaim(i, true) in events && MakeOut(i, true) in events
    ensures Issue(i, true) in events && EndLoop(i, true) in events && Close(i, true) in events
    ensures WriteResult(i, true) in events
  {
    EveryRunWent(events, i);
  }

  /** A policy stays open behind a run that is over only if the run crashed, or could
      not close it, or its closure had been written already. */
  lemma OpenPolicyExplained(events: seq<Event>, i: nat)
    requires var sys := Execute(EMPTY, events);
             i < |sys.runs| && Over(sys.runs[i].phase) && sys.runs[i].policy.Active?
    ensures var sys := Execute(EMPTY, events);
            || sys.runs[i].phase.Crashed?
            || Close(i, false) in events
            || ClosureFile(sys.runs[i].config.out) in sys.files
  {
    EveryRunWent(events, i);
    if Execute(EMPTY, events).runs[i].phase.Finished? {
      ResultFollowsClosure(events, i);
    }
  }

  // ----- an output that is there already

  lemma StepClaimsNothing(sys: System, event: Event, out: string)
    requires OutDirectory(out) in sys.files
    ensures OutDirectory(out) in Step(sys, event).files
    ensures forall j :: 0 <= j < |Step(sys, event).runs| ==>
              var run := Step(sys, event).runs[j];
              run.config.out == out && (run.claimed || run.phase.Checked?) ==>
                && j < |sys.runs| && sys.runs[j].config.out == out
                && (sys.runs[j].claimed || sys.runs[j].phase.Checked?)
  {
    hide TickStep;
  }

  /** A run whose output is there before it looks never takes its claim, so its
      authorization is not used up. */
  lemma {:induction false} TakenOutputClaimsNothing(sys: System, events: seq<Event>, out: string)
    requires OutDirectory(out) in sys.files
    ensures OutDirectory(out) in Execute(sys, events).files
    ensures forall j :: 0 <= j < |Execute(sys, events).runs| ==>
              var run := Execute(sys, events).runs[j];
              run.config.out == out && (run.claimed || run.phase.Checked?) ==>
                j < |sys.runs| && (sys.runs[j].claimed || sys.runs[j].phase.Checked?)
  {
    hide Step;
    if events != [] {
      var front, event := events[..|events| - 1], events[|events| - 1];
      TakenOutputClaimsNothing(sys, front, out);
      StepClaimsNothing(Execute(sys, front), event, out);
    }
  }

  // ----- a run on its own

  lemma UndisturbedRunBegins(config: Config) returns (events: seq<Event>)
    ensures var sys := Execute(EMPTY, events);
            && sys.runs == [At(config, Running, true).(owner := true, policy := Active)]
            && sys.files == {ClaimFile(config.key), OutDirectory(config.out)}
  {
    hide Execute;
    ExecuteNone(EMPTY);
    events := Then([], Spawn(config));
    events := Then(events, CheckOut(0));
    events := Then(events, TakeClaim(0, true));
    events := Then(events, MakeOut(0, true));
    events := Then(events, Issue(0, true));
  }

  /** Alone and undisturbed, a run gets to its result with its policy closed, and
      leaves its claim, its output, the closure and the result. */
  lemma UndisturbedRunFinishes(config: Config) returns (events: seq<Event>)
    ensures var sys := Execute(EMPTY, events);
            && sys.runs == [At(config, Finished, true).(owner := true, policy := Inactive)]
            && sys.files == {ClaimFile(config.key), OutDirectory(config.out), ClosureFile(config.out),
                             ResultFile(config.out)}
  {
    hide Execute;
    events := UndisturbedRunBegins(config);
    events := Then(events, EndLoop(0, true));
    events := Then(events, Close(0, true));
    events := Then(events, WriteResult(0, true));
  }
}

/** The interleaved diagnostic as a machine over its declared plan. What an arm
    or a series summary contains plays no role here: both are type parameters,
    and everything outside the machine (providers, file writes, drift checks) is
    an arbitrary world. */
module DiagnosticRun {
  import opened Collections
  import opened DiagnosticPlan

  /** How a piece of outside work ends. The runner catches a `Raises`
      (RuntimeError or ValueError); an `Escapes` ends the process. */
  datatype Fate = Returns | Raises | Escapes

  datatype Reply<+T> = Yields(value: T) | Raised | Escaped

  datatype World<!A, !S> = World(
    arm: (string, Step) -> Reply<A>,
    failures: A -> nat,
    retries: A -> nat,
    enterSeries: nat -> Fate,
    enterCase: (nat, nat) -> Fate,
    writeCase: (nat, nat) -> Fate,
    summarise: (nat, seq<CasePair<A>>) -> Reply<S>)  // builds and writes the summary of a series

  predicate Clean<A, S>(w: World<A, S>, arm: A) {
    w.failures(arm) == 0 && w.retries(arm) == 0
  }

  // ----- one case pair

  datatype PairState<+A> = PairState(caseId: string, baseline: Option<A>, candidate: Option<A>, failed: bool)

  function With<A>(pair: PairState<A>, side: Label, arm: A): PairState<A> {
    match side
    case Baseline => pair.(baseline := Some(arm))
    case Candidate => pair.(candidate := Some(arm))
  }

  function ArmCount<A>(pair: PairState<A>): nat {
    (if pair.baseline.Some? then 1 else 0) + if pair.candidate.Some? then 1 else 0
  }

  function Tally<A>(count: A -> nat, arm: Option<A>): nat {
    if arm.Some? then count(arm.value) else 0
  }

  function StoppedAt<A, S>(w: World<A, S>, s: nat, pair: PairState<A>): StoppedCase {
    StoppedCase(s, pair.caseId,
      Tally(w.failures, pair.baseline) + Tally(w.failures, pair.candidate),
      Tally(w.retries, pair.baseline) + Tally(w.retries, pair.candidate))
  }

  datatype PairRun<+A> = PairRun(fate: Fate, pair: PairState<A>, starts: seq<Step>, stopped: bool)

  /** The arms of `steps` from `i` on. Each start is recorded before its arm is run. */
  function ArmsFrom<A, S>(
    w: World<A, S>, steps: seq<Step>, i: nat, pair: PairState<A>, starts: seq<Step>): PairRun<A>
    decreases |steps| - i
  {
    if i >= |steps| then PairRun(Returns, pair, starts, false)
    else
      var started := starts + [steps[i]];
      match w.arm(pair.caseId, steps[i])
      case Escaped => PairRun(Escapes, pair, started, true)
      case Raised => PairRun(Returns, pair.(failed := true), started, true)
      case Yields(arm) =>
        var next := With(pair, steps[i].side, arm);
        if !Clean(w, arm) then PairRun(Returns, next, started, true)
        else ArmsFrom(w, steps, i + 1, next, started)
  }

  function AfterArms<A, S>(w: World<A, S>, s: nat, k: nat, run: PairRun<A>): PairRun<A> {
    if !run.fate.Returns? || run.pair.failed then run
    else
      match w.writeCase(s, k)
      case Returns => run
      case Raises => run.(pair := run.pair.(failed := true), stopped := true)
      case Escapes => run.(fate := Escapes)
  }

  function NewPair<A>(caseId: string): PairState<A> { PairState(caseId, None, None, false) }

  function PairRunOf<A, S>(w: World<A, S>, s: nat, k: nat, caseId: string, starts: seq<Step>): PairRun<A>
    requires s < |SERIES_ORDER|
  {
    AfterArms(w, s, k, ArmsFrom(w, CaseSteps(s, k), 0, NewPair(caseId), starts))
  }

  /** `_run_case_pair`. */
  method RunCasePair<A, S>(w: World<A, S>, s: nat, k: nat, caseId: string, starts: seq<Step>) returns (run: PairRun<A>)
    requires s < |SERIES_ORDER|
    ensures run == PairRunOf(w, s, k, caseId, starts)
  {
    var steps := CaseSteps(s, k);
    run := PairRun(Returns, NewPair(caseId), starts, false);
    var i := 0;
    while i < |steps|
      invariant i <= |steps| && run.fate.Returns? && !run.pair.failed && run.pair.caseId == caseId
      invariant run.stopped ==> run == ArmsFrom(w, steps, 0, NewPair(caseId), starts)
      invariant !run.stopped ==>
        ArmsFrom(w, steps, i, run.pair, run.starts) == ArmsFrom(w, steps, 0, NewPair(caseId), starts)
    {
      if run.stopped {
        break;
      }
      run := run.(starts := run.starts + [steps[i]]);
      match w.arm(caseId, steps[i]) {
        case Escaped =>
          return run.(fate := Escapes, stopped := true);
        case Raised =>
          return run.(pair := run.pair.(failed := true), stopped := true);
        case Yields(arm) =>
          run := run.(pair := With(run.pair, steps[i].side, arm));
          if !Clean(w, arm) {
            run := run.(stopped := true);
          }
      }
      i := i + 1;
    }
    match w.writeCase(s, k) {
      case Returns =>
      case Raises =>
        run := run.(pair := run.pair.(failed := true), stopped := true);
      case Escapes =>
        run := run.(fate := Escapes);
    }
  }

  /** A case pair the world ran cleanly, exactly as the plan names it. */
  ghost predicate Ran<A, S>(w: World<A, S>, s: nat, k: nat, caseId: string, pair: CasePair<A>) {
    && pair.caseId == caseId
    && w.arm(caseId, Step(s, k, Baseline)) == Yields(pair.baseline) && Clean(w, pair.baseline)
    && w.arm(caseId, Step(s, k, Candidate)) == Yields(pair.candidate) && Clean(w, pair.candidate)
  }

  predicate Finished<A>(pair: PairState<A>) { pair.baseline.Some? && pair.candidate.Some? }

  function Complete<A>(pair: PairState<A>): CasePair<A>
    requires Finished(pair)
  {
    CasePair(pair.caseId, pair.baseline.value, pair.candidate.value)
  }

  lemma LastArm<A, S>(w: World<A, S>, steps: seq<Step>, pair: PairState<A>, starts: seq<Step>)
    requires |steps| == 2
    ensures ArmsFrom(w, steps, 1, pair, starts) ==
      match w.arm(pair.caseId, steps[1])
      case Escaped => PairRun(Escapes, pair, starts + [steps[1]], true)
      case Raised => PairRun(Returns, pair.(failed := true), starts + [steps[1]], true)
      case Yields(arm) => PairRun(Returns, With(pair, steps[1].side, arm), starts + [steps[1]], !Clean(w, arm))
  {
  }

  /** What a case pair leaves behind, however it ends. */
  lemma PairRunShape<A, S>(w: World<A, S>, s: nat, k: nat, caseId: string, starts: seq<Step>)
    requires s < |SERIES_ORDER|
    ensures var run := PairRunOf(w, s, k, caseId, starts);
            && !run.fate.Raises?
            && starts <= run.starts <= starts + CaseSteps(s, k)
            && (run.fate.Returns? && !run.stopped ==>
                  && run.starts == starts + CaseSteps(s, k)
                  && Finished(run.pair) && Ran(w, s, k, caseId, Complete(run.pair)))
            && (run.fate.Returns? && run.stopped ==>
                  && ArmCount(run.pair) <= |run.starts| - |starts| <= ArmCount(run.pair) + 1
                  && (run.pair.failed ||
                      StoppedAt(w, s, run.pair).failures + StoppedAt(w, s, run.pair).retries > 0))
  {
    var steps, pair := CaseSteps(s, k), NewPair<A>(caseId);
    var first, both := starts + [steps[0]], starts + steps;
    assert first + [steps[1]] == both;
    if w.arm(caseId, steps[0]).Yields? {
      LastArm(w, steps, With(pair, steps[0].side, w.arm(caseId, steps[0]).value), first);
    }
  }

  // ----- one series

  datatype Execution<+S> = Execution(
    series: seq<S>,
    starts: seq<Step>,
    completed: nat,
    armRuns: nat,
    failed: bool,
    stopped: Option<StoppedCase>)

  function Initial<S>(): Execution<S> { Execution([], [], 0, 0, false, None) }

  /** An execution and whether the process survived it. */
  datatype Progress<+S> = Progress(alive: bool, state: Execution<S>)

  function Fail<S>(state: Execution<S>): Progress<S> { Progress(true, state.(failed := true)) }

  /** What the runner does when a step it relies on does not return. */
  function Interrupted<S>(fate: Fate, state: Execution<S>): Progress<S>
    requires !fate.Returns?
  {
    if fate.Raises? then Fail(state) else Progress(false, state)
  }

  function Seal<S>(state: Execution<S>, built: Reply<S>): Progress<S> {
    match built
    case Yields(summary) => Progress(true, state.(series := state.series + [summary]))
    case Raised => Fail(state)
    case Escaped => Progress(false, state)
  }

  function AfterPair<A, S>(state: Execution<S>, run: PairRun<A>): Execution<S> {
    state.(starts := run.starts, armRuns := state.armRuns + ArmCount(run.pair))
  }

  function Completed<A, S>(state: Execution<S>, run: PairRun<A>): Execution<S> {
    AfterPair(state, run).(completed := state.completed + 1)
  }

  function Stopped<A, S>(w: World<A, S>, s: nat, state: Execution<S>, run: PairRun<A>): Execution<S> {
    AfterPair(state, run).(stopped := Some(StoppedAt(w, s, run.pair)), failed := run.pair.failed)
  }

  function CasesFrom<A, S>(
    w: World<A, S>, ids: seq<string>, s: nat, k: nat, state: Execution<S>, pairs: seq<CasePair<A>>): Progress<S>
    requires s < |SERIES_ORDER|
    decreases |ids| - k
  {
    if k >= |ids| then Seal(state, w.summarise(s, pairs))
    else if !w.enterCase(s, k).Returns? then Interrupted(w.enterCase(s, k), state)
    else
      var run := PairRunOf(w, s, k, ids[k], state.starts);
      if !run.fate.Returns? then Progress(false, state.(starts := run.starts))
      else if run.stopped || !Finished(run.pair) then Progress(true, Stopped(w, s, state, run))
      else CasesFrom(w, ids, s, k + 1, Completed(state, run), pairs + [Complete(run.pair)])
  }

  /** `_run_series`. */
  method RunSeries<A, S>(w: World<A, S>, ids: seq<string>, s: nat, execution: Execution<S>) returns (p: Progress<S>)
    requires s < |SERIES_ORDER|
    ensures p == CasesFrom(w, ids, s, 0, execution, [])
  {
    var pairs: seq<CasePair<A>> := [];
    var state := execution;
    for k := 0 to |ids|
      invariant CasesFrom(w, ids, s, k, state, pairs) == CasesFrom(w, ids, s, 0, execution, [])
    {
      if !w.enterCase(s, k).Returns? {
        return Interrupted(w.enterCase(s, k), state);
      }
      var run := RunCasePair(w, s, k, ids[k], state.starts);
      PairRunShape(w, s, k, ids[k], state.starts);
      if run.fate.Escapes? {
        return Progress(false, state.(starts := run.starts));
      }
      state := state.(starts := run.starts, armRuns := state.armRuns + ArmCount(run.pair));
      if run.stopped {
        return Progress(true, state.(stopped := Some(StoppedAt(w, s, run.pair)), failed := run.pair.failed));
      }
      pairs := pairs + [Complete(run.pair)];
      state := state.(completed := state.completed + 1);
    }
    p := Seal(state, w.summarise(s, pairs));
  }

  // ----- the whole plan

  predicate Live<S>(p: Progress<S>) {
    p.alive && !p.state.failed && p.state.stopped.None?
  }

  function PlanFrom<A, S>(w: World<A, S>, ids: seq<string>, s: nat, state: Execution<S>): Progress<S>
    decreases |SERIES_ORDER| - s
  {
    if s >= |SERIES_ORDER| then Progress(true, state)
    else if !w.enterSeries(s).Returns? then Interrupted(w.enterSeries(s), state)
    else
      var p := CasesFrom(w, ids, s, 0, state, []);
      if !Live(p) then p else PlanFrom(w, ids, s + 1, p.state)
  }

  function Execute<A, S>(w: World<A, S>, ids: seq<string>): Progress<S> { PlanFrom(w, ids, 0, Initial()) }

  /** `_execute_series_plan`. */
  method ExecuteSeriesPlan<A, S>(w: World<A, S>, ids: seq<string>) returns (p: Progress<S>)
    ensures p == Execute(w, ids)
  {
    p := Progress(true, Initial());
    for s := 0 to |SERIES_ORDER|
      invariant Live(p) && PlanFrom(w, ids, s, p.state) == Execute(w, ids)
    {
      if !w.enterSeries(s).Returns? {
        return Interrupted(w.enterSeries(s), p.state);
      }
      p := RunSeries(w, ids, s, p.state);
      if !Live(p) {
        return;
      }
    }
  }

  // ----- what every run keeps

  /** Between two case pairs nothing is outstanding. */
  predicate Running<S>(state: Execution<S>) {
    && !state.failed && state.stopped.None?
    && state.armRuns == |state.starts| == 2 * state.completed
  }

  /** How the counters relate when a run has ended. */
  predicate Counted<S>(state: Execution<S>) {
    && 2 * state.completed <= state.armRuns <= 2 * state.completed + 2
    && state.armRuns <= |state.starts| <= state.armRuns + 1
    && (state.failed || state.stopped.None? || state.stopped.value.failures + state.stopped.value.retries > 0)
    && (!state.failed && state.stopped.None? ==> Running(state))
  }

  lemma PrefixOfPlan<T>(before: seq<T>, steps: seq<T>, rest: seq<T>, plan: seq<T>, starts: seq<T>)
    requires before + (steps + rest) == plan && starts <= before + steps
    ensures starts <= plan && (before + steps) + rest == plan
  {
    assert (before + steps) + rest == before + (steps + rest);
  }

  /** A case pair that was not stopped takes the run to its next case. */
  lemma CaseStep<A, S>(w: World<A, S>, ids: seq<string>, s: nat, k: nat, state: Execution<S>, plan: seq<Step>)
    requires s < |SERIES_ORDER| && k < |ids| && Running(state)
    requires state.starts + Remaining(|ids|, s, k) == plan
    ensures var run := PairRunOf(w, s, k, ids[k], state.starts);
            && run.starts <= plan
            && (run.fate.Returns? && !run.stopped ==>
                  && Running(Completed(state, run))
                  && run.starts + Remaining(|ids|, s, k + 1) == plan)
            && (run.fate.Returns? && run.stopped ==> Counted(Stopped(w, s, state, run)))
  {
    PairRunShape(w, s, k, ids[k], state.starts);
    PrefixOfPlan(state.starts, CaseSteps(s, k), Remaining(|ids|, s, k + 1), plan,
                 PairRunOf(w, s, k, ids[k], state.starts).starts);
  }

  lemma {:induction false} CasesShape<A, S>(
    w: World<A, S>, ids: seq<string>, s: nat, k: nat, state: Execution<S>, pairs: seq<CasePair<A>>, plan: seq<Step>)
    requires s < |SERIES_ORDER| && k <= |ids| && Running(state)
    requires state.starts + Remaining(|ids|, s, k) == plan
    ensures var p := CasesFrom(w, ids, s, k, state, pairs);
            && p.state.starts <= plan
            && (p.alive ==> Counted(p.state))
            && (Live(p) ==> p.state.starts + Remaining(|ids|, s + 1, 0) == plan)
    decreases |ids| - k
  {
    if k < |ids| && w.enterCase(s, k).Returns? {
      CaseStep(w, ids, s, k, state, plan);
      PairRunShape(w, s, k, ids[k], state.starts);
      var run := PairRunOf(w, s, k, ids[k], state.starts);
      if run.fate.Returns? && !run.stopped {
        CasesShape(w, ids, s, k + 1, Completed(state, run), pairs + [Complete(run.pair)], plan);
      }
    }
  }

  lemma {:induction false} PlanShape<A, S>(w: World<A, S>, ids: seq<string>, s: nat, state: Execution<S>)
    requires s <= |SERIES_ORDER| && Running(state)
    requires state.starts + Remaining(|ids|, s, 0) == FlatPlan(|ids|)
    ensures var p := PlanFrom(w, ids, s, state);
            && p.state.starts <= FlatPlan(|ids|)
            && (p.alive ==> Counted(p.state))
            && (Live(p) ==> p.state.starts == FlatPlan(|ids|))
    decreases |SERIES_ORDER| - s
  {
    if s < |SERIES_ORDER| && w.enterSeries(s).Returns? {
      CasesShape(w, ids, s, 0, state, [], FlatPlan(|ids|));
      var p := CasesFrom(w, ids, s, 0, state, []);
      if Live(p) {
        PlanShape(w, ids, s + 1, p.state);
      }
    }
  }

  /** Whatever the world does, the attempted arms are a prefix of the declared
      plan: none is skipped, rerun or taken out of order. This holds even when
      the process dies. */
  lemma AttemptsFollowPlan<A, S>(w: World<A, S>, ids: seq<string>)
    ensures Execute(w, ids).state.starts <= FlatPlan(|ids|)
    ensures Distinct(Execute(w, ids).state.starts)
  {
    PlanShape(w, ids, 0, Initial());
    PlanIsExhaustive(|ids|);
  }

  /** The counters of a run that ended. */
  lemma CountersAgree<A, S>(w: World<A, S>, ids: seq<string>)
    requires Execute(w, ids).alive
    ensures var state := Execute(w, ids).state;
            && 2 * state.completed <= state.armRuns <= 2 * state.completed + 2
            && 0 <= |state.starts| - state.armRuns <= 1
            && (!state.failed && state.stopped.None? ==>
                  state.armRuns == |state.starts| == 2 * state.completed == 4 * |ids|)
            && (state.failed || state.stopped.None? ||
                state.stopped.value.failures + state.stopped.value.retries > 0)
  {
    PlanShape(w, ids, 0, Initial());
    PlanIsExhaustive(|ids|);
  }

  // ----- where the finished series come from

  ghost predicate PairsRan<A, S>(w: World<A, S>, ids: seq<string>, s: nat, pairs: seq<CasePair<A>>) {
    |pairs| <= |ids| && forall k :: 0 <= k < |pairs| ==> Ran(w, s, k, ids[k], pairs[k])
  }

  /** The summary of the series' own pairs, one for every declared case in order. */
  ghost predicate SeriesRan<A(!new), S>(w: World<A, S>, ids: seq<string>, s: nat, summary: S) {
    exists pairs :: w.summarise(s, pairs) == Yields(summary) && PairsRan(w, ids, s, pairs) && |pairs| == |ids|
  }

  ghost predicate AllRan<A(!new), S>(w: World<A, S>, ids: seq<string>, series: seq<S>) {
    forall s :: 0 <= s < |series| ==> SeriesRan(w, ids, s, series[s])
  }

  /** A live series appended the summary of its own pairs; any other appended nothing. */
  lemma {:induction false} CasesRan<A(!new), S>(
    w: World<A, S>, ids: seq<string>, s: nat, k: nat, state: Execution<S>, pairs: seq<CasePair<A>>)
    requires s < |SERIES_ORDER| && k <= |ids|
    requires PairsRan(w, ids, s, pairs) && |pairs| == k
    ensures var p := CasesFrom(w, ids, s, k, state, pairs);
            && (!Live(p) ==> p.state.series == state.series || state.failed || state.stopped.Some?)
            && (Live(p) ==> exists summary ::
                  p.state.series == state.series + [summary] && SeriesRan(w, ids, s, summary))
    decreases |ids| - k
  {
    if k == |ids| {
      if w.summarise(s, pairs).Yields? {
        assert SeriesRan(w, ids, s, w.summarise(s, pairs).value);
      }
    } else if w.enterCase(s, k).Returns? {
      PairRunShape(w, s, k, ids[k], state.starts);
      var run := PairRunOf(w, s, k, ids[k], state.starts);
      if run.fate.Returns? && !run.stopped {
        CasesRan(w, ids, s, k + 1, Completed(state, run), pairs + [Complete(run.pair)]);
      }
    }
  }

  lemma {:induction false} PlanRan<A(!new), S>(w: World<A, S>, ids: seq<string>, s: nat, state: Execution<S>)
    requires s <= |SERIES_ORDER| && !state.failed && state.stopped.None?
    requires AllRan(w, ids, state.series) && |state.series| == s
    ensures var p := PlanFrom(w, ids, s, state);
            && AllRan(w, ids, p.state.series)
            && (Live(p) ==> |p.state.series| == |SERIES_ORDER|)
    decreases |SERIES_ORDER| - s
  {
    if s < |SERIES_ORDER| && w.enterSeries(s).Returns? {
      CasesRan(w, ids, s, 0, state, []);
      var p := CasesFrom(w, ids, s, 0, state, []);
      if Live(p) {
        var summary :| p.state.series == state.series + [summary] && SeriesRan(w, ids, s, summary);
        PlanRan(w, ids, s + 1, p.state);
      }
    }
  }

  /** Every finished series is the summary of its own arms, each run once for
      this series: nothing is carried forward. */
  lemma NothingCarriedForward<A(!new), S>(w: World<A, S>, ids: seq<string>)
    ensures AllRan(w, ids, Execute(w, ids).state.series)
    ensures Live(Execute(w, ids)) ==> |Execute(w, ids).state.series| == |SERIES_ORDER|
  {
    PlanRan(w, ids, 0, Initial());
  }
}

/** Where an interleaved diagnostic ends: at the first thing in declared order
    that does not go through, whatever the world does. */
module DiagnosticPath {
  import opened Collections
  import opened DiagnosticPlan
  import opened DiagnosticRun

  // ----- what it takes for a case and for a series to go through

  function FirstSide(s: nat): Label { if s == 0 then Candidate else Baseline }

  function SecondSide(s: nat): Label { if s == 0 then Baseline else Candidate }

  predicate ArmClean<A, S>(w: World<A, S>, caseId: string, step: Step) {
    && w.arm(caseId, step).Yields?
    && w.failures(w.arm(caseId, step).value) == 0 && w.retries(w.arm(caseId, step).value) == 0
  }

  predicate BothClean<A, S>(w: World<A, S>, caseId: string, s: nat, k: nat) {
    ArmClean(w, caseId, Step(s, k, Baseline)) && ArmClean(w, caseId, Step(s, k, Candidate))
  }

  predicate CaseThrough<A, S>(w: World<A, S>, caseId: string, s: nat, k: nat) {
    w.enterCase(s, k) == Returns && BothClean(w, caseId, s, k) && w.writeCase(s, k) == Returns
  }

  predicate CasesThrough<A, S>(w: World<A, S>, ids: seq<string>, s: nat, n: nat)
    requires n <= |ids|
  {
    w.enterSeries(s) == Returns && forall k :: 0 <= k < n ==> CaseThrough(w, ids[k], s, k)
  }

  function PairsAt<A, S>(w: World<A, S>, ids: seq<string>, s: nat, n: nat): seq<CasePair<A>>
    requires n <= |ids| && CasesThrough(w, ids, s, n)
  {
    seq(n, k requires 0 <= k < n =>
      assert CaseThrough(w, ids[k], s, k);
      CasePair(ids[k], w.arm(ids[k], Step(s, k, Baseline)).value, w.arm(ids[k], Step(s, k, Candidate)).value))
  }

  predicate SeriesThrough<A, S>(w: World<A, S>, ids: seq<string>, s: nat) {
    CasesThrough(w, ids, s, |ids|) && w.summarise(s, PairsAt(w, ids, s, |ids|)).Yields?
  }

  /** Everything before case `k` of series `s` went through. */
  predicate Reached<A, S>(w: World<A, S>, ids: seq<string>, s: nat, k: nat)
    requires k <= |ids|
  {
    s < 2 && (s == 1 ==> SeriesThrough(w, ids, 0)) && CasesThrough(w, ids, s, k)
  }

  // ----- how one case pair ends

  /** Some arm that was run raised, or both were yielded and the case's file was
      not written: the failure is caught. */
  predicate PairRaises<A, S>(w: World<A, S>, caseId: string, s: nat, k: nat) {
    var first, second := Step(s, k, FirstSide(s)), Step(s, k, SecondSide(s));
    || w.arm(caseId, first).Raised?
    || (ArmClean(w, caseId, first) && w.arm(caseId, second).Raised?)
    || (PairWritten(w, caseId, s, k) && w.writeCase(s, k) == Raises)
  }

  /** ... or escaped, which ends the process. */
  predicate PairEscapes<A, S>(w: World<A, S>, caseId: string, s: nat, k: nat) {
    var first, second := Step(s, k, FirstSide(s)), Step(s, k, SecondSide(s));
    || w.arm(caseId, first).Escaped?
    || (ArmClean(w, caseId, first) && w.arm(caseId, second).Escaped?)
    || (PairWritten(w, caseId, s, k) && w.writeCase(s, k) == Escapes)
  }

  /** The case's file is written once all arms that were run have yielded. */
  predicate PairWritten<A, S>(w: World<A, S>, caseId: string, s: nat, k: nat) {
    var first, second := Step(s, k, FirstSide(s)), Step(s, k, SecondSide(s));
    && w.arm(caseId, first).Yields?
    && (ArmClean(w, caseId, first) ==> w.arm(caseId, second).Yields?)
  }

  /** What the arms that were run and yielded add up to. */
  function Noted<A, S>(w: World<A, S>, count: A -> nat, caseId: string, s: nat, k: nat): nat {
    var first, second := w.arm(caseId, Step(s, k, FirstSide(s))), w.arm(caseId, Step(s, k, SecondSide(s)));
    (if first.Yields? then count(first.value) else 0) +
    if ArmClean(w, caseId, Step(s, k, FirstSide(s))) && second.Yields? then count(second.value) else 0
  }

  /** The arms of the case that are started: the second only after a clean first. */
  function Started<A, S>(w: World<A, S>, caseId: string, s: nat, k: nat): seq<Step> {
    [Step(s, k, FirstSide(s))] +
    if ArmClean(w, caseId, Step(s, k, FirstSide(s))) then [Step(s, k, SecondSide(s))] else []
  }

  lemma PairEnds<A, S>(w: World<A, S>, caseId: string, s: nat, k: nat, starts: seq<Step>)
    requires s < 2
    ensures var run := PairRunOf(w, s, k, caseId, starts);
            && run.starts == starts + Started(w, caseId, s, k)
            && (run.fate == if PairEscapes(w, caseId, s, k) then Escapes else Returns)
            && (run.fate.Returns? ==>
                  && (run.stopped <==> !BothClean(w, caseId, s, k) || PairRaises(w, caseId, s, k))
                  && (run.pair.failed <==> PairRaises(w, caseId, s, k))
                  && StoppedAt(w, s, run.pair) == StoppedCase(s, caseId,
                       Noted(w, w.failures, caseId, s, k), Noted(w, w.retries, caseId, s, k)))
            && (run.fate.Returns? && !run.stopped ==>
                  && Finished(run.pair)
                  && Complete(run.pair) == CasePair(caseId,
                       w.arm(caseId, Step(s, k, Baseline)).value, w.arm(caseId, Step(s, k, Candidate)).value))
  {
    var steps, pair := CaseSteps(s, k), NewPair<A>(caseId);
    assert steps == [Step(s, k, FirstSide(s)), Step(s, k, SecondSide(s))];
    var first := starts + [steps[0]];
    assert first + [steps[1]] == starts + [steps[0], steps[1]];
    if w.arm(caseId, steps[0]).Yields? {
      LastArm(w, steps, With(pair, steps[0].side, w.arm(caseId, steps[0]).value), first);
    }
  }

  // ----- the run as it stands before a case

  /** What is left to do once series `s` has got as far as `p`. */
  function Onwards<A, S>(w: World<A, S>, ids: seq<string>, s: nat, p: Progress<S>): Progress<S> {
    if Live(p) then PlanFrom(w, ids, s + 1, p.state) else p
  }

  /** Between two cases: so many finished pairs and series, and the declared plan
      so far attempted. */
  predicate Standing<S>(state: Execution<S>, n: nat, s: nat, k: nat) {
    && !state.failed && state.stopped.None?
    && |state.series| == s && state.completed == s * n + k && state.armRuns == 2 * state.completed
    && state.starts + Remaining(n, s, k) == FlatPlan(n)
  }

  lemma NextCase<A, S>(w: World<A, S>, ids: seq<string>, s: nat, k: nat, state: Execution<S>, pairs: seq<CasePair<A>>)
    returns (next: Execution<S>)
    requires s < 2 && k < |ids| && CasesThrough(w, ids, s, k + 1)
    requires Standing(state, |ids|, s, k) && CasesThrough(w, ids, s, k) && pairs == PairsAt(w, ids, s, k)
    ensures Standing(next, |ids|, s, k + 1) && next.series == state.series
    ensures CasesFrom(w, ids, s, k, state, pairs) == CasesFrom(w, ids, s, k + 1, next, PairsAt(w, ids, s, k + 1))
  {
    assert CaseThrough(w, ids[k], s, k);
    PairEnds(w, ids[k], s, k, state.starts);
    var run := PairRunOf(w, s, k, ids[k], state.starts);
    next := Completed(state, run);
    assert PairsAt(w, ids, s, k + 1) == pairs + [Complete(run.pair)];
    assert run.starts == state.starts + CaseSteps(s, k);
    assert next.starts + Remaining(|ids|, s, k + 1) == state.starts + (CaseSteps(s, k) + Remaining(|ids|, s, k + 1));
  }

  lemma {:induction false} ArrivesInSeries<A, S>(w: World<A, S>, ids: seq<string>, s: nat, k: nat, start: Execution<S>)
    returns (state: Execution<S>)
    requires s < 2 && k <= |ids| && CasesThrough(w, ids, s, k) && Standing(start, |ids|, s, 0)
    ensures Standing(state, |ids|, s, k) && state.series == start.series
    ensures CasesFrom(w, ids, s, 0, start, []) == CasesFrom(w, ids, s, k, state, PairsAt(w, ids, s, k))
  {
    hide CasesFrom, CaseThrough, Standing;
    if k == 0 {
      state := start;
      assert PairsAt(w, ids, s, 0) == [];
    } else {
      var before := ArrivesInSeries(w, ids, s, k - 1, start);
      state := NextCase(w, ids, s, k - 1, before, PairsAt(w, ids, s, k - 1));
    }
  }

  lemma Begun<A, S>(w: World<A, S>, ids: seq<string>)
    ensures Standing(Initial<S>(), |ids|, 0, 0)
  {
    assert Initial<S>().starts + FlatPlan(|ids|) == FlatPlan(|ids|);
  }

  lemma FinishedFirst<A, S>(w: World<A, S>, ids: seq<string>) returns (state: Execution<S>)
    requires SeriesThrough(w, ids, 0)
    ensures Execute(w, ids) == PlanFrom(w, ids, 1, state) && Standing(state, |ids|, 1, 0)
    ensures state.series == [w.summarise(0, PairsAt(w, ids, 0, |ids|)).value]
  {
    hide CaseThrough;
    Begun(w, ids);
    var before := ArrivesInSeries(w, ids, 0, |ids|, Initial());
    var p := Seal(before, w.summarise(0, PairsAt(w, ids, 0, |ids|)));
    state := p.state;
    assert Remaining(|ids|, 0, |ids|) == Remaining(|ids|, 1, 0);
  }

  /** A run comes to every case that is reached, with the declared plan so far
      behind it. */
  lemma Arrives<A, S>(w: World<A, S>, ids: seq<string>, s: nat, k: nat) returns (state: Execution<S>)
    requires k <= |ids| && Reached(w, ids, s, k)
    ensures Standing(state, |ids|, s, k)
    ensures Execute(w, ids) == Onwards(w, ids, s, CasesFrom(w, ids, s, k, state, PairsAt(w, ids, s, k)))
    ensures s == 1 ==> state.series == [w.summarise(0, PairsAt(w, ids, 0, |ids|)).value]
  {
    hide CasesFrom, CaseThrough;
    if s == 0 {
      Begun(w, ids);
      state := ArrivesInSeries(w, ids, 0, k, Initial());
    } else {
      var start := FinishedFirst(w, ids);
      state := ArrivesInSeries(w, ids, 1, k, start);
    }
  }

  // ----- where a run ends

  /** Numbers of a run that ended in case `k` of series `s`. */
  predicate Counts<S>(state: Execution<S>, n: nat, s: nat, k: nat) {
    |state.series| == s && state.completed == s * n + k
  }

  /** A run ends at the first case that does not go through. It is caught, and
      says so, unless something escaped; what it notes is what the arms of that
      case reported, and the arms started are the plan up to there. */
  lemma EndsInCase<A, S>(w: World<A, S>, ids: seq<string>, s: nat, k: nat)
    requires k < |ids| && Reached(w, ids, s, k) && !CaseThrough(w, ids[k], s, k)
    ensures var p := Execute(w, ids);
            && !Live(p) && Counts(p.state, |ids|, s, k)
            && (w.enterCase(s, k) != Returns ==>
                  && p.state.starts + Remaining(|ids|, s, k) == FlatPlan(|ids|)
                  && (p.alive <==> w.enterCase(s, k) == Raises)
                  && (p.alive ==> p.state.failed && p.state.stopped.None?))
            && (w.enterCase(s, k) == Returns ==>
                  && (p.alive <==> !PairEscapes(w, ids[k], s, k))
                  && (p.alive ==>
                        && (p.state.failed <==> PairRaises(w, ids[k], s, k))
                        && p.state.stopped == Some(StoppedCase(s, ids[k],
                             Noted(w, w.failures, ids[k], s, k), Noted(w, w.retries, ids[k], s, k))))
                  && exists before ::
                       && before + Remaining(|ids|, s, k) == FlatPlan(|ids|)
                       && p.state.starts == before + Started(w, ids[k], s, k))
  {
    hide PlanFrom, PairRunOf, PairEscapes, PairRaises, Started, Noted;
    var state := Arrives(w, ids, s, k);
    if w.enterCase(s, k) == Returns {
      PairEnds(w, ids[k], s, k, state.starts);
      StoppedNotThrough(w, ids[k], s, k);
      assert state.starts + Remaining(|ids|, s, k) == FlatPlan(|ids|);
    }
  }

  lemma StoppedNotThrough<A, S>(w: World<A, S>, caseId: string, s: nat, k: nat)
    requires !CaseThrough(w, caseId, s, k) && w.enterCase(s, k) == Returns && s < 2
    ensures PairEscapes(w, caseId, s, k) || !BothClean(w, caseId, s, k) || PairRaises(w, caseId, s, k)
  {
  }

  /** ... or at the first series that cannot be begun ... */
  lemma EndsBeforeSeries<A, S>(w: World<A, S>, ids: seq<string>, s: nat)
    requires s < 2 && (s == 1 ==> SeriesThrough(w, ids, 0)) && w.enterSeries(s) != Returns
    ensures var p := Execute(w, ids);
            && !Live(p) && Counts(p.state, |ids|, s, 0)
            && (p.alive <==> w.enterSeries(s) == Raises)
            && (p.alive ==> p.state.failed && p.state.stopped.None?)
            && p.state.starts + Remaining(|ids|, s, 0) == FlatPlan(|ids|)
  {
    hide CasesFrom, SeriesThrough, Remaining;
    Begun(w, ids);
    if s == 1 {
      var state := FinishedFirst(w, ids);
    }
  }

  /** ... or summarised. */
  lemma EndsAfterSeries<A, S>(w: World<A, S>, ids: seq<string>, s: nat)
    requires Reached(w, ids, s, |ids|) && !SeriesThrough(w, ids, s)
    ensures var p := Execute(w, ids);
            && !Live(p) && Counts(p.state, |ids|, s, |ids|)
            && (p.alive <==> w.summarise(s, PairsAt(w, ids, s, |ids|)).Raised?)
            && (p.alive ==> p.state.failed && p.state.stopped.None?)
            && p.state.starts + Remaining(|ids|, s + 1, 0) == FlatPlan(|ids|)
  {
    hide PlanFrom, CaseThrough;
    var state := Arrives(w, ids, s, |ids|);
    assert Remaining(|ids|, s, |ids|) == Remaining(|ids|, s + 1, 0);
  }

  /** A run goes through exactly if both series do; it then has their two summaries. */
  lemma LiveExactly<A, S>(w: World<A, S>, ids: seq<string>)
    ensures Live(Execute(w, ids)) <==> SeriesThrough(w, ids, 0) && SeriesThrough(w, ids, 1)
    ensures Live(Execute(w, ids)) ==>
              && Execute(w, ids).state.series ==
                   [w.summarise(0, PairsAt(w, ids, 0, |ids|)).value, w.summarise(1, PairsAt(w, ids, 1, |ids|)).value]
              && Execute(w, ids).state.starts == FlatPlan(|ids|)
  {
    hide Execute, CasesFrom, PlanFrom, SeriesThrough, CasesThrough;
    if SeriesThrough(w, ids, 0) && SeriesThrough(w, ids, 1) {
      BothThrough(w, ids);
    } else {
      var s := if SeriesThrough(w, ids, 0) then 1 else 0;
      NotThrough(w, ids, s);
    }
  }

  lemma BothThrough<A, S>(w: World<A, S>, ids: seq<string>)
    requires SeriesThrough(w, ids, 0) && SeriesThrough(w, ids, 1)
    ensures Live(Execute(w, ids)) && Execute(w, ids).state.starts == FlatPlan(|ids|)
    ensures Execute(w, ids).state.series ==
              [w.summarise(0, PairsAt(w, ids, 0, |ids|)).value, w.summarise(1, PairsAt(w, ids, 1, |ids|)).value]
  {
    hide CaseThrough;
    var state := Arrives(w, ids, 1, |ids|);
    assert Remaining(|ids|, 1, |ids|) == [];
  }

  lemma NotThrough<A, S>(w: World<A, S>, ids: seq<string>, s: nat)
    requires s < 2 && (s == 1 ==> SeriesThrough(w, ids, 0)) && !SeriesThrough(w, ids, s)
    ensures !Live(Execute(w, ids))
  {
    hide Execute, CaseThrough;
    if w.enterSeries(s) != Returns {
      EndsBeforeSeries(w, ids, s);
    } else if CasesThrough(w, ids, s, |ids|) {
      EndsAfterSeries(w, ids, s);
    } else {
      var k := FirstNotThrough(w, ids, s, |ids|);
      EndsInCase(w, ids, s, k);
    }
  }

  lemma {:induction false} FirstNotThrough<A, S>(w: World<A, S>, ids: seq<string>, s: nat, n: nat) returns (k: nat)
    requires n <= |ids| && w.enterSeries(s) == Returns && !CasesThrough(w, ids, s, n)
    ensures k < n && CasesThrough(w, ids, s, k) && !CaseThrough(w, ids[k], s, k)
  {
    hide CaseThrough;
    if CasesThrough(w, ids, s, n - 1) {
      k := n - 1;
    } else {
      k := FirstNotThrough(w, ids, s, n - 1);
    }
  }
}

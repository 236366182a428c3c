/** The declared plan of an interleaved diagnostic: every case of two mirrored
    series is run once in each arm, the two arms of a case next to each other. */
module DiagnosticPlan {
  import opened Collections

  datatype Label = Baseline | Candidate

  datatype ArmOrder = CandidateFirst | BaselineFirst

  /** One arm of the plan: series, position of the case, and side. */
  datatype Step = Step(series: nat, ordinal: nat, side: Label)

  /** A case whose two arms both ran. */
  datatype CasePair<+A> = CasePair(caseId: string, baseline: A, candidate: A)

  datatype StoppedCase = StoppedCase(series: nat, caseId: string, failures: nat, retries: nat)

  const SERIES_ORDER: seq<ArmOrder> := [CandidateFirst, BaselineFirst]

  function ArmSpecs(order: ArmOrder): seq<Label> {
    match order case CandidateFirst => [Candidate, Baseline] case BaselineFirst => [Baseline, Candidate]
  }

  function CaseSteps(s: nat, k: nat): seq<Step>
    requires s < |SERIES_ORDER|
  {
    var sides := ArmSpecs(SERIES_ORDER[s]);
    [Step(s, k, sides[0]), Step(s, k, sides[1])]
  }

  /** What the plan still holds from case `k` of series `s` on. */
  function Remaining(n: nat, s: nat, k: nat): seq<Step>
    decreases |SERIES_ORDER| - s, n - k
  {
    if s >= |SERIES_ORDER| then []
    else if k >= n then Remaining(n, s + 1, 0)
    else CaseSteps(s, k) + Remaining(n, s, k + 1)
  }

  function FlatPlan(n: nat): seq<Step> { Remaining(n, 0, 0) }

  predicate Planned(n: nat, s: nat, k: nat, step: Step) {
    && step.series < |SERIES_ORDER| && step.ordinal < n
    && (step.series > s || (step.series == s && step.ordinal >= k))
  }

  lemma {:induction false} RemainingSteps(n: nat, s: nat, k: nat)
    requires k <= n
    ensures forall step :: step in Remaining(n, s, k) <==> Planned(n, s, k, step)
    ensures Distinct(Remaining(n, s, k))
    ensures |Remaining(n, s, k)| == if s == 0 then 2 * (n - k) + 2 * n else if s == 1 then 2 * (n - k) else 0
    decreases |SERIES_ORDER| - s, n - k
  {
    if s < |SERIES_ORDER| {
      if k == n {
        RemainingSteps(n, s + 1, 0);
      } else {
        RemainingSteps(n, s, k + 1);
        var rest := Remaining(n, s, k + 1);
        forall step ensures step in CaseSteps(s, k) <==> step.series == s && step.ordinal == k {
          assert CaseSteps(s, k)[0].side == step.side || CaseSteps(s, k)[1].side == step.side;
        }
        assert CaseSteps(s, k)[0] != CaseSteps(s, k)[1];
        forall i, j | 0 <= i < j < 2 + |rest| ensures (CaseSteps(s, k) + rest)[i] != (CaseSteps(s, k) + rest)[j] {
          if i < 2 <= j {
            assert CaseSteps(s, k)[i] in CaseSteps(s, k) && rest[j - 2] in rest;
          }
        }
      }
    }
  }

  /** The declared plan names every arm of every case of both series exactly once. */
  lemma PlanIsExhaustive(n: nat)
    ensures Distinct(FlatPlan(n)) && |FlatPlan(n)| == 4 * n
    ensures forall step :: step in FlatPlan(n) <==> step.series < |SERIES_ORDER| && step.ordinal < n
  {
    RemainingSteps(n, 0, 0);
  }

  lemma {:induction false} CaseAt(n: nat, s: nat, k: nat, j: nat)
    requires s < |SERIES_ORDER| && k <= j < n
    ensures var plan := Remaining(n, s, k);
            |plan| >= 2 * (n - k) && [plan[2 * (j - k)], plan[2 * (j - k) + 1]] == CaseSteps(s, j)
    decreases j - k
  {
    RemainingSteps(n, s, k);
    if k < j {
      CaseAt(n, s, k + 1, j);
    }
  }

  lemma DroppedTwo(two: seq<Step>, rest: seq<Step>, m: nat)
    requires |two| == 2 && m <= |rest|
    ensures (two + rest)[2 + m..] == rest[m..]
  {
  }

  lemma {:induction false} SeriesAt(n: nat, s: nat, k: nat)
    requires s < |SERIES_ORDER| && k <= n
    ensures |Remaining(n, s, k)| >= 2 * (n - k)
    ensures Remaining(n, s, k)[2 * (n - k)..] == Remaining(n, s + 1, 0)
    decreases n - k
  {
    if k < n {
      var rest, m := Remaining(n, s, k + 1), 2 * (n - k - 1);
      SeriesAt(n, s, k + 1);
      assert Remaining(n, s, k) == CaseSteps(s, k) + rest;
      DroppedTwo(CaseSteps(s, k), rest, m);
    }
  }

  /** The first series runs the candidate of every case before its baseline, the
      second the other way round, the cases in their order in both. */
  lemma PlanInOrder(n: nat, k: nat)
    requires k < n
    ensures var plan := FlatPlan(n);
            && |plan| == 4 * n
            && plan[2 * k] == Step(0, k, Candidate) && plan[2 * k + 1] == Step(0, k, Baseline)
            && plan[2 * n + 2 * k] == Step(1, k, Baseline) && plan[2 * n + 2 * k + 1] == Step(1, k, Candidate)
  {
    hide Remaining;
    RemainingSteps(n, 0, 0);
    CaseAt(n, 0, 0, k);
    CaseAt(n, 1, 0, k);
    SeriesAt(n, 0, 0);
    var second := Remaining(n, 1, 0);
    assert FlatPlan(n)[2 * n..][2 * k] == second[2 * k] && FlatPlan(n)[2 * n..][2 * k + 1] == second[2 * k + 1];
  }
}

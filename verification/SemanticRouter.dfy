/** Evaluating the semantic router: predictions, accuracy, the confusion matrix
    and the sweep over thresholds. */
module SemanticRouter {
  import opened Collections

  const TECHNICAL := "technical_query"

  const CHITCHAT := "chitchat"

  const ROUTES: seq<string> := [CHITCHAT, "capability", "how_to_use", "out_of_scope", TECHNICAL]

  /** A golden sentence with its scores, best first. */
  datatype Sample = Sample(expected: string, isRule: bool, scores: seq<(string, real)>)

  /** Rule, then semantic route if it is clear enough, else technical. */
  function Predict(s: Sample, threshold: real, margin: real): string {
    if s.isRule then CHITCHAT
    else if s.scores == [] then TECHNICAL
    else
      var second := if |s.scores| > 1 then s.scores[1].1 else 0.0;
      if s.scores[0].1 >= threshold && s.scores[0].1 - second >= margin then s.scores[0].0 else TECHNICAL
  }

  // ----- counting

  function IsRight(t: real, m: real): Sample -> bool { (s: Sample) => Predict(s, t, m) == s.expected }

  function RightFor(route: string, t: real, m: real): Sample -> bool {
    (s: Sample) => s.expected == route && Predict(s, t, m) == route
  }

  function Expects(route: string): Sample -> bool { (s: Sample) => s.expected == route }

  predicate AllListed(samples: seq<Sample>) {
    forall s :: s in samples ==> s.expected in ROUTES
  }

  /** Correct and total of a route. */
  datatype Recall = Recall(correct: nat, total: nat)

  datatype Accuracy = Accuracy(correct: nat, overall: real, macro: real, perRoute: map<string, Recall>)

  function RecallOf(samples: seq<Sample>, route: string, t: real, m: real): Recall {
    Recall(Count(RightFor(route, t, m), samples), Count(Expects(route), samples))
  }

  function Ratio(part: nat, whole: nat): real {
    if whole == 0 then 0.0 else part as real / whole as real
  }

  /** The sum of the recalls of the first `n` routes. */
  function MacroSum(samples: seq<Sample>, t: real, m: real, n: nat): real
    requires n <= |ROUTES|
  {
    if n == 0 then 0.0
    else
      var r := RecallOf(samples, ROUTES[n - 1], t, m);
      MacroSum(samples, t, m, n - 1) + Ratio(r.correct, r.total)
  }

  function AccuracyOf(samples: seq<Sample>, t: real, m: real): Accuracy {
    var correct := Count(IsRight(t, m), samples);
    Accuracy(correct, Ratio(correct, |samples|), MacroSum(samples, t, m, |ROUTES|) / |ROUTES| as real,
             map route | route in ROUTES :: RecallOf(samples, route, t, m))
  }

  /** The counters after a sample. */
  method CountSample(before: map<string, Recall>, s: Sample, right: bool) returns (per: map<string, Recall>)
    requires s.expected in before
    ensures per.Keys == before.Keys
    ensures forall r :: r in per ==>
              per[r] == if r == s.expected
                        then Recall(before[r].correct + (if right then 1 else 0), before[r].total + 1)
                        else before[r]
  {
    var old_ := before[s.expected];
    per := before[s.expected := Recall(old_.correct + (if right then 1 else 0), old_.total + 1)];
  }

  /** `accuracy_for`; `None` at an expected route that is not listed. */
  method AccuracyFor(samples: seq<Sample>, t: real, m: real) returns (r: Option<Accuracy>)
    ensures r == if AllListed(samples) then Some(AccuracyOf(samples, t, m)) else None
  {
    hide Predict, Count;
    var correct := 0;
    var per: map<string, Recall> := map route | route in ROUTES :: Recall(0, 0);
    CountEmpty(IsRight(t, m));
    forall route ensures RecallOf([], route, t, m) == Recall(0, 0) {
      CountEmpty(RightFor(route, t, m));
      CountEmpty(Expects(route));
    }
    assert samples[..0] == [];
    for i := 0 to |samples|
      invariant correct == Count(IsRight(t, m), samples[..i])
      invariant per.Keys == Elements(ROUTES) && AllListed(samples[..i])
      invariant forall route :: route in per ==> per[route] == RecallOf(samples[..i], route, t, m)
    {
      var s := samples[i];
      assert samples[..i + 1] == samples[..i] + [s];
      if s.expected !in per {
        assert s in samples;
        return None;
      }
      CountLast(IsRight(t, m), samples[..i], s);
      forall route ensures
        RecallOf(samples[..i + 1], route, t, m) ==
        Recall(RecallOf(samples[..i], route, t, m).correct + (if RightFor(route, t, m)(s) then 1 else 0),
               RecallOf(samples[..i], route, t, m).total + if s.expected == route then 1 else 0)
      {
        CountLast(RightFor(route, t, m), samples[..i], s);
        CountLast(Expects(route), samples[..i], s);
      }
      var right := Predict(s, t, m) == s.expected;
      per := CountSample(per, s, right);
      if right {
        correct := correct + 1;
      }
    }
    assert samples[..|samples|] == samples;
    var macro := 0.0;
    for n := 0 to |ROUTES|
      invariant macro == MacroSum(samples, t, m, n)
    {
      assert ROUTES[n] in ROUTES;
      macro := macro + Ratio(per[ROUTES[n]].correct, per[ROUTES[n]].total);
    }
    assert per == map route | route in ROUTES :: RecallOf(samples, route, t, m);
    r := Some(Accuracy(correct, Ratio(correct, |samples|), macro / |ROUTES| as real, per));
  }

  // ----- raising the threshold or the margin

  lemma CautiousPrediction(s: Sample, t: real, m: real, higher: real, wider: real)
    requires t <= higher && m <= wider
    ensures Predict(s, higher, wider) == Predict(s, t, m) || Predict(s, higher, wider) == TECHNICAL
  {
  }

  lemma {:induction false} CountImplies<T>(p: T -> bool, q: T -> bool, s: seq<T>)
    requires forall x :: x in s && p(x) ==> q(x)
    ensures Count(p, s) <= Count(q, s)
  {
    if |s| > 0 {
      assert s == s[..|s| - 1] + [s[|s| - 1]];
      CountImplies(p, q, s[..|s| - 1]);
    }
  }

  /** Raising the threshold or the margin never lowers technical recall and never
      raises that of another route. */
  lemma RecallMonotone(samples: seq<Sample>, route: string, t: real, m: real, higher: real, wider: real)
    requires t <= higher && m <= wider
    ensures RecallOf(samples, TECHNICAL, t, m).correct <= RecallOf(samples, TECHNICAL, higher, wider).correct
    ensures route != TECHNICAL ==>
              RecallOf(samples, route, higher, wider).correct <= RecallOf(samples, route, t, m).correct
  {
    hide Predict, Count;
    forall s ensures Predict(s, higher, wider) == Predict(s, t, m) || Predict(s, higher, wider) == TECHNICAL {
      CautiousPrediction(s, t, m, higher, wider);
    }
    CountImplies(RightFor(TECHNICAL, t, m), RightFor(TECHNICAL, higher, wider), samples);
    if route != TECHNICAL {
      CountImplies(RightFor(route, higher, wider), RightFor(route, t, m), samples);
    }
  }

  // ----- the confusion matrix

  /** The column of a prediction: an unlisted route counts as technical. */
  function Column(route: string): string {
    if route in ROUTES then route else TECHNICAL
  }

  function InCell(row: string, column: string, t: real, m: real): Sample -> bool {
    (s: Sample) => s.expected == row && Column(Predict(s, t, m)) == column
  }

  method IndexOf(route: string) returns (i: nat)
    requires route in ROUTES
    ensures i < |ROUTES| && ROUTES[i] == route
  {
    i := 0;
    while ROUTES[i] != route
      invariant i < |ROUTES| && exists j :: i <= j < |ROUTES| && ROUTES[j] == route
      decreases |ROUTES| - i
    {
      i := i + 1;
    }
  }

  lemma RoutesDistinct()
    ensures Distinct(ROUTES)
  {
    assert |CHITCHAT| == 8 && |"capability"| == 10 && |TECHNICAL| == 15;
    assert "how_to_use"[0] == 'h' && "capability"[0] == 'c';
    assert |"out_of_scope"| == 12;
  }

  /** The matrix loop. */
  method Confusion(samples: seq<Sample>, t: real, m: real) returns (cells: array2<nat>)
    requires AllListed(samples)
    ensures fresh(cells) && cells.Length0 == cells.Length1 == |ROUTES|
    ensures forall i, j :: 0 <= i < |ROUTES| && 0 <= j < |ROUTES| ==>
              cells[i, j] == Count(InCell(ROUTES[i], ROUTES[j], t, m), samples)
  {
    hide Predict, Count;
    RoutesDistinct();
    cells := new nat[|ROUTES|, |ROUTES|]((i, j) => 0);
    forall row, column ensures Count(InCell(row, column, t, m), []) == 0 {
      CountEmpty(InCell(row, column, t, m));
    }
    assert samples[..0] == [];
    for n := 0 to |samples|
      invariant forall i, j :: 0 <= i < |ROUTES| && 0 <= j < |ROUTES| ==>
        cells[i, j] == Count(InCell(ROUTES[i], ROUTES[j], t, m), samples[..n])
    {
      var s := samples[n];
      assert samples[..n + 1] == samples[..n] + [s] && s in samples;
      forall row, column ensures
        Count(InCell(row, column, t, m), samples[..n + 1]) ==
        Count(InCell(row, column, t, m), samples[..n]) + if InCell(row, column, t, m)(s) then 1 else 0
      {
        CountLast(InCell(row, column, t, m), samples[..n], s);
      }
      assert TECHNICAL == ROUTES[4];
      var row := IndexOf(s.expected);
      var column := IndexOf(Column(Predict(s, t, m)));
      cells[row, column] := cells[row, column] + 1;
    }
    assert samples[..|samples|] == samples;
  }

  /** The sum of the diagonal up to row `n`. */
  function Diagonal(samples: seq<Sample>, t: real, m: real, n: nat): nat
    requires n <= |ROUTES|
  {
    if n == 0 then 0
    else Diagonal(samples, t, m, n - 1) + Count(InCell(ROUTES[n - 1], ROUTES[n - 1], t, m), samples)
  }

  /** A technical sample that was predicted outside the listed routes. */
  function Misplaced(t: real, m: real): Sample -> bool {
    (s: Sample) => s.expected == TECHNICAL && Predict(s, t, m) !in ROUTES
  }

  function OnDiagonal(s: Sample, t: real, m: real, n: nat): nat
    requires n <= |ROUTES|
  {
    if n == 0 then 0
    else OnDiagonal(s, t, m, n - 1) + if InCell(ROUTES[n - 1], ROUTES[n - 1], t, m)(s) then 1 else 0
  }

  lemma {:induction false} DiagonalLast(samples: seq<Sample>, s: Sample, t: real, m: real, n: nat)
    requires n <= |ROUTES|
    ensures Diagonal(samples + [s], t, m, n) == Diagonal(samples, t, m, n) + OnDiagonal(s, t, m, n)
  {
    hide Count, Predict;
    if n > 0 {
      DiagonalLast(samples, s, t, m, n - 1);
      CountLast(InCell(ROUTES[n - 1], ROUTES[n - 1], t, m), samples, s);
    }
  }

  lemma {:induction false} DiagonalNone(t: real, m: real, n: nat)
    requires n <= |ROUTES|
    ensures Diagonal([], t, m, n) == 0
  {
    if n > 0 {
      DiagonalNone(t, m, n - 1);
      CountEmpty(InCell(ROUTES[n - 1], ROUTES[n - 1], t, m));
    }
  }

  lemma {:induction false} DiagonalOfSample(s: Sample, t: real, m: real, n: nat)
    requires n <= |ROUTES|
    ensures OnDiagonal(s, t, m, n) ==
            if Column(Predict(s, t, m)) == s.expected && s.expected in ROUTES[..n] then 1 else 0
  {
    hide Predict;
    RoutesDistinct();
    if n > 0 {
      DiagonalOfSample(s, t, m, n - 1);
      assert ROUTES[..n] == ROUTES[..n - 1] + [ROUTES[n - 1]];
    }
  }

  /** The diagonal holds the correct predictions and the misplaced technical ones. */
  lemma {:induction false} DiagonalCounts(samples: seq<Sample>, t: real, m: real)
    requires AllListed(samples)
    ensures Diagonal(samples, t, m, |ROUTES|) == Count(IsRight(t, m), samples) + Count(Misplaced(t, m), samples)
  {
    hide Predict, Count, Diagonal, OnDiagonal;
    if samples == [] {
      DiagonalNone(t, m, |ROUTES|);
      CountEmpty(IsRight(t, m));
      CountEmpty(Misplaced(t, m));
    } else {
      var front, s := samples[..|samples| - 1], samples[|samples| - 1];
      assert samples == front + [s] && s in samples;
      DiagonalCounts(front, t, m);
      DiagonalLast(front, s, t, m, |ROUTES|);
      CountLast(IsRight(t, m), front, s);
      CountLast(Misplaced(t, m), front, s);
      DiagonalOfSample(s, t, m, |ROUTES|);
      assert ROUTES[..|ROUTES|] == ROUTES;
    }
  }

  /** Scores are those of the router's own prototypes, one for each listed route. */
  predicate FromPrototypes(samples: seq<Sample>) {
    forall s :: s in samples ==> forall k :: 0 <= k < |s.scores| ==> s.scores[k].0 in ROUTES
  }

  lemma PredictedRouteListed(s: Sample, t: real, m: real)
    requires forall k :: 0 <= k < |s.scores| ==> s.scores[k].0 in ROUTES
    ensures Predict(s, t, m) in ROUTES
  {
    assert ROUTES[0] == CHITCHAT && ROUTES[4] == TECHNICAL;
  }

  /** At every threshold and margin, for all samples: the diagonal of the confusion
      matrix is the number of correct predictions. */
  lemma DiagonalIsCorrect(samples: seq<Sample>, t: real, m: real)
    requires AllListed(samples) && FromPrototypes(samples)
    ensures Diagonal(samples, t, m, |ROUTES|) == Count(IsRight(t, m), samples)
  {
    hide Predict, Count, Diagonal;
    forall s | s in samples ensures Predict(s, t, m) in ROUTES {
      PredictedRouteListed(s, t, m);
    }
    DiagonalExactly(samples, t, m);
  }

  /** For a router given other prototypes: the diagonal equals `correct` exactly
      when no technical sample is predicted outside the listed routes. */
  lemma DiagonalExactly(samples: seq<Sample>, t: real, m: real)
    requires AllListed(samples)
    ensures Diagonal(samples, t, m, |ROUTES|) == Count(IsRight(t, m), samples) <==>
            forall s :: s in samples && s.expected == TECHNICAL ==> Predict(s, t, m) in ROUTES
  {
    hide Predict, Count, Diagonal;
    DiagonalCounts(samples, t, m);
    CountZero(Misplaced(t, m), samples);
  }

  // ----- the sweep

  datatype Setting = Setting(macro: real, overall: real, threshold: real, margin: real)

  /** The order tuples sort by. */
  predicate AtMost(a: Setting, b: Setting) {
    || a.macro < b.macro
    || (a.macro == b.macro && (a.overall < b.overall ||
        (a.overall == b.overall && (a.threshold < b.threshold ||
         (a.threshold == b.threshold && a.margin <= b.margin)))))
  }

  function SettingOf(samples: seq<Sample>, t: real, m: real): Setting {
    var a := AccuracyOf(samples, t, m);
    Setting(a.macro, a.overall, t, m)
  }

  /** The sweep reports a best setting: none of the grid is ahead of it. */
  method Sweep(samples: seq<Sample>, thresholds: seq<real>, margins: seq<real>) returns (best: Option<Setting>)
    requires AllListed(samples)
    ensures best.None? <==> thresholds == [] || margins == []
    ensures best.Some? ==> exists t, m :: t in thresholds && m in margins && best.value == SettingOf(samples, t, m)
    ensures best.Some? ==>
              forall t, m :: t in thresholds && m in margins ==> AtMost(SettingOf(samples, t, m), best.value)
  {
    hide AccuracyOf;
    best := None;
    for i := 0 to |thresholds|
      invariant best.None? <==> i == 0 || margins == []
      invariant best.Some? ==> Attained(samples, thresholds[..i], margins, best.value)
      invariant best.Some? ==> Ahead(samples, thresholds[..i], margins, best.value)
    {
      var t := thresholds[i];
      assert thresholds[..i + 1] == thresholds[..i] + [t];
      for j := 0 to |margins|
        invariant best.None? <==> (i == 0 || margins == []) && j == 0
        invariant best.Some? ==> Attained(samples, thresholds[..i + 1], margins, best.value)
        invariant best.Some? ==> Ahead(samples, thresholds[..i], margins, best.value)
        invariant best.Some? ==> Ahead(samples, [t], margins[..j], best.value)
      {
        var m := margins[j];
        assert margins[..j + 1] == margins[..j] + [m];
        var accuracy := AccuracyFor(samples, t, m);
        var setting := Setting(accuracy.value.macro, accuracy.value.overall, t, m);
        assert setting == SettingOf(samples, t, m);
        if best.None? || !AtMost(setting, best.value) {
          AheadBy(samples, thresholds[..i], margins, best, setting);
          AheadBy(samples, [t], margins[..j], best, setting);
          best := Some(setting);
        }
      }
      assert margins[..|margins|] == margins;
    }
    assert thresholds[..|thresholds|] == thresholds;
  }

  ghost predicate Attained(samples: seq<Sample>, thresholds: seq<real>, margins: seq<real>, best: Setting) {
    exists t, m :: t in thresholds && m in margins && best == SettingOf(samples, t, m)
  }

  ghost predicate Ahead(samples: seq<Sample>, thresholds: seq<real>, margins: seq<real>, best: Setting) {
    forall t, m :: t in thresholds && m in margins ==> AtMost(SettingOf(samples, t, m), best)
  }

  lemma AheadBy(
    samples: seq<Sample>, thresholds: seq<real>, margins: seq<real>, best: Option<Setting>, setting: Setting)
    requires best.Some? ==> Ahead(samples, thresholds, margins, best.value) && !AtMost(setting, best.value)
    requires best.None? ==> thresholds == [] || margins == []
    ensures Ahead(samples, thresholds, margins, setting)
  {
    hide SettingOf;
  }
}

/** What the router evaluation reports, in terms of the scores of the samples. */
module RouterMeaning {
  import opened Collections
  import opened SemanticRouter

  // ----- one prediction

  /** By how much the best route is ahead of the second, or of nothing. */
  function Lead(scores: seq<(string, real)>): real
    requires scores != []
  {
    scores[0].1 - if |scores| == 1 then 0.0 else scores[1].1
  }

  /** The best route is good enough and far enough ahead. */
  predicate ClearlyBest(s: Sample, route: string, threshold: real, margin: real) {
    && s.scores != [] && s.scores[0].0 == route
    && threshold <= s.scores[0].1 && margin <= Lead(s.scores)
  }

  /** A sample the rule takes is chitchat; any other goes where it clearly belongs,
      and where nothing is clear it is technical. */
  lemma PredictedExactly(s: Sample, threshold: real, margin: real, route: string)
    ensures Predict(s, threshold, margin) == route <==>
            if s.isRule then route == "chitchat"
            else if exists best :: ClearlyBest(s, best, threshold, margin) then
              ClearlyBest(s, route, threshold, margin)
            else route == "technical_query"
  {
    assert s.scores != [] ==> (ClearlyBest(s, s.scores[0].0, threshold, margin) <==>
                               threshold <= s.scores[0].1 && margin <= Lead(s.scores));
  }

  // ----- the accuracy of a set of samples

  function Hits(a: Accuracy, route: string): nat { if route in a.perRoute then a.perRoute[route].correct else 0 }

  function Asked(a: Accuracy, route: string): nat { if route in a.perRoute then a.perRoute[route].total else 0 }

  /** `part` is the share of `hits` in `all`; of nothing, it is 0. */
  predicate IsShare(part: real, hits: nat, all: nat) {
    if all == 0 then part == 0.0 else part * all as real == hits as real
  }

  function ShareOf(a: Accuracy, route: string): real {
    if Asked(a, route) == 0 then 0.0 else Hits(a, route) as real / Asked(a, route) as real
  }

  /** A route is asked for if some sample expects it, and hit as often as that
      exactly if all of those samples are sent there. */
  ghost predicate RouteMeans(a: Accuracy, samples: seq<Sample>, t: real, m: real, route: string) {
    && Hits(a, route) <= Asked(a, route)
    && (Asked(a, route) > 0 <==> exists s :: s in samples && s.expected == route)
    && (Hits(a, route) == Asked(a, route) <==>
        forall s :: s in samples && s.expected == route ==> Predict(s, t, m) == route)
  }

  /** Every sample is asked for one route and hit for the same route; the overall
      accuracy is the share of hits, and the macro accuracy the mean of the five
      shares. */
  ghost predicate AccuracyMeans(a: Accuracy, samples: seq<Sample>, t: real, m: real) {
    && a.correct == Hits(a, "chitchat") + Hits(a, "capability") + Hits(a, "how_to_use") +
                    Hits(a, "out_of_scope") + Hits(a, "technical_query")
    && |samples| == Asked(a, "chitchat") + Asked(a, "capability") + Asked(a, "how_to_use") +
                    Asked(a, "out_of_scope") + Asked(a, "technical_query")
    && IsShare(a.overall, a.correct, |samples|)
    && 5.0 * a.macro == ShareOf(a, "chitchat") + ShareOf(a, "capability") + ShareOf(a, "how_to_use") +
                        ShareOf(a, "out_of_scope") + ShareOf(a, "technical_query")
    && (forall route :: route in a.perRoute ==> RouteMeans(a, samples, t, m, route))
    && (a.correct == |samples| <==> forall s :: s in samples ==> Predict(s, t, m) == s.expected)
  }

  lemma FiveRoutes(route: string)
    ensures route in ROUTES <==>
            route in {"chitchat", "capability", "how_to_use", "out_of_scope", "technical_query"}
    ensures Distinct(["chitchat", "capability", "how_to_use", "out_of_scope", "technical_query"])
  {
    RoutesDistinct();
    assert ROUTES[0] == "chitchat" && ROUTES[1] == "capability" && ROUTES[2] == "how_to_use";
    assert ROUTES[3] == "out_of_scope" && ROUTES[4] == "technical_query";
    assert ROUTES == ["chitchat", "capability", "how_to_use", "out_of_scope", "technical_query"];
  }

  /** The counters of the five routes. */
  function Five(f: string -> nat): nat {
    f("chitchat") + f("capability") + f("how_to_use") + f("out_of_scope") + f("technical_query")
  }

  function HitsOf(samples: seq<Sample>, t: real, m: real): string -> nat {
    (route: string) => Count(RightFor(route, t, m), samples)
  }

  function AskedOf(samples: seq<Sample>): string -> nat { (route: string) => Count(Expects(route), samples) }

  lemma FiveLast(f: string -> nat, g: string -> nat, expected: string, more: nat)
    requires expected in ROUTES && forall route :: g(route) == f(route) + if route == expected then more else 0
    ensures Five(g) == Five(f) + more
  {
    FiveRoutes(expected);
    var routes := ["chitchat", "capability", "how_to_use", "out_of_scope", "technical_query"];
    assert routes[0] != routes[1] && routes[0] != routes[2] && routes[0] != routes[3] && routes[0] != routes[4];
    assert routes[1] != routes[2] && routes[1] != routes[3] && routes[1] != routes[4];
    assert routes[2] != routes[3] && routes[2] != routes[4] && routes[3] != routes[4];
  }

  lemma {:induction false} CountedByRoute(samples: seq<Sample>, t: real, m: real)
    requires AllListed(samples)
    ensures Five(HitsOf(samples, t, m)) == Count(IsRight(t, m), samples)
    ensures Five(AskedOf(samples)) == |samples|
  {
    hide Count, Predict;
    if samples == [] {
      CountEmpty(IsRight(t, m));
      forall route ensures HitsOf([], t, m)(route) == 0 && AskedOf([])(route) == 0 {
        CountEmpty(RightFor(route, t, m));
        CountEmpty(Expects(route));
      }
    } else {
      var front, last := samples[..|samples| - 1], samples[|samples| - 1];
      assert samples == front + [last] && last in samples;
      CountedByRoute(front, t, m);
      CountLast(IsRight(t, m), front, last);
      forall route
        ensures HitsOf(samples, t, m)(route) ==
                HitsOf(front, t, m)(route) + if route == last.expected then RightIn(last, t, m) else 0
        ensures AskedOf(samples)(route) == AskedOf(front)(route) + if route == last.expected then 1 else 0
      {
        CountLast(RightFor(route, t, m), front, last);
        CountLast(Expects(route), front, last);
      }
      FiveLast(HitsOf(front, t, m), HitsOf(samples, t, m), last.expected, RightIn(last, t, m));
      FiveLast(AskedOf(front), AskedOf(samples), last.expected, 1);
    }
  }

  function RightIn(s: Sample, t: real, m: real): nat { if Predict(s, t, m) == s.expected then 1 else 0 }

  lemma RoutesSummed(samples: seq<Sample>, t: real, m: real)
    ensures var a := AccuracyOf(samples, t, m);
            && (forall route :: route in ROUTES ==> Hits(a, route) == HitsOf(samples, t, m)(route) &&
                                                    Asked(a, route) == AskedOf(samples)(route))
            && 5.0 * a.macro == ShareOf(a, "chitchat") + ShareOf(a, "capability") + ShareOf(a, "how_to_use") +
                                ShareOf(a, "out_of_scope") + ShareOf(a, "technical_query")
  {
    hide Count, Predict;
    var a := AccuracyOf(samples, t, m);
    assert ROUTES[0] == "chitchat" && ROUTES[1] == "capability" && ROUTES[2] == "how_to_use";
    assert ROUTES[3] == "out_of_scope" && ROUTES[4] == "technical_query";
    forall n | 0 <= n < 5 ensures MacroSum(samples, t, m, n + 1) == MacroSum(samples, t, m, n) + ShareOf(a, ROUTES[n]) {
      assert ROUTES[n] in ROUTES;
    }
    assert MacroSum(samples, t, m, 0) == 0.0;
    assert MacroSum(samples, t, m, 5) == 5.0 * a.macro;
  }

  lemma SharesMultiply(hits: nat, all: nat)
    ensures IsShare(Ratio(hits, all), hits, all)
  {
  }

  lemma RouteCounted(samples: seq<Sample>, t: real, m: real, route: string)
    requires route in ROUTES
    ensures RouteMeans(AccuracyOf(samples, t, m), samples, t, m, route)
  {
    hide Predict, Count;
    RoutesSummed(samples, t, m);
    CountWithin(RightFor(route, t, m), Expects(route), samples);
    CountZero(Expects(route), samples);
  }

  lemma EvaluatedExactly(samples: seq<Sample>, t: real, m: real)
    requires AllListed(samples)
    ensures AccuracyMeans(AccuracyOf(samples, t, m), samples, t, m)
  {
    hide Count, Predict, MacroSum, ShareOf, Ratio, IsShare, RecallOf, RouteMeans;
    var a := AccuracyOf(samples, t, m);
    CountedByRoute(samples, t, m);
    RoutesSummed(samples, t, m);
    SharesMultiply(a.correct, |samples|);
    forall route ensures route in a.perRoute <==> route in ROUTES {
      FiveRoutes(route);
    }
    forall route | route in ROUTES ensures RouteMeans(a, samples, t, m, route) {
      RouteCounted(samples, t, m, route);
    }
    FiveRoutes("chitchat");
    FiveRoutes("capability");
    FiveRoutes("how_to_use");
    FiveRoutes("out_of_scope");
    FiveRoutes("technical_query");
    AllRight(samples, t, m);
  }

  lemma {:induction false} AllRight(samples: seq<Sample>, t: real, m: real)
    ensures Count(IsRight(t, m), samples) <= |samples|
    ensures Count(IsRight(t, m), samples) == |samples| <==>
            forall s :: s in samples ==> Predict(s, t, m) == s.expected
  {
    hide Count, Predict;
    if samples == [] {
      CountEmpty(IsRight(t, m));
    } else {
      var front, last := samples[..|samples| - 1], samples[|samples| - 1];
      assert samples == front + [last];
      AllRight(front, t, m);
      CountLast(IsRight(t, m), front, last);
    }
  }
}

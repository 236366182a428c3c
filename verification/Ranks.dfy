/** The three nearest-rank percentile codes of the evaluation scripts.

    A percentile is an exact fraction `num/den`. The codes differ in how they
    round `n * num/den` up to a rank: one takes the ceiling, the other two add
    0.999999 and truncate. */
module Ranks {
  import opened Collections

  datatype Percentile = Percentile(num: nat, den: nat)

  const P50 := Percentile(1, 2)
  const P95 := Percentile(19, 20)

  /** Fractions fine enough for 0.999999 to act as a ceiling. */
  predicate Proper(p: Percentile) {
    0 < p.num <= p.den <= 1_000_000
  }

  // ----- exact division

  lemma Cancel(x: real, y: real)
    requires y != 0.0
    ensures x / y * y == x
  {
  }

  lemma Scale(a: real, b: real, y: real)
    requires y > 0.0
    ensures a <= b <==> a * y <= b * y
  {
    assert (b - a) * y == b * y - a * y;
  }

  lemma DivideOrder(a: real, b: real, y: real)
    requires y > 0.0
    ensures a <= b <==> a / y <= b / y
    ensures a == b <==> a / y == b / y
  {
    Cancel(a, y);
    Cancel(b, y);
    Scale(a / y, b / y, y);
    Scale(b / y, a / y, y);
  }

  predicate IsSorted(s: seq<int>) {
    forall i, j :: 0 <= i < j < |s| ==> s[i] <= s[j]
  }

  function Insert(x: int, s: seq<int>): seq<int> {
    if |s| == 0 || s[|s| - 1] <= x then s + [x]
    else Insert(x, s[..|s| - 1]) + [s[|s| - 1]]
  }

  /** Python's `sorted` on numbers. */
  function Sorted(s: seq<int>): seq<int> {
    if |s| == 0 then [] else Insert(s[|s| - 1], Sorted(s[..|s| - 1]))
  }

  lemma {:induction false} InsertPermutes(x: int, s: seq<int>)
    ensures multiset(Insert(x, s)) == multiset(s) + multiset{x}
  {
    if |s| == 0 || s[|s| - 1] <= x {
    } else {
      assert s == s[..|s| - 1] + [s[|s| - 1]];
      InsertPermutes(x, s[..|s| - 1]);
    }
  }

  lemma {:induction false} InsertKeepsSorted(x: int, s: seq<int>)
    requires IsSorted(s)
    ensures IsSorted(Insert(x, s))
  {
    if |s| == 0 || s[|s| - 1] <= x {
    } else {
      var front, last := s[..|s| - 1], s[|s| - 1];
      InsertKeepsSorted(x, front);
      InsertPermutes(x, front);
      var t := Insert(x, front);
      forall i | 0 <= i < |t| ensures t[i] <= last {
        assert t[i] in multiset(t);
        assert t[i] in front || t[i] == x;
      }
    }
  }

  lemma {:induction false} SortedSorts(s: seq<int>)
    ensures IsSorted(Sorted(s))
    ensures multiset(Sorted(s)) == multiset(s)
    ensures |Sorted(s)| == |s|
  {
    if |s| > 0 {
      assert s == s[..|s| - 1] + [s[|s| - 1]];
      SortedSorts(s[..|s| - 1]);
      InsertKeepsSorted(s[|s| - 1], Sorted(s[..|s| - 1]));
      InsertPermutes(s[|s| - 1], Sorted(s[..|s| - 1]));
    }
    assert |multiset(Sorted(s))| == |Sorted(s)|;
    assert |multiset(s)| == |s|;
  }

  lemma LastIsGreatest(a: seq<int>, x: int)
    requires IsSorted(a) && x in multiset(a)
    ensures a != [] && x <= a[|a| - 1] && a[|a| - 1] in multiset(a)
    ensures multiset(a) == multiset(a[..|a| - 1]) + multiset{a[|a| - 1]}
  {
    assert x in a;
    assert a == a[..|a| - 1] + [a[|a| - 1]];
  }

  lemma SortedFronts(a: seq<int>, b: seq<int>)
    requires IsSorted(a) && IsSorted(b) && multiset(a) == multiset(b) && a != []
    ensures b != [] && a[|a| - 1] == b[|b| - 1]
    ensures multiset(a[..|a| - 1]) == multiset(b[..|b| - 1])
  {
    LastIsGreatest(a, a[0]);
    LastIsGreatest(b, a[|a| - 1]);
    LastIsGreatest(a, b[|b| - 1]);
    CancelOne(multiset(a[..|a| - 1]), multiset(b[..|b| - 1]), a[|a| - 1]);
  }

  lemma {:induction false} SortedArrangementUnique(a: seq<int>, b: seq<int>)
    requires IsSorted(a) && IsSorted(b) && multiset(a) == multiset(b)
    ensures a == b
    decreases |a|
  {
    if a == [] {
      assert |multiset(b)| == |b|;
    } else {
      SortedFronts(a, b);
      SortedArrangementUnique(a[..|a| - 1], b[..|b| - 1]);
      assert a == a[..|a| - 1] + [a[|a| - 1]];
      assert b == b[..|b| - 1] + [b[|b| - 1]];
    }
  }

  lemma SortedPermuted(a: seq<int>, b: seq<int>)
    requires multiset(a) == multiset(b)
    ensures Sorted(a) == Sorted(b)
  {
    SortedSorts(a);
    SortedSorts(b);
    SortedArrangementUnique(Sorted(a), Sorted(b));
  }

  // ----- the rank of a percentile among n values

  /** `math.ceil(n * p)`. */
  function CeilRank(n: nat, p: Percentile): nat
    requires p.den > 0
  {
    (n * p.num + p.den - 1) / p.den
  }

  /** `int(n * p + 0.999999)`. */
  function TruncatedRank(n: nat, p: Percentile): nat
    requires p.den > 0
  {
    (n * p.num * 1_000_000 + 999_999 * p.den) / (p.den * 1_000_000)
  }

  lemma ScaleOrder(d: nat, x: int, y: int)
    ensures x <= y ==> d * x <= d * y
    ensures d * x < d * y ==> x < y
  {
  }

  lemma DivideByRemainder(a: int, d: nat, q: int, r: int)
    requires d > 0 && a == d * q + r && 0 <= r < d
    ensures a / d == q
  {
    assert d * (a / d) + a % d == a;
    ScaleOrder(d, q + 1, a / d);
    ScaleOrder(d, a / d, q - 1);
    assert d * (q + 1) == d * q + d;
    assert d * (q - 1) == d * q - d;
  }

  /** Adding 0.999999 and truncating is the ceiling, for every count. */
  lemma RanksAgree(n: nat, p: Percentile)
    requires Proper(p)
    ensures TruncatedRank(n, p) == CeilRank(n, p)
  {
    var m := 1_000_000;
    var a, d := n * p.num, p.den;
    var q, r := a / d, a % d;
    assert a == d * q + r;
    assert a * m + (m - 1) * d == (d * m) * q + (r * m + (m - 1) * d) by {
      assert a * m == (d * q) * m + r * m;
      assert (d * q) * m == (d * m) * q;
    }
    if r == 0 {
      DivideByRemainder(a * m + (m - 1) * d, d * m, q, (m - 1) * d);
      DivideByRemainder(a + d - 1, d, q, d - 1);
    } else {
      ScaleOrder(m, r, d - 1);
      assert (d * m) * (q + 1) == (d * m) * q + d * m;
      DivideByRemainder(a * m + (m - 1) * d, d * m, q + 1, r * m - d);
      assert d * (q + 1) == d * q + d;
      DivideByRemainder(a + d - 1, d, q + 1, r - 1);
    }
  }

  lemma CeilRankBounds(n: nat, p: Percentile)
    requires Proper(p) && n > 0
    ensures 1 <= CeilRank(n, p) <= n
    ensures p.den * (CeilRank(n, p) - 1) < n * p.num <= p.den * CeilRank(n, p)
  {
    var a, d := n * p.num, p.den;
    var k := CeilRank(n, p);
    assert d * k + (a + d - 1) % d == a + d - 1;
    ScaleOrder(n, p.num, p.den);
    ScaleOrder(n, 1, p.num);
    ScaleOrder(d, n + 1, k);
    ScaleOrder(d, k, 0);
    assert d * (n + 1) == d * n + d;
    assert d * (k - 1) == d * k - d;
  }

  /** Dividing a bound by a smaller fraction keeps it. */
  lemma SmallerFraction(n: nat, k: nat, p: Percentile, q: Percentile)
    requires Proper(p) && Proper(q) && p.num * q.den <= q.num * p.den
    requires n * q.num <= q.den * k
    ensures n * p.num <= p.den * k
  {
    var left, right := n * p.num, p.den * k;
    ScaleOrder(n, p.num * q.den, q.num * p.den);
    ScaleOrder(p.den, n * q.num, q.den * k);
    Exchange(n, p.num, q.den);
    Exchange(n, q.num, p.den);
    Exchange(q.den, p.den, k);
    assert q.den * left <= q.den * right;
    ScaleOrder(q.den, right + 1, left);
    assert q.den * (right + 1) == q.den * right + q.den;
  }

  lemma Exchange(a: int, b: int, c: int)
    ensures a * (b * c) == c * (a * b) == b * (a * c)
  {
  }

  lemma CeilRankMonotone(n: nat, p: Percentile, q: Percentile)
    requires Proper(p) && Proper(q) && n > 0
    requires p.num * q.den <= q.num * p.den
    ensures CeilRank(n, p) <= CeilRank(n, q)
  {
    CeilRankBounds(n, p);
    CeilRankBounds(n, q);
    SmallerFraction(n, CeilRank(n, q), p, q);
    ScaleOrder(p.den, CeilRank(n, p) - 1, CeilRank(n, q));
  }

  // ----- the three percentile codes

  /** The code of the diagnostic aggregation; it raises on an empty list. */
  function NearestRank(values: seq<int>, p: Percentile): int
    requires |values| > 0 && p.den > 0
  {
    SortedSorts(values);
    var ordered := Sorted(values);
    var rank := Max(1, CeilRank(|ordered|, p));
    ordered[(if rank <= |ordered| then rank else |ordered|) - 1]
  }

  /** The code of the latency breakdown. */
  function BreakdownRank(values: seq<int>, p: Percentile): Option<int>
    requires p.den > 0
  {
    if |values| == 0 then None
    else
      SortedSorts(values);
      var ordered := Sorted(values);
      var rank := Max(1, TruncatedRank(|ordered|, p));
      Some(ordered[(if rank <= |ordered| then rank else |ordered|) - 1])
  }

  /** The shared metric helper used by the trace snapshot. */
  function MetricRank(values: seq<int>, p: Percentile): Option<int>
    requires p.den > 0
  {
    SortedSorts(values);
    var ordered := Sorted(values);
    if |ordered| == 0 then None
    else
      var index := Max(0, TruncatedRank(|ordered|, p) - 1);
      Some(ordered[if index < |ordered| - 1 then index else |ordered| - 1])
  }

  lemma NearestRankCodesAgree(values: seq<int>, p: Percentile)
    requires Proper(p)
    ensures BreakdownRank(values, p) == MetricRank(values, p)
    ensures values != [] ==> BreakdownRank(values, p) == Some(NearestRank(values, p))
    ensures values == [] ==> BreakdownRank(values, p) == None
  {
    SortedSorts(values);
    RanksAgree(|values|, p);
  }

  lemma NearestRankPermuted(a: seq<int>, b: seq<int>, p: Percentile)
    requires Proper(p) && multiset(a) == multiset(b)
    ensures |a| == |b|
    ensures a != [] ==> NearestRank(a, p) == NearestRank(b, p)
    ensures BreakdownRank(a, p) == BreakdownRank(b, p)
  {
    assert |multiset(a)| == |a| && |multiset(b)| == |b|;
    SortedPermuted(a, b);
  }

  /** How many of the values are at most `bound`. */
  function CountUpTo(s: seq<int>, bound: int): nat {
    if |s| == 0 then 0
    else CountUpTo(s[..|s| - 1], bound) + if s[|s| - 1] <= bound then 1 else 0
  }

  lemma {:induction false} CountInsert(x: int, s: seq<int>, bound: int)
    ensures CountUpTo(Insert(x, s), bound) == CountUpTo(s, bound) + if x <= bound then 1 else 0
  {
    if |s| == 0 || s[|s| - 1] <= x {
      assert (s + [x])[..|s|] == s;
    } else {
      var front, last := s[..|s| - 1], s[|s| - 1];
      CountInsert(x, front, bound);
      assert (Insert(x, front) + [last])[..|Insert(x, front)|] == Insert(x, front);
    }
  }

  lemma {:induction false} CountSorted(s: seq<int>, bound: int)
    ensures CountUpTo(Sorted(s), bound) == CountUpTo(s, bound)
  {
    if |s| > 0 {
      CountSorted(s[..|s| - 1], bound);
      CountInsert(s[|s| - 1], Sorted(s[..|s| - 1]), bound);
    }
  }

  lemma {:induction false} CountAtMostLength(s: seq<int>, bound: int)
    ensures CountUpTo(s, bound) <= |s|
  {
    if |s| > 0 {
      CountAtMostLength(s[..|s| - 1], bound);
    }
  }

  /** In a sorted list the values up to `bound` are an initial segment. */
  lemma {:induction false} CountInSorted(s: seq<int>, k: nat, bound: int)
    requires IsSorted(s) && k <= |s|
    ensures (k > 0 && s[k - 1] <= bound) ==> CountUpTo(s, bound) >= k
    ensures (k < |s| && bound < s[k]) ==> CountUpTo(s, bound) <= k
  {
    CountAtMostLength(s, bound);
    if k < |s| {
      CountAtMostLength(s[..|s| - 1], bound);
      CountInSorted(s[..|s| - 1], k, bound);
    } else if k > 0 {
      CountInSorted(s[..|s| - 1], k - 1, bound);
    }
  }

  /** The chosen element, and how many values lie at or below a bound relative to it. */
  lemma RankInSorted(values: seq<int>, p: Percentile, bound: int)
    requires Proper(p) && values != []
    ensures NearestRank(values, p) in values && 1 <= CeilRank(|values|, p)
    ensures bound >= NearestRank(values, p) ==> CountUpTo(values, bound) >= CeilRank(|values|, p)
    ensures bound < NearestRank(values, p) ==> CountUpTo(values, bound) < CeilRank(|values|, p)
  {
    SortedSorts(values);
    CeilRankBounds(|values|, p);
    var s, rank := Sorted(values), CeilRank(|values|, p);
    assert s[rank - 1] in multiset(s);
    assert s[rank - 1] in multiset(values);
    CountSorted(values, bound);
    CountInSorted(s, rank, bound);
    CountInSorted(s, rank - 1, bound);
  }

  /** The nearest rank is the least listed value with at least the fraction
      `p` of all values at or below it. */
  lemma NearestRankIsLeast(values: seq<int>, p: Percentile)
    requires Proper(p) && values != []
    ensures NearestRank(values, p) in values
    ensures p.num * |values| <= p.den * CountUpTo(values, NearestRank(values, p))
    ensures forall w :: w < NearestRank(values, p) ==>
              p.den * CountUpTo(values, w) < p.num * |values|
  {
    hide Sorted, CountUpTo, CeilRank, NearestRank;
    var rank := CeilRank(|values|, p);
    CeilRankBounds(|values|, p);
    RankInSorted(values, p, NearestRank(values, p));
    ScaleOrder(p.den, rank, CountUpTo(values, NearestRank(values, p)));
    forall w | w < NearestRank(values, p) ensures p.den * CountUpTo(values, w) < p.num * |values| {
      RankInSorted(values, p, w);
      ScaleOrder(p.den, CountUpTo(values, w), rank - 1);
    }
  }

  /** p50 <= p95 <= max. */
  lemma PercentilesOrdered(values: seq<int>, p: Percentile, q: Percentile)
    requires Proper(p) && Proper(q) && p.num * q.den <= q.num * p.den && values != []
    ensures NearestRank(values, p) <= NearestRank(values, q)
    ensures forall x :: x in values && (forall y :: y in values ==> y <= x) ==> NearestRank(values, q) <= x
  {
    SortedSorts(values);
    CeilRankBounds(|values|, p);
    CeilRankBounds(|values|, q);
    CeilRankMonotone(|values|, p, q);
    NearestRankIsLeast(values, q);
  }
}

/** Sequence and multiset helpers shared by the models.

    Folds are defined on the last element, so that a loop that has processed
    `s[..i]` extends its result to `s[..i+1]` by unfolding the definition once. */
module Collections {

  datatype Option<+T> = None | Some(value: T)

  datatype Result<+T, +E> = Ok(value: T) | Err(error: E)

  function Max(a: int, b: int): int {
    if a < b then b else a
  }

  /** The values `f` extracts from `s`, in order. */
  function FilterMap<T, U>(f: T -> Option<U>, s: seq<T>): seq<U> {
    if |s| == 0 then []
    else
      FilterMap(f, s[..|s| - 1]) +
      match f(s[|s| - 1])
      case None => []
      case Some(v) => [v]
  }

  lemma FilterMapEmpty<T, U>(f: T -> Option<U>)
    ensures FilterMap(f, []) == []
  {
  }

  lemma FilterMapLast<T, U>(f: T -> Option<U>, s: seq<T>, x: T)
    ensures FilterMap(f, s + [x]) ==
            FilterMap(f, s) + match f(x) case None => [] case Some(v) => [v]
  {
    assert (s + [x])[..|s|] == s;
  }

  lemma {:induction false} FilterMapConcat<T, U>(f: T -> Option<U>, a: seq<T>, b: seq<T>)
    ensures FilterMap(f, a + b) == FilterMap(f, a) + FilterMap(f, b)
    decreases |b|
  {
    if |b| == 0 {
      assert a + b == a;
    } else {
      FilterMapConcat(f, a, b[..|b| - 1]);
      assert (a + b)[..|a + b| - 1] == a + b[..|b| - 1];
    }
  }

  lemma {:induction false} FilterMapMember<T, U>(f: T -> Option<U>, s: seq<T>, v: U)
    ensures v in FilterMap(f, s) <==> exists x :: x in s && f(x) == Some(v)
  {
    if |s| > 0 {
      var front, last := s[..|s| - 1], s[|s| - 1];
      assert s == front + [last];
      FilterMapMember(f, front, v);
      assert forall x :: x in s <==> x in front || x == last;
    }
  }

  lemma {:induction false} FilterMapCongruent<T, U>(f: T -> Option<U>, g: T -> Option<U>, s: seq<T>)
    requires forall x :: x in s ==> f(x) == g(x)
    ensures FilterMap(f, s) == FilterMap(g, s)
  {
    if |s| > 0 {
      assert forall x :: x in s[..|s| - 1] ==> x in s;
      FilterMapCongruent(f, g, s[..|s| - 1]);
    }
  }

  lemma {:induction false} FilterMapTotal<T, U>(f: T -> Option<U>, s: seq<T>)
    requires forall x :: x in s ==> f(x).Some?
    ensures |FilterMap(f, s)| == |s|
    ensures forall k :: 0 <= k < |s| ==> f(s[k]) == Some(FilterMap(f, s)[k])
  {
    if |s| > 0 {
      var front := s[..|s| - 1];
      FilterMapTotal(f, front);
      assert forall k :: 0 <= k < |front| ==> front[k] == s[k];
    }
  }

  /** Two arrangements of the same elements yield the same values, rearranged. */
  lemma {:induction false} FilterMapPermuted<T, U>(f: T -> Option<U>, a: seq<T>, b: seq<T>)
    requires multiset(a) == multiset(b)
    ensures multiset(FilterMap(f, a)) == multiset(FilterMap(f, b))
    decreases |a|
  {
    assert |a| == |multiset(a)| == |multiset(b)| == |b|;
    if |a| > 0 {
      var x := a[|a| - 1];
      assert a[..|a| - 1] + [x] == a;
      var i := TakeOut(a[..|a| - 1], b, x);
      var rest := b[..i] + b[i + 1..];
      assert b == b[..i] + [x] + b[i + 1..];
      FilterMapPermuted(f, a[..|a| - 1], rest);
      FilterMapConcat(f, b[..i] + [x], b[i + 1..]);
      FilterMapConcat(f, b[..i], [x]);
      FilterMapConcat(f, b[..i], b[i + 1..]);
      FilterMapConcat(f, a[..|a| - 1], [x]);
    }
  }

  /** How many elements of `s` satisfy `p`. */
  function Count<T>(p: T -> bool, s: seq<T>): nat {
    if |s| == 0 then 0
    else Count(p, s[..|s| - 1]) + if p(s[|s| - 1]) then 1 else 0
  }

  lemma CountEmpty<T>(p: T -> bool)
    ensures Count(p, []) == 0
  {
  }

  lemma CountLast<T>(p: T -> bool, s: seq<T>, x: T)
    ensures Count(p, s + [x]) == Count(p, s) + if p(x) then 1 else 0
  {
    assert (s + [x])[..|s|] == s;
  }

  lemma {:induction false} CountConcat<T>(p: T -> bool, a: seq<T>, b: seq<T>)
    ensures Count(p, a + b) == Count(p, a) + Count(p, b)
    decreases |b|
  {
    if |b| == 0 {
      assert a + b == a;
    } else {
      CountConcat(p, a, b[..|b| - 1]);
      assert (a + b)[..|a + b| - 1] == a + b[..|b| - 1];
    }
  }

  lemma {:induction false} CountZero<T>(p: T -> bool, s: seq<T>)
    ensures Count(p, s) == 0 <==> forall x :: x in s ==> !p(x)
  {
    if |s| > 0 {
      assert s == s[..|s| - 1] + [s[|s| - 1]];
      CountZero(p, s[..|s| - 1]);
    }
  }

  /** A predicate counts no more than one it implies, and as much exactly when the
      two agree on the list. */
  lemma {:induction false} CountWithin<T>(p: T -> bool, q: T -> bool, s: seq<T>)
    requires forall x :: x in s && p(x) ==> q(x)
    ensures Count(p, s) <= Count(q, s)
    ensures Count(p, s) == Count(q, s) <==> forall x :: x in s && q(x) ==> p(x)
  {
    if |s| > 0 {
      assert s == s[..|s| - 1] + [s[|s| - 1]];
      CountWithin(p, q, s[..|s| - 1]);
    }
  }

  lemma {:induction false} CountCongruent<T>(p: T -> bool, q: T -> bool, s: seq<T>)
    requires forall x :: x in s ==> p(x) == q(x)
    ensures Count(p, s) == Count(q, s)
  {
    CountWithin(p, q, s);
  }

  /** As many values are extracted as elements yield one. */
  lemma {:induction false} FilterMapCounted<T, U>(f: T -> Option<U>, p: T -> bool, s: seq<T>)
    requires forall x :: x in s ==> (f(x).Some? <==> p(x))
    ensures |FilterMap(f, s)| == Count(p, s)
  {
    if |s| > 0 {
      assert s[|s| - 1] in s && forall x :: x in s[..|s| - 1] ==> x in s;
      FilterMapCounted(f, p, s[..|s| - 1]);
    }
  }

  /** A value is extracted as often as elements yield it. */
  lemma {:induction false} MultiplicityCounted<T, U>(f: T -> Option<U>, p: T -> bool, s: seq<T>, v: U)
    requires forall x :: x in s ==> (f(x) == Some(v) <==> p(x))
    ensures multiset(FilterMap(f, s))[v] == Count(p, s)
  {
    if |s| > 0 {
      assert s[|s| - 1] in s && forall x :: x in s[..|s| - 1] ==> x in s;
      MultiplicityCounted(f, p, s[..|s| - 1], v);
    }
  }

  lemma FilterMapOfTwo<T, U>(f: T -> Option<U>, a: T, b: T)
    ensures FilterMap(f, [a, b]) ==
            (match f(a) case None => [] case Some(v) => [v]) + match f(b) case None => [] case Some(v) => [v]
  {
    FilterMapLast(f, [], a);
    FilterMapLast(f, [a], b);
    assert [] + [a] == [a] && [a] + [b] == [a, b];
  }

  lemma CountOfTwo<T>(p: T -> bool, a: T, b: T)
    ensures Count(p, [a, b]) == (if p(a) then 1 else 0) + if p(b) then 1 else 0
  {
    CountLast(p, [], a);
    CountLast(p, [a], b);
    assert [] + [a] == [a] && [a] + [b] == [a, b];
  }

  function Sum(s: seq<int>): int {
    if |s| == 0 then 0 else Sum(s[..|s| - 1]) + s[|s| - 1]
  }

  lemma SumLast(s: seq<int>, x: int)
    ensures Sum(s + [x]) == Sum(s) + x
  {
    assert (s + [x])[..|s|] == s;
  }

  lemma {:induction false} SumConcat(a: seq<int>, b: seq<int>)
    ensures Sum(a + b) == Sum(a) + Sum(b)
    decreases |b|
  {
    if |b| == 0 {
      assert a + b == a;
    } else {
      SumConcat(a, b[..|b| - 1]);
      assert (a + b)[..|a + b| - 1] == a + b[..|b| - 1];
    }
  }

  lemma {:induction false} SumPermuted(a: seq<int>, b: seq<int>)
    requires multiset(a) == multiset(b)
    ensures Sum(a) == Sum(b)
    decreases |a|
  {
    assert |a| == |multiset(a)| == |multiset(b)| == |b|;
    if |a| > 0 {
      var x := a[|a| - 1];
      assert a[..|a| - 1] + [x] == a;
      var i := TakeOut(a[..|a| - 1], b, x);
      SumPermuted(a[..|a| - 1], b[..i] + b[i + 1..]);
      assert b == b[..i] + [x] + b[i + 1..];
      SumConcat(b[..i] + [x], b[i + 1..]);
      SumConcat(b[..i], b[i + 1..]);
      SumLast(b[..i], x);
    }
  }

  function Largest(values: seq<int>): int
    requires values != []
  {
    if |values| == 1 then values[0] else Max(Largest(values[..|values| - 1]), values[|values| - 1])
  }

  lemma LargestLast(values: seq<int>, v: int)
    ensures Largest(values + [v]) == if values == [] then v else Max(Largest(values), v)
  {
    assert (values + [v])[..|values|] == values;
  }

  lemma {:induction false} LargestIsMember(values: seq<int>)
    requires values != []
    ensures Largest(values) in values
    ensures forall v :: v in values ==> v <= Largest(values)
  {
    if |values| > 1 {
      var front, last := values[..|values| - 1], values[|values| - 1];
      LargestIsMember(front);
      assert values == front + [last];
    }
  }

  lemma LargestPermuted(a: seq<int>, b: seq<int>)
    requires multiset(a) == multiset(b) && a != [] && b != []
    ensures Largest(a) == Largest(b)
  {
    LargestIsMember(a);
    LargestIsMember(b);
    assert Largest(a) in multiset(b) && Largest(b) in multiset(a);
    assert Largest(a) in b && Largest(b) in a;
  }

  /** Finds `x` in `b` so that removing it leaves a rearrangement of `front`. */
  lemma TakeOut<T>(front: seq<T>, b: seq<T>, x: T) returns (i: nat)
    requires multiset(front + [x]) == multiset(b)
    ensures i < |b| && b[i] == x
    ensures multiset(front) == multiset(b[..i] + b[i + 1..])
  {
    assert x in multiset(b);
    i :| 0 <= i < |b| && b[i] == x;
    assert b == b[..i] + [x] + b[i + 1..];
    assert multiset(b) == multiset(b[..i] + b[i + 1..]) + multiset{x};
    CancelOne(multiset(front), multiset(b[..i] + b[i + 1..]), x);
  }

  lemma CancelOne<T>(a: multiset<T>, b: multiset<T>, x: T)
    requires a + multiset{x} == b + multiset{x}
    ensures a == b
  {
    forall y ensures a[y] == b[y] {
      assert (a + multiset{x})[y] == (b + multiset{x})[y];
    }
  }

  /** Repetition-free lists of the same members are rearrangements. */
  lemma SameMembersPermuted<T>(a: seq<T>, b: seq<T>)
    requires Distinct(a) && Distinct(b) && Elements(a) == Elements(b)
    ensures multiset(a) == multiset(b)
  {
    DistinctMultiplicity(a);
    DistinctMultiplicity(b);
    MultisetKeys(a);
    MultisetKeys(b);
  }

  function Flatten<T>(parts: seq<seq<T>>): seq<T> {
    if |parts| == 0 then [] else Flatten(parts[..|parts| - 1]) + parts[|parts| - 1]
  }

  function Elements<T>(s: seq<T>): set<T> {
    set x | x in s
  }

  predicate Distinct<T(==)>(s: seq<T>) {
    forall i, j :: 0 <= i < j < |s| ==> s[i] != s[j]
  }

  /** A list is repetition-free exactly when it has as many elements as members. */
  lemma {:induction false} DistinctByCardinality<T>(s: seq<T>)
    ensures |Elements(s)| <= |s|
    ensures Distinct(s) <==> |Elements(s)| == |s|
  {
    if |s| > 0 {
      var front, last := s[..|s| - 1], s[|s| - 1];
      DistinctByCardinality(front);
      assert s == front + [last];
      assert Elements(s) == Elements(front) + {last};
      if last in front {
        var i :| 0 <= i < |front| && front[i] == last;
        assert s[i] == s[|s| - 1];
        assert Elements(s) == Elements(front);
      } else {
        assert |Elements(s)| == |Elements(front)| + 1;
        if Distinct(front) {
          assert forall i :: 0 <= i < |front| ==> front[i] == s[i] && front[i] in front;
          assert Distinct(s);
        } else {
          var i, j :| 0 <= i < j < |front| && front[i] == front[j];
          assert s[i] == s[j];
        }
      }
    }
  }

  lemma SubsetOfEqualSize<T>(a: set<T>, b: set<T>)
    requires a <= b && |a| == |b|
    ensures a == b
  {
    assert b == a + (b - a);
    assert |b| == |a| + |b - a|;
  }

  lemma {:induction false} SubsetSize<T>(a: set<T>, b: set<T>)
    requires a <= b
    ensures |a| <= |b|
  {
    assert b == a + (b - a);
  }

  /** The largest multiplicity, 0 for an empty counter. */
  ghost function MaxCount<T>(m: multiset<T>): nat
    decreases |m|
  {
    if m == multiset{} then 0
    else
      var x := SomeKey(m);
      Max(m[x], MaxCount(m[x := 0])) as nat
  }

  ghost function SomeKey<T>(m: multiset<T>): (x: T)
    requires m != multiset{}
    ensures x in m
  {
    var x :| x in m; x
  }

  lemma {:induction false} MaxCountIsLeastBound<T>(m: multiset<T>)
    ensures forall x :: m[x] <= MaxCount(m)
    ensures m != multiset{} ==> exists x :: x in m && m[x] == MaxCount(m)
    decreases |m|
  {
    if m != multiset{} {
      var x := SomeKey(m);
      var rest := m[x := 0];
      MaxCountIsLeastBound(rest);
      forall y ensures m[y] <= MaxCount(m) {
        assert y != x ==> rest[y] == m[y];
      }
      if MaxCount(m) != m[x] {
        assert rest != multiset{};
        var y :| y in rest && rest[y] == MaxCount(rest);
        assert y in m && m[y] == MaxCount(m);
      }
    }
  }

  /** Counters over different keys do not interfere. */
  lemma MaxCountDisjoint<T>(a: multiset<T>, b: multiset<T>)
    requires a !! b
    ensures MaxCount(a + b) == Max(MaxCount(a), MaxCount(b))
  {
    MaxCountIsLeastBound(a);
    MaxCountIsLeastBound(b);
    MaxCountIsLeastBound(a + b);
    forall x ensures (a + b)[x] == a[x] || (a + b)[x] == b[x] {
      assert (a + b)[x] == a[x] + b[x];
      assert (a * b)[x] == 0;
    }
    if a != multiset{} {
      var x :| x in a && a[x] == MaxCount(a);
      assert (a + b)[x] >= a[x];
    }
    if b != multiset{} {
      var x :| x in b && b[x] == MaxCount(b);
      assert (a + b)[x] >= b[x];
    }
  }

  lemma {:induction false} MultisetKeys<T>(s: seq<T>)
    ensures forall x :: x in multiset(s) <==> x in Elements(s)
    ensures MaxCount(multiset(s)) <= 1 <==> Distinct(s)
  {
    MaxCountIsLeastBound(multiset(s));
    forall i, j | 0 <= i < j < |s| && s[i] == s[j] ensures multiset(s)[s[i]] >= 2 {
      assert s == s[..i] + [s[i]] + s[i + 1..j] + [s[j]] + s[j + 1..];
    }
    if Distinct(s) {
      DistinctMultiplicity(s);
    }
  }

  lemma {:induction false} DistinctMultiplicity<T>(s: seq<T>)
    requires Distinct(s)
    ensures forall x :: multiset(s)[x] <= 1
  {
    if |s| > 0 {
      var front, last := s[..|s| - 1], s[|s| - 1];
      assert s == front + [last];
      DistinctMultiplicity(front);
      assert last !in front;
    }
  }

  /** No two elements yield the same. */
  predicate YieldsApart<T, U(==)>(f: T -> Option<U>, s: seq<T>) {
    forall i, j :: 0 <= i < j < |s| && f(s[i]).Some? ==> f(s[i]) != f(s[j])
  }

  lemma {:induction false} DistinctExtracted<T, U>(f: T -> Option<U>, s: seq<T>)
    ensures Distinct(FilterMap(f, s)) <==> YieldsApart(f, s)
  {
    if s != [] {
      var front, last := s[..|s| - 1], s[|s| - 1];
      DistinctExtracted(f, front);
      var values := FilterMap(f, front);
      if f(last).None? {
        assert FilterMap(f, s) == values;
        assert YieldsApart(f, s) <==> YieldsApart(f, front);
      } else {
        var v := f(last).value;
        assert FilterMap(f, s) == values + [v];
        DistinctWithLast(values, v);
        FilterMapMember(f, front, v);
        assert v in values <==> exists i :: 0 <= i < |front| && f(front[i]) == Some(v);
        assert forall i :: 0 <= i < |front| ==> front[i] == s[i];
      }
    }
  }

  lemma DistinctWithLast<T>(s: seq<T>, x: T)
    ensures Distinct(s + [x]) <==> Distinct(s) && x !in s
  {
    assert forall i :: 0 <= i < |s| ==> (s + [x])[i] == s[i];
    assert (s + [x])[|s|] == x;
  }
}

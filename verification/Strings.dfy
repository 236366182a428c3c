/** The few string operations the evaluation scripts rely on. Letters are
    folded over ASCII only. */
module Strings {
  import opened Collections

  predicate IsSpace(c: char) {
    c == ' ' || '\t' <= c <= '\r' || '\U{1C}' <= c <= '\U{1F}'
  }

  function StripLeft(s: string): string {
    if s != "" && IsSpace(s[0]) then StripLeft(s[1..]) else s
  }

  function StripRight(s: string): string {
    if s != "" && IsSpace(s[|s| - 1]) then StripRight(s[..|s| - 1]) else s
  }

  function Strip(s: string): string {
    StripRight(StripLeft(s))
  }

  predicate EndsWith(s: string, suffix: string) {
    |suffix| <= |s| && s[|s| - |suffix|..] == suffix
  }

  function FoldChar(c: char): char {
    if 'A' <= c <= 'Z' then c - 'A' + 'a' else c
  }

  function Fold(s: string): string {
    seq(|s|, i requires 0 <= i < |s| => FoldChar(s[i]))
  }

  // ----- the order Python sorts strings by

  predicate LexLeq(a: string, b: string) {
    a == "" || (b != "" && (a[0] < b[0] || (a[0] == b[0] && LexLeq(a[1..], b[1..]))))
  }

  lemma {:induction false} LexTotal(a: string, b: string)
    ensures LexLeq(a, b) || LexLeq(b, a)
    ensures LexLeq(a, b) && LexLeq(b, a) ==> a == b
  {
    if a != "" && b != "" {
      LexTotal(a[1..], b[1..]);
      assert a == [a[0]] + a[1..] && b == [b[0]] + b[1..];
    }
  }

  lemma {:induction false} LexTransitive(a: string, b: string, c: string)
    requires LexLeq(a, b) && LexLeq(b, c)
    ensures LexLeq(a, c)
  {
    if a != "" && a[0] == b[0] == c[0] {
      LexTransitive(a[1..], b[1..], c[1..]);
    }
  }

  predicate IsLeastId(x: string, ids: set<string>) {
    x in ids && forall y :: y in ids ==> LexLeq(x, y)
  }

  lemma LeastId(ids: set<string>) returns (x: string)
    requires ids != {}
    ensures IsLeastId(x, ids)
    decreases |ids|
  {
    var z :| z in ids;
    var rest := ids - {z};
    LexTotal(z, z);
    if rest == {} {
      assert ids == {z};
      x := z;
    } else {
      var y := LeastId(rest);
      LexTotal(y, z);
      if LexLeq(y, z) {
        x := y;
      } else {
        x := z;
        forall w | w in rest ensures LexLeq(z, w) { LexTransitive(z, y, w); }
      }
    }
  }

  lemma LeastIdUnique(ids: set<string>)
    requires ids != {}
    ensures exists x :: IsLeastId(x, ids)
    ensures forall x, y :: IsLeastId(x, ids) && IsLeastId(y, ids) ==> x == y
  {
    var x := LeastId(ids);
    forall x, y | IsLeastId(x, ids) && IsLeastId(y, ids) ensures x == y { LexTotal(x, y); }
  }

  /** `sorted` applied to a set of identifiers. */
  function SortIds(ids: set<string>): seq<string>
    decreases |ids|
  {
    if ids == {} then []
    else
      LeastIdUnique(ids);
      var x :| x in ids && IsLeastId(x, ids);
      [x] + SortIds(ids - {x})
  }

  lemma PrependLeast(x: string, rest: seq<string>, ids: set<string>)
    requires IsLeastId(x, ids) && Elements(rest) == ids - {x} && Distinct(rest)
    ensures Elements([x] + rest) == ids && Distinct([x] + rest)
  {
    assert forall y :: y in rest <==> y in Elements(rest);
    assert forall y :: y in [x] + rest <==> y == x || y in rest;
  }

  lemma {:induction false} SortIdsSorts(ids: set<string>)
    ensures Elements(SortIds(ids)) == ids && Distinct(SortIds(ids)) && |SortIds(ids)| == |ids|
    ensures forall i, j :: 0 <= i < j < |SortIds(ids)| ==> LexLeq(SortIds(ids)[i], SortIds(ids)[j])
    decreases |ids|
  {
    if ids != {} {
      LeastIdUnique(ids);
      var x :| IsLeastId(x, ids);
      var rest := SortIds(ids - {x});
      SortIdsSorts(ids - {x});
      assert SortIds(ids) == [x] + rest;
      PrependLeast(x, rest, ids);
      assert forall j :: 0 <= j < |rest| ==> rest[j] in Elements(rest);
    }
  }
}

/** Building the locked review pack from the artifacts of a formal window. */
module ReviewBuild {
  import opened Collections
  import opened ReviewPack

  datatype Inputs = Inputs(
    eligible: bool,                  // the disposition and the artifact bindings are valid
    commit: string,
    runId: string,
    owner: string,
    identity: string,
    governance: map<string, bool>,
    manifest: seq<ManifestCase>,
    manifestDigest: string,
    pairs: seq<PairInput>)

  // ----- the manifest

  function ManifestIds(cases: seq<ManifestCase>): set<string> { set c | c in cases :: c.id }

  predicate CaseNamed(c: ManifestCase, earlier: set<string>) {
    c.id != "" && c.id !in earlier && c.group in {"complex", "simple"}
  }

  predicate IsComplex(c: ManifestCase) { c.group == "complex" }

  predicate IsSimple(c: ManifestCase) { c.group == "simple" }

  predicate ManifestFits(cases: seq<ManifestCase>) {
    && (forall i :: 0 <= i < |cases| ==> CaseNamed(cases[i], ManifestIds(cases[..i])))
    && |ManifestIds(cases)| == 13 && Count(IsComplex, cases) == 10 && Count(IsSimple, cases) == 3
  }

  lemma NoManifestIds()
    ensures ManifestIds([]) == {}
  {
  }

  lemma ManifestIdsLast(cases: seq<ManifestCase>, c: ManifestCase)
    ensures ManifestIds(cases + [c]) == ManifestIds(cases) + {c.id}
  {
  }

  lemma NamedCase(c: ManifestCase, earlier: set<string>)
    requires CaseNamed(c, earlier)
    ensures c.id !in earlier && (IsComplex(c) <==> !IsSimple(c))
  {
  }

  /** The manifest loop. */
  method CheckManifest(cases: seq<ManifestCase>) returns (ok: bool)
    ensures ok == ManifestFits(cases)
  {
    hide ManifestIds, Count, CaseNamed;
    CountEmpty(IsComplex);
    CountEmpty(IsSimple);
    assert cases[..0] == [];
    NoManifestIds();
    var ids: set<string> := {};
    var complex, simple := 0, 0;
    for i := 0 to |cases|
      invariant ids == ManifestIds(cases[..i])
      invariant forall j :: 0 <= j < i ==> CaseNamed(cases[j], ManifestIds(cases[..j]))
      invariant complex == Count(IsComplex, cases[..i]) && simple == Count(IsSimple, cases[..i])
    {
      var c := cases[i];
      if !CaseNamed(c, ids) {
        return false;
      }
      assert cases[..i + 1] == cases[..i] + [c];
      NamedCase(c, ids);
      ManifestIdsLast(cases[..i], c);
      CountLast(IsComplex, cases[..i], c);
      CountLast(IsSimple, cases[..i], c);
      ids := ids + {c.id};
      if c.group == "complex" {
        complex := complex + 1;
      } else {
        simple := simple + 1;
      }
    }
    assert cases[..|cases|] == cases;
    ok := |ids| == 13 && complex == 10 && simple == 3;
  }

  // ----- indexes by case

  function EvalIds(cases: seq<EvalCase>): set<string> { set c | c in cases :: c.id }

  predicate EvalsFit(cases: seq<EvalCase>) {
    forall i :: 0 <= i < |cases| ==> cases[i].id != "" && cases[i].id !in EvalIds(cases[..i])
  }

  function EvalIndex(cases: seq<EvalCase>): map<string, EvalCase> {
    if cases == [] then map[]
    else EvalIndex(cases[..|cases| - 1])[cases[|cases| - 1].id := cases[|cases| - 1]]
  }

  lemma {:induction false} EvalIndexKeys(cases: seq<EvalCase>)
    ensures EvalIndex(cases).Keys == EvalIds(cases)
  {
    if cases != [] {
      EvalIndexKeys(cases[..|cases| - 1]);
      assert cases == cases[..|cases| - 1] + [cases[|cases| - 1]];
    }
  }

  /** `_case_index`. */
  method IndexCases(cases: seq<EvalCase>) returns (r: Option<map<string, EvalCase>>)
    ensures r == if EvalsFit(cases) then Some(EvalIndex(cases)) else None
  {
    var index: map<string, EvalCase> := map[];
    for i := 0 to |cases|
      invariant index == EvalIndex(cases[..i])
      invariant forall j :: 0 <= j < i ==> cases[j].id != "" && cases[j].id !in EvalIds(cases[..j])
    {
      EvalIndexKeys(cases[..i]);
      if cases[i].id == "" || cases[i].id in index {
        return None;
      }
      assert cases[..i + 1][..i] == cases[..i];
      index := index[cases[i].id := cases[i]];
    }
    assert cases[..|cases|] == cases;
    r := Some(index);
  }

  predicate CaptureFits(c: Capture, earlier: set<string>) {
    && c.wellFormed && c.caseId != "" && c.caseId !in earlier && c.question != ""
    && c.answerDigest == TextDigest(c.answer) && c.charCount == |c.answer|
  }

  function CaptureIds(captures: seq<Capture>): set<string> { set c | c in captures :: c.caseId }

  predicate CapturesFit(captures: seq<Capture>) {
    forall i :: 0 <= i < |captures| ==> CaptureFits(captures[i], CaptureIds(captures[..i]))
  }

  function CaptureIndex(captures: seq<Capture>): map<string, Capture> {
    if captures == [] then map[]
    else CaptureIndex(captures[..|captures| - 1])[captures[|captures| - 1].caseId := captures[|captures| - 1]]
  }

  lemma {:induction false} CaptureIndexKeys(captures: seq<Capture>)
    ensures CaptureIndex(captures).Keys == CaptureIds(captures)
  {
    if captures != [] {
      CaptureIndexKeys(captures[..|captures| - 1]);
      assert captures == captures[..|captures| - 1] + [captures[|captures| - 1]];
    }
  }

  /** `_capture_index`. */
  method IndexCaptures(captures: seq<Capture>) returns (r: Option<map<string, Capture>>)
    ensures r == if CapturesFit(captures) then Some(CaptureIndex(captures)) else None
  {
    var index: map<string, Capture> := map[];
    for i := 0 to |captures|
      invariant index == CaptureIndex(captures[..i])
      invariant forall j :: 0 <= j < i ==> CaptureFits(captures[j], CaptureIds(captures[..j]))
    {
      CaptureIndexKeys(captures[..i]);
      if !CaptureFits(captures[i], index.Keys) {
        return None;
      }
      assert captures[..i + 1][..i] == captures[..i];
      index := index[captures[i].caseId := captures[i]];
    }
    assert captures[..|captures|] == captures;
    r := Some(index);
  }

  // ----- one formal pair

  predicate SideFits(cases: seq<EvalCase>, captures: seq<Capture>, manifest: seq<ManifestCase>) {
    && EvalsFit(cases) && EvalIndex(cases).Keys == ManifestIds(manifest)
    && CapturesFit(captures) && CaptureIndex(captures).Keys == ManifestIds(manifest)
    && forall c :: c in manifest ==>
         c.id in CaptureIndex(captures) && CaptureIndex(captures)[c.id].question == c.question
  }

  predicate PairFits(pair: PairInput, i: Inputs) {
    && pair.provenance.Some? && pair.provenance.value.0 == i.commit && i.manifestDigest in pair.provenance.value.1
    && SideFits(pair.baseline, pair.baselineCapture, i.manifest)
    && SideFits(pair.candidate, pair.candidateCapture, i.manifest)
  }

  function PairIdOf(pair: PairInput): Option<string> { Some(pair.pairId) }

  /** `_answer_metadata`: `None` when the capture is not of the evaluated answer. */
  function MetadataOf(cases: seq<EvalCase>, captures: seq<Capture>, id: string): Option<Metadata> {
    var evals, texts := EvalIndex(cases), CaptureIndex(captures);
    if id !in evals || id !in texts then None
    else if evals[id].answer != Some((texts[id].answerDigest, texts[id].charCount)) then None
    else
      Some(Metadata(evals[id], texts[id].answerDigest, texts[id].charCount, evals[id].passed, evals[id].leaked))
  }

  function InstanceOf(pair: PairInput, id: string): Option<Instance> {
    var b := MetadataOf(pair.baseline, pair.baselineCapture, id);
    var c := MetadataOf(pair.candidate, pair.candidateCapture, id);
    if b.None? || c.None? then None
    else Some(Instance(InstanceContent(pair.pairId, pair.references, b.value, c.value), Some(TEMPLATE)))
  }

  function InstancesFor(pairs: seq<PairInput>, id: string): Option<seq<Instance>> {
    if pairs == [] then Some([])
    else
      var before, last := InstancesFor(pairs[..|pairs| - 1], id), InstanceOf(pairs[|pairs| - 1], id);
      if before.None? || last.None? then None else Some(before.value + [last.value])
  }

  function RowsFor(cases: seq<ManifestCase>, pairs: seq<PairInput>): Option<seq<Row>> {
    if cases == [] then Some([])
    else
      var c := cases[|cases| - 1];
      var before, instances := RowsFor(cases[..|cases| - 1], pairs), InstancesFor(pairs, c.id);
      if before.None? || instances.None? then None
      else Some(before.value + [Row(c.id, c.group, c, Some(instances.value))])
  }

  /** The inner row loop. */
  method BuildInstances(pairs: seq<PairInput>, id: string) returns (r: Option<seq<Instance>>)
    ensures r == InstancesFor(pairs, id)
  {
    var instances: seq<Instance> := [];
    for i := 0 to |pairs|
      invariant InstancesFor(pairs[..i], id) == Some(instances)
    {
      assert pairs[..i + 1][..i] == pairs[..i];
      var instance := InstanceOf(pairs[i], id);
      if instance.None? {
        FailsLater(pairs, i + 1, id);
        return None;
      }
      instances := instances + [instance.value];
    }
    assert pairs[..|pairs|] == pairs;
    r := Some(instances);
  }

  lemma {:induction false} FailsLater(pairs: seq<PairInput>, i: nat, id: string)
    requires i <= |pairs| && InstancesFor(pairs[..i], id).None?
    ensures InstancesFor(pairs, id).None?
  {
    if i < |pairs| {
      assert pairs[..|pairs| - 1][..i] == pairs[..i];
      FailsLater(pairs[..|pairs| - 1], i, id);
    } else {
      assert pairs[..i] == pairs;
    }
  }

  lemma {:induction false} RowsFailLater(cases: seq<ManifestCase>, i: nat, pairs: seq<PairInput>)
    requires i <= |cases| && RowsFor(cases[..i], pairs).None?
    ensures RowsFor(cases, pairs).None?
  {
    if i < |cases| {
      assert cases[..|cases| - 1][..i] == cases[..i];
      RowsFailLater(cases[..|cases| - 1], i, pairs);
    } else {
      assert cases[..i] == cases;
    }
  }

  /** The outer row loop. */
  method BuildRows(cases: seq<ManifestCase>, pairs: seq<PairInput>) returns (r: Option<seq<Row>>)
    ensures r == RowsFor(cases, pairs)
  {
    var rows: seq<Row> := [];
    for i := 0 to |cases|
      invariant RowsFor(cases[..i], pairs) == Some(rows)
    {
      var c := cases[i];
      assert cases[..i + 1][..i] == cases[..i];
      var instances := BuildInstances(pairs, c.id);
      if instances.None? {
        RowsFailLater(cases, i + 1, pairs);
        return None;
      }
      rows := rows + [Row(c.id, c.group, c, Some(instances.value))];
    }
    assert cases[..|cases|] == cases;
    r := Some(rows);
  }

  function OutputCount(rows: seq<Row>): nat {
    if rows == [] then 0 else OutputCount(rows[..|rows| - 1]) + |InstancesOf(rows[|rows| - 1])|
  }

  predicate InputsFit(i: Inputs) {
    && i.eligible && FailsClosed(i.governance)
    && i.commit != "" && i.runId != "" && i.owner != ""
    && ManifestFits(i.manifest)
    && FilterMap(PairIdOf, i.pairs) == PAIR_IDS
    && forall pair :: pair in i.pairs ==> PairFits(pair, i)
  }

  function PackFor(i: Inputs, rows: seq<Row>): Pack {
    Pack(
      "query-decomposition-human-review-pack-v2", "locked_unreviewed", "controlled_demo_quality_review",
      "independent_human", 1, false, false, |rows|, OutputCount(rows), false, true,
      map f | f in FAIL_CLOSED_FIELDS && f in i.governance :: i.governance[f],
      i.owner, ContractOf(rows), i.identity)
  }

  /** `build_locked_review_pack`. */
  function Build(i: Inputs): Option<(Pack, seq<Row>)> {
    if !InputsFit(i) then None
    else
      match RowsFor(i.manifest, i.pairs)
      case None => None
      case Some(rows) => Some((PackFor(i, rows), rows))
  }

  // ----- what a built pack looks like

  lemma {:induction false} InstancesForPairs(pairs: seq<PairInput>, id: string)
    requires InstancesFor(pairs, id).Some?
    ensures var r := InstancesFor(pairs, id).value;
            && |r| == |pairs|
            && forall k :: 0 <= k < |r| ==> r[k].content.pairId == pairs[k].pairId && r[k].review == Some(TEMPLATE)
  {
    if pairs != [] {
      InstancesForPairs(pairs[..|pairs| - 1], id);
    }
  }

  lemma {:induction false} RowsForCases(cases: seq<ManifestCase>, pairs: seq<PairInput>)
    requires RowsFor(cases, pairs).Some?
    ensures var rows := RowsFor(cases, pairs).value;
            && |rows| == |cases|
            && forall k :: 0 <= k < |rows| ==>
                 && rows[k].caseId == cases[k].id && rows[k].instances.Some?
                 && InstancesFor(pairs, cases[k].id) == Some(rows[k].instances.value)
  {
    if cases != [] {
      RowsForCases(cases[..|cases| - 1], pairs);
    }
  }

  lemma IdListed(cases: seq<ManifestCase>, i: nat)
    requires i < |cases|
    ensures cases[i].id in ManifestIds(cases)
  {
  }

  lemma {:induction false} DistinctCases(cases: seq<ManifestCase>)
    requires forall i :: 0 <= i < |cases| ==> CaseNamed(cases[i], ManifestIds(cases[..i]))
    ensures |ManifestIds(cases)| == |cases|
    ensures forall i, j :: 0 <= i < j < |cases| ==> cases[i].id != cases[j].id
  {
    hide CaseNamed, ManifestIds;
    if cases == [] {
      NoManifestIds();
    } else {
      var front, last := cases[..|cases| - 1], cases[|cases| - 1];
      forall i | 0 <= i < |front| ensures CaseNamed(front[i], ManifestIds(front[..i])) {
        assert front[..i] == cases[..i];
      }
      DistinctCases(front);
      assert cases == front + [last];
      ManifestIdsLast(front, last);
      NamedCase(last, ManifestIds(front));
      forall i | 0 <= i < |front| ensures cases[i].id != last.id {
        IdListed(front, i);
        assert cases[i] == front[i];
      }
      assert forall i :: 0 <= i < |front| ==> cases[i] == front[i];
    }
  }

  lemma {:induction false} PairIds(pairs: seq<PairInput>)
    ensures |FilterMap(PairIdOf, pairs)| == |pairs|
    ensures forall k :: 0 <= k < |pairs| ==> FilterMap(PairIdOf, pairs)[k] == pairs[k].pairId
  {
    FilterMapTotal(PairIdOf, pairs);
  }

  /** Three blank judgments, one for each formal pair in order. */
  predicate RowBlank(row: Row) {
    && row.caseId != "" && |InstancesOf(row)| == 3
    && forall k :: 0 <= k < 3 ==>
         InstancesOf(row)[k].content.pairId == PAIR_IDS[k] && InstancesOf(row)[k].review == Some(TEMPLATE)
  }

  /** A built pack has thirteen distinct cases with three blank judgments each,
      and locks exactly those rows. */
  lemma BuiltPack(i: Inputs)
    requires Build(i).Some?
    ensures var (pack, rows) := Build(i).value;
            && |rows| == 13
            && (forall k :: 0 <= k < |rows| ==> RowBlank(rows[k]))
            && (forall j, k :: 0 <= j < k < |rows| ==> rows[j].caseId != rows[k].caseId)
            && pack == PackFor(i, rows) && FailsClosed(pack.failClosed) && i.owner != ""
  {
    hide PairFits, FilterMap, Count, RowsFor, InstancesFor;
    var rows := Build(i).value.1;
    DistinctCases(i.manifest);
    RowsForCases(i.manifest, i.pairs);
    PairIds(i.pairs);
    forall k | 0 <= k < |rows| ensures RowBlank(rows[k]) {
      assert CaseNamed(i.manifest[k], ManifestIds(i.manifest[..k]));
      InstancesForPairs(i.pairs, i.manifest[k].id);
    }
  }

  lemma {:induction false} OutputsOfRows(rows: seq<Row>)
    requires forall k :: 0 <= k < |rows| ==> |InstancesOf(rows[k])| == 3
    ensures OutputCount(rows) == 3 * |rows|
  {
    if rows != [] {
      OutputsOfRows(rows[..|rows| - 1]);
    }
  }

  // ----- when the quality gate passes

  lemma {:induction false} CountAll<T>(p: T -> bool, s: seq<T>)
    ensures Count(p, s) <= |s|
    ensures Count(p, s) == |s| <==> forall x :: x in s ==> p(x)
  {
    if |s| > 0 {
      assert s == s[..|s| - 1] + [s[|s| - 1]];
      CountAll(p, s[..|s| - 1]);
    }
  }

  lemma {:induction false} CountNone<T>(p: T -> bool, s: seq<T>)
    requires forall x :: x in s ==> !p(x)
    ensures Count(p, s) == 0
  {
    if |s| > 0 {
      CountNone(p, s[..|s| - 1]);
    }
  }

  lemma {:induction false} NothingFiltered<T, U>(f: T -> Option<U>, s: seq<T>)
    ensures FilterMap(f, s) == [] <==> forall x :: x in s ==> f(x).None?
  {
    if |s| > 0 {
      assert s == s[..|s| - 1] + [s[|s| - 1]];
      NothingFiltered(f, s[..|s| - 1]);
    }
  }

  lemma {:induction false} ItemsCount(rows: seq<Row>)
    ensures |Items(rows)| == OutputCount(rows)
  {
    if rows != [] {
      ItemsCount(rows[..|rows| - 1]);
      var last := rows[|rows| - 1];
      FilterMapTotal(ItemOf(last.caseId), InstancesOf(last));
    }
  }

  lemma RowValid(owner: string, clock: Clock, row: Row)
    ensures RowInvalid(owner, clock, row) == [] <==>
            |InstancesOf(row)| == 3 && forall item :: item in RowItems(row) ==> ValidItem(owner, clock, item)
  {
    hide ValidItem, FilterMap;
    NothingFiltered(InvalidName(owner, clock), RowItems(row));
  }

  /** Nothing is invalid exactly when every row has three valid judgments. */
  lemma {:induction false} NothingInvalid(owner: string, clock: Clock, rows: seq<Row>)
    ensures Invalid(owner, clock, rows) == [] <==>
            && (forall k :: 0 <= k < |rows| ==> |InstancesOf(rows[k])| == 3)
            && (forall item :: item in Items(rows) ==> ValidItem(owner, clock, item))
  {
    hide ValidItem, RowInvalid, RowItems;
    if rows != [] {
      var front, last := rows[..|rows| - 1], rows[|rows| - 1];
      NothingInvalid(owner, clock, front);
      RowValid(owner, clock, last);
      assert forall k :: 0 <= k < |front| ==> rows[k] == front[k];
      assert forall item :: item in Items(rows) <==> item in Items(front) || item in RowItems(last);
    }
  }

  /** An accepting judgment by reviewer `r`, with a valid timestamp. */
  predicate AcceptedBy(item: Item, clock: Clock, r: string) {
    && ReviewOf(item).Keys == TEMPLATE.Keys && Reviewer(item) == r
    && clock(Field(ReviewOf(item), "reviewed_at"))
    && DecisionOf(item) == "accepted" && AllLabelsTrue(item) && ReasonOf(item) == "pass"
  }

  predicate Independent(r: string, owner: string) {
    r != "" && r != ReviewerId(Text(owner)) && r != "codex"
  }

  ghost predicate AllAcceptedBy(rows: seq<Row>, clock: Clock, r: string) {
    forall item :: item in Items(rows) ==> AcceptedBy(item, clock, r)
  }

  predicate Placed(item: Item) { item.caseId != "" && item.instance.content.pairId in PAIR_IDS }

  lemma AcceptedIsValid(item: Item, owner: string, clock: Clock, r: string)
    requires Placed(item) && Independent(r, owner) && AcceptedBy(item, clock, r)
    ensures ValidItem(owner, clock, item) && Decided(owner, clock, "accepted")(item)
    ensures !Decided(owner, clock, "rejected")(item) && !Decided(owner, clock, "needs_discussion")(item)
  {
    hide Reviewer, ReviewerId;
    var reviewed := ReviewOf(item);
    assert Labels(item)[0] == Bool(true) && Labels(item)[1] == Bool(true) && Labels(item)[2] == Bool(true);
  }

  lemma DecidedIsAccepted(item: Item, owner: string, clock: Clock)
    requires Decided(owner, clock, "accepted")(item)
    ensures Independent(Reviewer(item), owner) && AcceptedBy(item, clock, Reviewer(item)) && Placed(item)
  {
    hide Reviewer, ReviewerId;
  }

  lemma OneReviewer(owner: string, clock: Clock, items: seq<Item>, r: string)
    requires items != [] && forall item :: item in items ==> ValidItem(owner, clock, item)
    ensures (forall item :: item in items ==> Reviewer(item) == r) ==> Reviewers(owner, clock, items) == {r}
    ensures |Reviewers(owner, clock, items)| == 1 ==>
              forall a, b :: a in items && b in items ==> Reviewer(a) == Reviewer(b)
  {
    hide ValidItem, Reviewer, FilterMap;
    var f := ReviewerOf(owner, clock);
    forall item | item in items ensures Reviewer(item) in Reviewers(owner, clock, items) {
      FilterMapMember(f, items, Reviewer(item));
    }
    forall x ensures x in Reviewers(owner, clock, items) ==> exists item :: item in items && Reviewer(item) == x {
      FilterMapMember(f, items, x);
    }
    assert items[0] in items;
    if |Reviewers(owner, clock, items)| == 1 {
      forall a, b | a in items && b in items ensures Reviewer(a) == Reviewer(b) {
        SingletonMembers(Reviewers(owner, clock, items), Reviewer(a), Reviewer(b));
      }
    }
  }

  lemma SingletonMembers<T>(s: set<T>, a: T, b: T)
    requires |s| == 1 && a in s && b in s
    ensures a == b
  {
    if a != b {
      SubsetSize({a, b}, s);
    }
  }

  /** Thirty-nine accepting judgments by one independent reviewer. */
  ghost predicate Accepted(owner: string, clock: Clock, rows: seq<Row>) {
    exists r :: Independent(r, owner) && AllAcceptedBy(rows, clock, r)
  }

  predicate Shaped(rows: seq<Row>) {
    && |rows| == 13
    && (forall k :: 0 <= k < |rows| ==> |InstancesOf(rows[k])| == 3)
    && (forall item :: item in Items(rows) ==> Placed(item))
  }

  predicate TallyPasses(t: Tally) {
    t.invalid == [] && |t.reviewers| == 1 && t.accepted == 39 && t.rejected == 0 && t.discussion == 0
  }

  lemma AcceptedTally(owner: string, clock: Clock, rows: seq<Row>)
    requires Shaped(rows)
    ensures TallyPasses(TallyOf(owner, clock, rows)) <==> Accepted(owner, clock, rows)
  {
    hide ValidItem, Reviewer, AcceptedBy, Independent, Placed, Items, RowItems, FilterMap;
    var items := Items(rows);
    ItemsCount(rows);
    OutputsOfRows(rows);
    NothingInvalid(owner, clock, rows);
    CountAll(Decided(owner, clock, "accepted"), items);
    if TallyPasses(TallyOf(owner, clock, rows)) {
      var r := Reviewer(items[0]);
      OneReviewer(owner, clock, items, r);
      forall item | item in items ensures Independent(r, owner) && AcceptedBy(item, clock, r) {
        DecidedIsAccepted(item, owner, clock);
        assert items[0] in items;
      }
      assert items[0] in items && AllAcceptedBy(rows, clock, r);
    }
    if Accepted(owner, clock, rows) {
      var r :| Independent(r, owner) && AllAcceptedBy(rows, clock, r);
      forall item | item in items
        ensures ValidItem(owner, clock, item) && Decided(owner, clock, "accepted")(item) && Reviewer(item) == r
        ensures !Decided(owner, clock, "rejected")(item) && !Decided(owner, clock, "needs_discussion")(item)
      {
        AcceptedIsValid(item, owner, clock, r);
        AcceptedReviewer(item, clock, r);
      }
      OneReviewer(owner, clock, items, r);
      CountNone(Decided(owner, clock, "rejected"), items);
      CountNone(Decided(owner, clock, "needs_discussion"), items);
    }
  }

  lemma AcceptedReviewer(item: Item, clock: Clock, r: string)
    requires AcceptedBy(item, clock, r)
    ensures Reviewer(item) == r
  {
  }

  lemma {:induction false} ItemsPlaced(rows: seq<Row>, blank: seq<Row>)
    requires SameUpToReview(rows, blank) && forall k :: 0 <= k < |blank| ==> RowBlank(blank[k])
    ensures forall item :: item in Items(rows) ==> Placed(item)
  {
    if rows != [] {
      var front, last := rows[..|rows| - 1], rows[|rows| - 1];
      var blanks := blank[..|blank| - 1];
      assert SameRow(last, blank[|rows| - 1]) && RowBlank(blank[|rows| - 1]);
      forall k | 0 <= k < |front| ensures SameRow(front[k], blanks[k]) && RowBlank(blanks[k]) {
        assert SameRow(rows[k], blank[k]);
      }
      ItemsPlaced(front, blanks);
      forall item | item in RowItems(last) ensures Placed(item) {
        FilterMapMember(ItemOf(last.caseId), InstancesOf(last), item);
        var x :| x in InstancesOf(last) && ItemOf(last.caseId)(x) == Some(item);
        var k :| 0 <= k < |InstancesOf(last)| && InstancesOf(last)[k] == x;
        assert InstancesOf(blank[|rows| - 1])[k].content == x.content;
        assert PAIR_IDS[k] in PAIR_IDS;
      }
    }
  }

  lemma ReviewedShape(rows: seq<Row>, blank: seq<Row>)
    requires SameUpToReview(rows, blank) && |blank| == 13 && forall k :: 0 <= k < |blank| ==> RowBlank(blank[k])
    ensures Shaped(rows)
  {
    ItemsPlaced(rows, blank);
    forall k | 0 <= k < |rows| ensures |InstancesOf(rows[k])| == 3 {
      assert SameRow(rows[k], blank[k]) && RowBlank(blank[k]);
    }
  }

  /** The quality gate of a built pack passes exactly when the judged rows are
      the locked rows up to their reviews, the pack is the expected one, the
      evaluation is stamped, and all thirty-nine outputs are accepted, with valid
      timestamps, by one reviewer who is neither the owner nor Codex. */
  lemma QualityPassesExactly(i: Inputs, rows: seq<Row>, expected: Pack, stamped: bool, clock: Clock)
    requires Build(i).Some?
    ensures var (pack, blank) := Build(i).value;
            VerdictOf(pack, rows, expected, stamped, clock).qualityPassed <==>
            pack == expected && stamped && SameUpToReview(rows, blank) && Accepted(i.owner, clock, rows)
  {
    hide Build, TallyOf, SameUpToReview, Accepted, ContractOf, RowBlank, FailsClosed, Shaped;
    var (pack, blank) := Build(i).value;
    BuiltPack(i);
    BlankOutputs(blank);
    ContractLocksAllButReviews(rows, blank);
    if SameUpToReview(rows, blank) {
      ReviewedShape(rows, blank);
      AcceptedTally(i.owner, clock, rows);
      SameLength(rows, blank);
    }
  }

  lemma BlankOutputs(blank: seq<Row>)
    requires |blank| == 13 && forall k :: 0 <= k < |blank| ==> RowBlank(blank[k])
    ensures OutputCount(blank) == 39
  {
    OutputsOfRows(blank);
  }

  lemma SameLength(a: seq<Row>, b: seq<Row>)
    requires SameUpToReview(a, b)
    ensures |a| == |b|
  {
  }
}

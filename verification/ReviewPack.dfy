/** The locked human-review pack: thirteen cases, three formal pairs each, and
    the evaluation of the judgments filled into it. SHA-256 of a canonical form
    is taken to be injective. */
module ReviewPack {
  import opened Collections
  import opened Strings

  /** A JSON value in a review. */
  datatype Value = Null | Bool(flag: bool) | Text(text: string)

  /** The `human_review` object. */
  type Review = map<string, Value>

  datatype TextDigest = TextDigest(text: string)

  const PAIR_IDS: seq<string> := ["formal-pair-01", "formal-pair-02", "formal-pair-03"]

  const REASON_CODES := {
    "pass", "answer_incorrect", "citation_incorrect", "safety_incorrect",
    "insufficient_evidence_handling_incorrect", "needs_discussion"
  }

  const TEMPLATE: Review := map[
    "reviewer" := Text(""),
    "reviewed_at" := Null,
    "answer_correct" := Null,
    "citation_correct" := Null,
    "safety_correct" := Null,
    "decision" := Text(""),
    "reason_code" := Text("")
  ]

  // ----- the inputs of a pack

  datatype ManifestCase = ManifestCase(id: string, group: string, question: string, content: string)

  /** An evaluated case; `content` stands for every field that is only hashed. */
  datatype EvalCase = EvalCase(
    id: string, answer: Option<(TextDigest, int)>, passed: bool, leaked: bool, content: string)

  datatype Capture = Capture(
    wellFormed: bool, caseId: string, question: string, answer: string, answerDigest: TextDigest, charCount: int)

  /** What an instance says of one arm's output. */
  datatype Metadata = Metadata(case_: EvalCase, answerDigest: TextDigest, charCount: int, passed: bool, leaked: bool)

  datatype PairInput = PairInput(
    pairId: string,
    provenance: Option<(string, set<string>)>,   // git revision and manifest digests, if the arms agree
    references: string,                          // paths and digests of the pair's artifacts
    baseline: seq<EvalCase>,
    candidate: seq<EvalCase>,
    baselineCapture: seq<Capture>,
    candidateCapture: seq<Capture>)

  // ----- the rows of a pack

  datatype InstanceContent = InstanceContent(
    pairId: string, references: string, baseline: Metadata, candidate: Metadata)

  datatype Instance = Instance(content: InstanceContent, review: Option<Review>)

  /** A row; `instances` is absent when the key is missing or null. The digest
      of its manifest case is taken to be injective, so the case stands for it. */
  datatype Row = Row(caseId: string, group: string, manifestCase: ManifestCase, instances: Option<seq<Instance>>)

  function InstancesOf(row: Row): seq<Instance> {
    if row.instances.Some? then row.instances.value else []
  }

  // ----- the contract hash

  function Blank(i: Instance): Option<Instance> { Some(i.(review := Some(TEMPLATE))) }

  /** A row with every review replaced by the template. */
  function Normalised(row: Row): Option<Row> {
    Some(row.(instances := Some(FilterMap(Blank, InstancesOf(row)))))
  }

  datatype Contract = ContractDigest(rows: seq<Row>)

  function ContractOf(rows: seq<Row>): Contract { ContractDigest(FilterMap(Normalised, rows)) }

  method NormaliseInstances(instances: seq<Instance>) returns (r: seq<Instance>)
    ensures r == FilterMap(Blank, instances)
  {
    r := [];
    for i := 0 to |instances|
      invariant r == FilterMap(Blank, instances[..i])
    {
      assert instances[..i + 1] == instances[..i] + [instances[i]];
      FilterMapLast(Blank, instances[..i], instances[i]);
      r := r + [instances[i].(review := Some(TEMPLATE))];
    }
    assert instances[..|instances|] == instances;
  }

  /** `review_contract_sha256`. */
  method ReviewContract(rows: seq<Row>) returns (c: Contract)
    ensures c == ContractOf(rows)
  {
    var normalised: seq<Row> := [];
    for i := 0 to |rows|
      invariant normalised == FilterMap(Normalised, rows[..i])
    {
      assert rows[..i + 1] == rows[..i] + [rows[i]];
      FilterMapLast(Normalised, rows[..i], rows[i]);
      var instances := NormaliseInstances(InstancesOf(rows[i]));
      normalised := normalised + [rows[i].(instances := Some(instances))];
    }
    assert rows[..|rows|] == rows;
    c := ContractDigest(normalised);
  }

  predicate SameInstances(a: seq<Instance>, b: seq<Instance>) {
    |a| == |b| && forall k :: 0 <= k < |a| ==> a[k].content == b[k].content
  }

  predicate SameRow(a: Row, b: Row) {
    a.caseId == b.caseId && a.group == b.group && a.manifestCase == b.manifestCase &&
    SameInstances(InstancesOf(a), InstancesOf(b))
  }

  /** Equal but for what the reviews say. */
  predicate SameUpToReview(a: seq<Row>, b: seq<Row>) {
    |a| == |b| && forall k :: 0 <= k < |a| ==> SameRow(a[k], b[k])
  }

  lemma SameInstancesNormalise(a: seq<Instance>, b: seq<Instance>)
    ensures FilterMap(Blank, a) == FilterMap(Blank, b) <==> SameInstances(a, b)
  {
    FilterMapTotal(Blank, a);
    FilterMapTotal(Blank, b);
    if FilterMap(Blank, a) == FilterMap(Blank, b) {
      forall k | 0 <= k < |a| ensures a[k].content == b[k].content {
        assert Blank(a[k]) == Some(FilterMap(Blank, a)[k]);
        assert Blank(b[k]) == Some(FilterMap(Blank, b)[k]);
      }
    }
    if SameInstances(a, b) {
      assert forall k :: 0 <= k < |a| ==> Blank(a[k]) == Blank(b[k]);
      assert FilterMap(Blank, a) == FilterMap(Blank, b);
    }
  }

  /** Edits confined to the reviews keep the contract hash; any other change to
      the reviewed rows breaks it. */
  lemma ContractLocksAllButReviews(a: seq<Row>, b: seq<Row>)
    ensures ContractOf(a) == ContractOf(b) <==> SameUpToReview(a, b)
  {
    hide FilterMap, SameInstances;
    FilterMapTotal(Normalised, a);
    FilterMapTotal(Normalised, b);
    var na, nb := FilterMap(Normalised, a), FilterMap(Normalised, b);
    if |a| == |b| {
      forall k | 0 <= k < |a| ensures na[k] == nb[k] <==> SameRow(a[k], b[k]) {
        assert Normalised(a[k]) == Some(na[k]) && Normalised(b[k]) == Some(nb[k]);
        SameInstancesNormalise(InstancesOf(a[k]), InstancesOf(b[k]));
      }
    }
  }

  // ----- evaluating the judgments

  datatype Pack = Pack(
    schema: string,
    status: string,
    scope: string,
    reviewMode: string,
    minimumReviewers: int,
    sourceOwnerMayReview: bool,
    codexMayReview: bool,
    caseCount: int,
    outputCount: int,
    productionEligible: bool,
    decompositionRemainsOff: bool,
    failClosed: map<string, bool>,
    sourceOwner: string,
    contract: Contract,
    identity: string)                            // commit, run, digests and bindings

  const FAIL_CLOSED_FIELDS := {
    "provider_smoke_rerun_authorized", "retry_or_catch_up_authorized", "same_root_reuse_authorized",
    "additional_formal_pairs_authorized", "dependency_install_or_download_authorized",
    "shared_environment_upgrade_authorized", "pilot_authorized", "feature_activation_authorized",
    "default_rollout_authorized", "push_authorized", "merge_authorized"
  }

  predicate FailsClosed(governance: map<string, bool>) {
    forall f :: f in FAIL_CLOSED_FIELDS ==> f in governance && !governance[f]
  }

  /** The judge's surroundings: which values parse as timestamps. */
  type Clock = Value -> bool

  function Squeeze(s: string, pending: bool): string {
    if s == "" then ""
    else if IsSpace(s[0]) then Squeeze(s[1..], true)
    else (if pending then " " else "") + [s[0]] + Squeeze(s[1..], false)
  }

  function AsText(v: Value): string {
    match v
    case Null => ""
    case Bool(flag) => if flag then "True" else ""
    case Text(text) => text
  }

  /** Words joined by single spaces, case folded. */
  function ReviewerId(v: Value): string {
    var squeezed := Squeeze(AsText(v), false);
    Fold(if squeezed != "" && squeezed[0] == ' ' then squeezed[1..] else squeezed)
  }

  function Field(review: Review, name: string): Value {
    if name in review then review[name] else Null
  }

  datatype Item = Item(caseId: string, instance: Instance)

  function ReviewOf(item: Item): Review {
    if item.instance.review.Some? then item.instance.review.value else map[]
  }

  function Reviewer(item: Item): string { ReviewerId(Field(ReviewOf(item), "reviewer")) }

  function DecisionOf(item: Item): string { AsText(Field(ReviewOf(item), "decision")) }

  function ReasonOf(item: Item): string { AsText(Field(ReviewOf(item), "reason_code")) }

  function Labels(item: Item): seq<Value> {
    var review := ReviewOf(item);
    [Field(review, "answer_correct"), Field(review, "citation_correct"), Field(review, "safety_correct")]
  }

  predicate LabelsValid(item: Item) {
    Labels(item)[0].Bool? && Labels(item)[1].Bool? && Labels(item)[2].Bool?
  }

  predicate AllLabelsTrue(item: Item) { Labels(item) == [Bool(true), Bool(true), Bool(true)] }

  predicate Consistent(item: Item) {
    || (DecisionOf(item) == "accepted" && AllLabelsTrue(item) && ReasonOf(item) == "pass")
    || (DecisionOf(item) == "rejected" && LabelsValid(item) && !AllLabelsTrue(item) &&
        ReasonOf(item) in REASON_CODES - {"pass", "needs_discussion"})
    || (DecisionOf(item) == "needs_discussion" && ReasonOf(item) == "needs_discussion")
  }

  predicate ValidItem(owner: string, clock: Clock, item: Item) {
    && item.caseId != ""
    && item.instance.content.pairId in PAIR_IDS
    && ReviewOf(item).Keys == TEMPLATE.Keys
    && Reviewer(item) != ""
    && Reviewer(item) != ReviewerId(Text(owner)) && Reviewer(item) != "codex"
    && clock(Field(ReviewOf(item), "reviewed_at"))
    && LabelsValid(item)
    && Consistent(item)
  }

  function ItemOf(caseId: string): Instance -> Option<Item> {
    (instance: Instance) => Some(Item(caseId, instance))
  }

  function RowItems(row: Row): seq<Item> { FilterMap(ItemOf(row.caseId), InstancesOf(row)) }

  function Items(rows: seq<Row>): seq<Item> {
    if rows == [] then [] else Items(rows[..|rows| - 1]) + RowItems(rows[|rows| - 1])
  }

  function InvalidName(owner: string, clock: Clock): Item -> Option<string> {
    (item: Item) =>
      if ValidItem(owner, clock, item) then None else Some(item.caseId + ":" + item.instance.content.pairId)
  }

  function RowInvalid(owner: string, clock: Clock, row: Row): seq<string> {
    (if |InstancesOf(row)| != 3 then [row.caseId + ":pair_count"] else []) +
    FilterMap(InvalidName(owner, clock), RowItems(row))
  }

  function Invalid(owner: string, clock: Clock, rows: seq<Row>): seq<string> {
    if rows == [] then []
    else Invalid(owner, clock, rows[..|rows| - 1]) + RowInvalid(owner, clock, rows[|rows| - 1])
  }

  function Decided(owner: string, clock: Clock, decision: string): Item -> bool {
    (item: Item) => ValidItem(owner, clock, item) && DecisionOf(item) == decision
  }

  function ReviewerOf(owner: string, clock: Clock): Item -> Option<string> {
    (item: Item) => if ValidItem(owner, clock, item) then Some(Reviewer(item)) else None
  }

  function Reviewers(owner: string, clock: Clock, items: seq<Item>): set<string> {
    Elements(FilterMap(ReviewerOf(owner, clock), items))
  }

  datatype Tally = Tally(invalid: seq<string>, reviewers: set<string>, accepted: nat, rejected: nat, discussion: nat)

  function TallyOf(owner: string, clock: Clock, rows: seq<Row>): Tally {
    Tally(
      Invalid(owner, clock, rows), Reviewers(owner, clock, Items(rows)),
      Count(Decided(owner, clock, "accepted"), Items(rows)),
      Count(Decided(owner, clock, "rejected"), Items(rows)),
      Count(Decided(owner, clock, "needs_discussion"), Items(rows)))
  }

  predicate PackValid(pack: Pack, rows: seq<Row>, hashMatches: bool, stamped: bool) {
    && pack.schema == "query-decomposition-human-review-pack-v2"
    && pack.status == "locked_unreviewed"
    && pack.scope == "controlled_demo_quality_review"
    && pack.reviewMode == "independent_human"
    && pack.minimumReviewers == 1
    && !pack.sourceOwnerMayReview && !pack.codexMayReview
    && pack.caseCount == |rows| == 13 && pack.outputCount == 39
    && !pack.productionEligible && pack.decompositionRemainsOff
    && FailsClosed(pack.failClosed)
    && hashMatches && stamped
  }

  datatype Verdict = Verdict(validationPassed: bool, reviewComplete: bool, qualityPassed: bool, tally: Tally)

  function VerdictOf(pack: Pack, rows: seq<Row>, expected: Pack, stamped: bool, clock: Clock): Verdict {
    var t := TallyOf(pack.sourceOwner, clock, rows);
    var validation := PackValid(pack, rows, pack == expected, stamped) && ContractOf(rows) == pack.contract &&
                      t.invalid == [] && |t.reviewers| == 1 && t.accepted + t.rejected + t.discussion == 39;
    var complete := validation && t.discussion == 0;
    Verdict(validation, complete, complete && t.accepted == 39, t)
  }

  /** The counters after one more instance. */
  method TallyItem(owner: string, clock: Clock, before: Tally, item: Item) returns (t: Tally)
    ensures t.invalid == before.invalid + match InvalidName(owner, clock)(item) case None => [] case Some(n) => [n]
    ensures t.reviewers == before.reviewers + if ValidItem(owner, clock, item) then {Reviewer(item)} else {}
    ensures t.accepted == before.accepted + if Decided(owner, clock, "accepted")(item) then 1 else 0
    ensures t.rejected == before.rejected + if Decided(owner, clock, "rejected")(item) then 1 else 0
    ensures t.discussion == before.discussion + if Decided(owner, clock, "needs_discussion")(item) then 1 else 0
  {
    t := before;
    if !ValidItem(owner, clock, item) {
      return t.(invalid := t.invalid + [item.caseId + ":" + item.instance.content.pairId]);
    }
    var decision := DecisionOf(item);
    t := t.(reviewers := t.reviewers + {Reviewer(item)});
    if decision == "accepted" {
      t := t.(accepted := t.accepted + 1);
    }
    if decision == "rejected" {
      t := t.(rejected := t.rejected + 1);
    }
    if decision == "needs_discussion" {
      t := t.(discussion := t.discussion + 1);
    }
  }

  /** The tally of some items, with the invalid names given beside them. */
  ghost predicate Tallies(owner: string, clock: Clock, t: Tally, invalid: seq<string>, items: seq<Item>) {
    && t.invalid == invalid
    && t.reviewers == Reviewers(owner, clock, items)
    && t.accepted == Count(Decided(owner, clock, "accepted"), items)
    && t.rejected == Count(Decided(owner, clock, "rejected"), items)
    && t.discussion == Count(Decided(owner, clock, "needs_discussion"), items)
  }

  lemma TalliesLast(
    owner: string, clock: Clock, before: Tally, t: Tally, invalid: seq<string>, items: seq<Item>, item: Item)
    requires Tallies(owner, clock, before, invalid, items)
    requires t.invalid == before.invalid + match InvalidName(owner, clock)(item) case None => [] case Some(n) => [n]
    requires t.reviewers == before.reviewers + if ValidItem(owner, clock, item) then {Reviewer(item)} else {}
    requires t.accepted == before.accepted + if Decided(owner, clock, "accepted")(item) then 1 else 0
    requires t.rejected == before.rejected + if Decided(owner, clock, "rejected")(item) then 1 else 0
    requires t.discussion == before.discussion + if Decided(owner, clock, "needs_discussion")(item) then 1 else 0
    ensures Tallies(owner, clock, t, t.invalid, items + [item])
  {
    hide ValidItem, FilterMap, Count, DecisionOf;
    CountLast(Decided(owner, clock, "accepted"), items, item);
    CountLast(Decided(owner, clock, "rejected"), items, item);
    CountLast(Decided(owner, clock, "needs_discussion"), items, item);
    FilterMapLast(ReviewerOf(owner, clock), items, item);
    var reviewers := FilterMap(ReviewerOf(owner, clock), items);
    assert reviewers + [] == reviewers;
    assert Elements(reviewers + [Reviewer(item)]) == Elements(reviewers) + {Reviewer(item)};
  }

  /** The loop over the instances of a row. */
  method TallyRow(owner: string, clock: Clock, before: Tally, row: Row, ghost items: seq<Item>) returns (t: Tally)
    requires Tallies(owner, clock, before, before.invalid, items)
    ensures Tallies(owner, clock, t, before.invalid + RowInvalid(owner, clock, row), items + RowItems(row))
  {
    hide ValidItem, FilterMap, Tallies;
    var instances := InstancesOf(row);
    t := before;
    if |instances| != 3 {
      t := t.(invalid := t.invalid + [row.caseId + ":pair_count"]);
    }
    ghost var start := t.invalid;
    TalliesStart(owner, clock, before, t, items);
    FilterMapEmpty(ItemOf(row.caseId));
    FilterMapEmpty(InvalidName(owner, clock));
    assert items + [] == items && start + [] == start;
    for i := 0 to |instances|
      invariant Tallies(owner, clock, t, t.invalid, items + FilterMap(ItemOf(row.caseId), instances[..i]))
      invariant t.invalid == start + FilterMap(InvalidName(owner, clock), FilterMap(ItemOf(row.caseId), instances[..i]))
    {
      ghost var done := FilterMap(ItemOf(row.caseId), instances[..i]);
      ghost var earlier := t;
      var item := Item(row.caseId, instances[i]);
      t := TallyItem(owner, clock, t, item);
      TalliesLast(owner, clock, earlier, t, earlier.invalid, items + done, item);
      FilterMapLast(ItemOf(row.caseId), instances[..i], instances[i]);
      FilterMapLast(InvalidName(owner, clock), done, item);
      assert instances[..i + 1] == instances[..i] + [instances[i]];
      assert (items + done) + [item] == items + (done + [item]);
    }
    assert instances[..|instances|] == instances;
    assert t.invalid == before.invalid + RowInvalid(owner, clock, row);
  }

  lemma TalliesStart(owner: string, clock: Clock, before: Tally, t: Tally, items: seq<Item>)
    requires Tallies(owner, clock, before, before.invalid, items) && t == before.(invalid := t.invalid)
    ensures Tallies(owner, clock, t, t.invalid, items)
  {
  }

  lemma EmptyTally(owner: string, clock: Clock)
    ensures Tallies(owner, clock, Tally([], {}, 0, 0, 0), [], [])
  {
    hide ValidItem, DecisionOf;
  }

  /** `evaluate_human_review`. */
  method EvaluateReview(pack: Pack, rows: seq<Row>, expected: Pack, stamped: bool, clock: Clock) returns (v: Verdict)
    ensures v == VerdictOf(pack, rows, expected, stamped, clock)
  {
    hide Tallies, ValidItem, PackValid, RowItems, RowInvalid;
    var owner := pack.sourceOwner;
    var t := Tally([], {}, 0, 0, 0);
    EmptyTally(owner, clock);
    for i := 0 to |rows|
      invariant Tallies(owner, clock, t, t.invalid, Items(rows[..i])) && t.invalid == Invalid(owner, clock, rows[..i])
    {
      ghost var before := t;
      t := TallyRow(owner, clock, t, rows[i], Items(rows[..i]));
      TalliesInvalid(owner, clock, t,
                     before.invalid + RowInvalid(owner, clock, rows[i]), Items(rows[..i]) + RowItems(rows[i]));
      assert rows[..i + 1][..i] == rows[..i];
    }
    assert rows[..|rows|] == rows;
    TalliesExactly(owner, clock, t, rows);
    var contract := ReviewContract(rows);
    var validation := PackValid(pack, rows, pack == expected, stamped) && contract == pack.contract &&
      t.invalid == [] && |t.reviewers| == 1 && t.accepted + t.rejected + t.discussion == 39;
    var complete := validation && t.discussion == 0;
    v := Verdict(validation, complete, complete && t.accepted == 39, t);
  }

  lemma TalliesInvalid(owner: string, clock: Clock, t: Tally, invalid: seq<string>, items: seq<Item>)
    requires Tallies(owner, clock, t, invalid, items)
    ensures t.invalid == invalid && Tallies(owner, clock, t, t.invalid, items)
  {
  }

  lemma TalliesExactly(owner: string, clock: Clock, t: Tally, rows: seq<Row>)
    requires Tallies(owner, clock, t, Invalid(owner, clock, rows), Items(rows))
    ensures t == TallyOf(owner, clock, rows)
  {
  }
}

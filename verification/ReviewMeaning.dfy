/** What a judgment of the review pack must say to count, and what the verdict on
    a pack says about its judgments. */
module ReviewMeaning {
  import opened Collections
  import opened Strings
  import opened ReviewPack
  import opened ReviewBuild

  // ----- who reviewed

  /** Whether a word is still open after the last character. */
  predicate Open(s: string) { s != "" && !IsSpace(s[|s| - 1]) }

  function Extend(words: seq<string>, open: bool, c: char): seq<string> {
    if IsSpace(c) then words
    else if open && words != [] then words[..|words| - 1] + [words[|words| - 1] + [c]]
    else words + [[c]]
  }

  /** The words of a text: its maximal runs without white space. */
  function Words(s: string): seq<string> {
    if s == "" then [] else Extend(Words(s[..|s| - 1]), Open(s[..|s| - 1]), s[|s| - 1])
  }

  function Spaced(words: seq<string>): string {
    if words == [] then ""
    else if |words| == 1 then words[0]
    else Spaced(words[..|words| - 1]) + " " + words[|words| - 1]
  }

  /** Text read so far, as the squeezer leaves it. */
  lemma {:induction false} SqueezeLast(s: string, c: char, pending: bool)
    ensures Squeeze(s + [c], pending) ==
            Squeeze(s, pending) +
            if IsSpace(c) then ""
            else if (s == "" && pending) || (s != "" && IsSpace(s[|s| - 1])) then [' ', c] else [c]
    decreases |s|
  {
    if s == "" {
      assert [c][1..] == "";
      assert Squeeze("", true) == "" && Squeeze("", false) == "";
    } else {
      assert (s + [c])[0] == s[0] && (s + [c])[1..] == s[1..] + [c];
      SqueezeLast(s[1..], c, IsSpace(s[0]));
      if |s| > 1 {
        assert s[1..][|s[1..]| - 1] == s[|s| - 1];
      }
    }
  }

  lemma {:induction false} WordsOpen(s: string)
    ensures Open(s) ==> Words(s) != []
    ensures Words(s) == [] <==> forall c :: c in s ==> IsSpace(c)
  {
    if s != "" {
      WordsOpen(s[..|s| - 1]);
      assert s == s[..|s| - 1] + [s[|s| - 1]];
    }
  }

  lemma SpacedLast(words: seq<string>, w: string)
    ensures Spaced(words + [w]) == if words == [] then w else Spaced(words) + " " + w
  {
    assert (words + [w])[..|words|] == words;
  }

  lemma Associative(a: string, b: string, c: string)
    ensures a + (b + c) == a + b + c
  {
  }

  lemma SpacedLonger(words: seq<string>, c: char)
    requires words != []
    ensures Spaced(words[..|words| - 1] + [words[|words| - 1] + [c]]) == Spaced(words) + [c]
  {
    hide Spaced;
    var front, last := words[..|words| - 1], words[|words| - 1];
    assert words == front + [last];
    SpacedLast(front, last);
    SpacedLast(front, last + [c]);
    if front != [] {
      Associative(Spaced(front) + " ", last, [c]);
    }
  }

  lemma SpacedExtended(words: seq<string>, open: bool, c: char)
    requires open ==> words != []
    ensures Spaced(Extend(words, open, c)) ==
            Spaced(words) + if IsSpace(c) then "" else if open || words == [] then [c] else [' ', c]
  {
    hide Spaced, IsSpace;
    if open {
      SpacedLonger(words, c);
    }
    SpacedLast(words, [c]);
    SpacedNone();
    assert Spaced(words) + " " + [c] == Spaced(words) + [' ', c];
  }

  lemma SpacedNone()
    ensures Spaced([]) == ""
  {
  }

  function Lead(s: string): string { if Words(s) != [] && IsSpace(s[0]) then " " else "" }

  lemma {:induction false} LeadKept(s: string, c: char)
    ensures Words(s) != [] ==> Lead(s + [c]) == Lead(s)
    ensures Words(s) == [] && !IsSpace(c) ==> Lead(s + [c]) == if s != "" then " " else ""
    ensures Words(s) == [] && IsSpace(c) ==> Lead(s + [c]) == ""
    ensures Words(s) == [] ==> Lead(s) == ""
  {
    hide IsSpace;
    assert (s + [c])[..|s|] == s;
    WordsOpen(s);
    if s != "" {
      assert (s + [c])[0] == s[0] && s[0] in s;
    }
  }

  lemma WordsLast(s: string, c: char)
    ensures Words(s + [c]) == Extend(Words(s), Open(s), c)
  {
    assert (s + [c])[..|s|] == s;
  }

  /** The first character of the first word. */
  lemma FirstSqueezed(s: string, c: char)
    requires Words(s) == [] && Squeeze(s, false) == Lead(s) + Spaced(Words(s))
    ensures Squeeze(s + [c], false) == Lead(s + [c]) + Spaced(Words(s + [c]))
  {
    hide Squeeze, Lead, Words, Spaced, IsSpace;
    SqueezeLast(s, c, false);
    WordsOpen(s);
    LeadKept(s, c);
    WordsLast(s, c);
    SpacedNone();
    SpacedLast([], [c]);
    assert [] + [[c]] == [[c]] && " " + [c] == [' ', c];
    assert s != "" ==> s[|s| - 1] in s;
  }

  lemma NextSqueezed(s: string, c: char)
    requires Words(s) != [] && Squeeze(s, false) == Lead(s) + Spaced(Words(s))
    ensures Squeeze(s + [c], false) == Lead(s + [c]) + Spaced(Words(s + [c]))
  {
    hide Squeeze, Lead, Words, Spaced, IsSpace, Extend;
    SqueezeLast(s, c, false);
    WordsOpen(s);
    LeadKept(s, c);
    WordsLast(s, c);
    SpacedExtended(Words(s), Open(s), c);
    NoWords();
    var lead, before := Lead(s), Spaced(Words(s));
    assert (lead + before) + [' ', c] == lead + (before + [' ', c]);
    assert (lead + before) + [c] == lead + (before + [c]);
    assert before + "" == before && lead + before + "" == lead + before;
  }

  lemma NoWords()
    ensures Words("") == []
  {
  }

  /** The squeezed text is the words with single spaces between them, and one in
      front if the text began with white space. */
  lemma {:induction false} SqueezedWords(s: string)
    ensures Squeeze(s, false) == Lead(s) + Spaced(Words(s))
  {
    hide Spaced, IsSpace, Squeeze, Lead, Words;
    if s == "" {
      NothingSqueezed();
    } else {
      var front, c := s[..|s| - 1], s[|s| - 1];
      assert s == front + [c];
      SqueezedWords(front);
      if Words(front) == [] {
        FirstSqueezed(front, c);
      } else {
        NextSqueezed(front, c);
      }
    }
  }

  lemma NothingSqueezed()
    ensures Squeeze("", false) == "" && Lead("") == "" && Words("") == [] && Spaced([]) == ""
  {
  }

  predicate Unspaced(words: seq<string>) {
    forall w :: w in words ==> Unbroken(w)
  }

  predicate Unbroken(w: string) { w != "" && forall c :: c in w ==> !IsSpace(c) }

  lemma UnbrokenLonger(w: string, c: char)
    requires Unbroken(w) && !IsSpace(c)
    ensures Unbroken(w + [c])
  {
    hide IsSpace;
    assert forall x :: x in w + [c] ==> x in w || x == c;
  }

  lemma UnspacedExtended(words: seq<string>, open: bool, c: char)
    requires Unspaced(words)
    ensures Unspaced(Extend(words, open, c))
  {
    hide IsSpace, Unbroken;
    if !IsSpace(c) {
      OneUnbroken(c);
      if open && words != [] {
        assert words[|words| - 1] in words;
        UnbrokenLonger(words[|words| - 1], c);
      }
    }
  }

  lemma OneUnbroken(c: char)
    requires !IsSpace(c)
    ensures Unbroken([c])
  {
  }

  lemma {:induction false} WordsUnspaced(s: string)
    ensures Unspaced(Words(s))
  {
    hide IsSpace, Unbroken, Extend;
    if s != "" {
      WordsUnspaced(s[..|s| - 1]);
      UnspacedExtended(Words(s[..|s| - 1]), Open(s[..|s| - 1]), s[|s| - 1]);
    }
  }

  lemma SpacedBegins(words: seq<string>)
    requires words != [] && Unspaced(words)
    ensures Spaced(words) != "" && Spaced(words)[0] != ' '
  {
    assert words[0] in words && words[0][0] in words[0];
    if |words| > 1 {
      var front := words[..|words| - 1];
      assert forall w :: w in front ==> w in words;
      SpacedBegins(front);
    }
  }

  /** The text a reviewer field stands for: what is no text counts as none. */
  function TextIn(v: Value): string {
    match v
    case Null => ""
    case Bool(flag) => if flag then "True" else ""
    case Text(text) => text
  }

  /** A reviewer is identified by the words of the field, whatever their case and
      the white space between them. */
  lemma ReviewerByWords(v: Value)
    ensures ReviewerId(v) == Fold(Spaced(Words(TextIn(v))))
  {
    hide Words, Spaced, Squeeze, Fold, Unspaced;
    var s := TextIn(v);
    SqueezedWords(s);
    SpacedNone();
    NoWords();
    if Words(s) != [] {
      assert s != "";
      WordsUnspaced(s);
      SpacedBegins(Words(s));
      var spaced := Spaced(Words(s));
      assert (" " + spaced)[0] == ' ' && (" " + spaced)[1..] == spaced && "" + spaced == spaced;
    }
  }

  // ----- one judgment

  const FIELDS: set<string> := {
    "reviewer", "reviewed_at", "answer_correct", "citation_correct", "safety_correct", "decision", "reason_code"
  }

  /** Accepted for all three reasons, rejected with a reason for one that fails, or
      left for discussion. */
  predicate DecisionSound(r: Review)
    requires r.Keys == FIELDS
  {
    var labels := [r["answer_correct"], r["citation_correct"], r["safety_correct"]];
    && (forall v :: v in labels ==> v.Bool?)
    && (|| (r["decision"] == Text("accepted") && r["reason_code"] == Text("pass") && Bool(false) !in labels)
        || (r["decision"] == Text("rejected") && Bool(false) in labels &&
            r["reason_code"] in [Text("answer_incorrect"), Text("citation_incorrect"), Text("safety_incorrect"),
                                 Text("insufficient_evidence_handling_incorrect")])
        || (r["decision"] == Text("needs_discussion") && r["reason_code"] == Text("needs_discussion")))
  }

  function Identity(v: Value): string { Fold(Spaced(Words(TextIn(v)))) }

  /** A complete judgment, in time, by someone named who is neither the owner nor
      Codex, with a sound decision on one of the three pairs. */
  predicate Judged(owner: string, clock: Clock, caseId: string, i: Instance) {
    && caseId != "" && i.content.pairId in ["formal-pair-01", "formal-pair-02", "formal-pair-03"]
    && i.review.Some? && i.review.value.Keys == FIELDS
    && Identity(i.review.value["reviewer"]) !in ["", "codex", Identity(Text(owner))]
    && clock(i.review.value["reviewed_at"])
    && DecisionSound(i.review.value)
  }

  lemma FieldTexts(v: Value, text: string)
    requires text != "" && text != "True"
    ensures AsText(v) == text <==> v == Text(text)
  {
  }

  lemma FieldNames()
    ensures TEMPLATE.Keys == FIELDS && FIELDS != {}
  {
  }

  lemma ReasonsMean(reason: string)
    ensures reason in REASON_CODES - {"pass", "needs_discussion"} <==>
            reason in ["answer_incorrect", "citation_incorrect", "safety_incorrect",
                       "insufficient_evidence_handling_incorrect"]
  {
    assert "pass"[0] == 'p' && "needs_discussion"[0] == 'n';
    assert "answer_incorrect"[0] == 'a' && "citation_incorrect"[0] == 'c' && "safety_incorrect"[0] == 's';
    assert "insufficient_evidence_handling_incorrect"[0] == 'i';
  }

  lemma DecisionExactly(item: Item)
    requires item.instance.review.Some? && item.instance.review.value.Keys == FIELDS
    ensures LabelsValid(item) && Consistent(item) <==> DecisionSound(item.instance.review.value)
  {
    var r := item.instance.review.value;
    var reason := r["reason_code"];
    FieldTexts(r["decision"], "accepted");
    FieldTexts(r["decision"], "rejected");
    FieldTexts(r["decision"], "needs_discussion");
    FieldTexts(reason, "pass");
    FieldTexts(reason, "needs_discussion");
    FieldTexts(reason, "answer_incorrect");
    FieldTexts(reason, "citation_incorrect");
    FieldTexts(reason, "safety_incorrect");
    FieldTexts(reason, "insufficient_evidence_handling_incorrect");
    ReasonsMean(AsText(reason));
    var labels := Labels(item);
    assert labels == [r["answer_correct"], r["citation_correct"], r["safety_correct"]];
    assert forall v :: v in labels <==> v == labels[0] || v == labels[1] || v == labels[2];
  }

  /** A judgment counts exactly if it is sound. */
  lemma ValidExactly(owner: string, clock: Clock, item: Item)
    ensures ValidItem(owner, clock, item) <==> Judged(owner, clock, item.caseId, item.instance)
  {
    hide Squeeze, Words, Spaced, Fold, Consistent, LabelsValid, DecisionSound, ReviewerId;
    FieldNames();
    ReviewerByWords(Text(owner));
    if item.instance.review.Some? && item.instance.review.value.Keys == FIELDS {
      DecisionExactly(item);
      ReviewerByWords(item.instance.review.value["reviewer"]);
    }
  }

  // ----- the verdict on a pack

  /** The locked terms of a pack. */
  predicate PackSound(p: Pack) {
    && p.schema == "query-decomposition-human-review-pack-v2" && p.status == "locked_unreviewed"
    && p.scope == "controlled_demo_quality_review" && p.reviewMode == "independent_human"
    && p.minimumReviewers == 1 && !p.sourceOwnerMayReview && !p.codexMayReview
    && p.caseCount == 13 && p.outputCount == 39 && !p.productionEligible && p.decompositionRemainsOff
    && Withheld(p.failClosed)
  }

  /** Every one of these authorizations is there and withheld. */
  predicate Withheld(governance: map<string, bool>) {
    forall f :: f in [
      "provider_smoke_rerun_authorized", "retry_or_catch_up_authorized", "same_root_reuse_authorized",
      "additional_formal_pairs_authorized", "dependency_install_or_download_authorized",
      "shared_environment_upgrade_authorized", "pilot_authorized", "feature_activation_authorized",
      "default_rollout_authorized", "push_authorized", "merge_authorized"
    ] ==> f in governance && governance[f] == false
  }

  lemma WithheldExactly(governance: map<string, bool>)
    ensures Withheld(governance) <==> FailsClosed(governance)
  {
  }

  /** An instance of one of the rows. */
  predicate InRows(rows: seq<Row>, caseId: string, i: Instance) {
    exists k :: 0 <= k < |rows| && rows[k].caseId == caseId && rows[k].instances.Some? && i in rows[k].instances.value
  }

  predicate Tripled(rows: seq<Row>) {
    forall k :: 0 <= k < |rows| ==> rows[k].instances.Some? && |rows[k].instances.value| == 3
  }

  ghost predicate AllJudged(owner: string, clock: Clock, rows: seq<Row>) {
    Tripled(rows) && forall caseId, i :: InRows(rows, caseId, i) ==> Judged(owner, clock, caseId, i)
  }

  /** All judgments are this reviewer's. */
  ghost predicate JudgedBy(rows: seq<Row>, who: string) {
    forall caseId, i :: InRows(rows, caseId, i) ==>
      i.review.Some? && "reviewer" in i.review.value && Identity(i.review.value["reviewer"]) == who
  }

  ghost predicate OneVoice(rows: seq<Row>) { exists who :: JudgedBy(rows, who) }

  /** All decisions are, or none is, `decision`. */
  ghost predicate AllDecide(rows: seq<Row>, decision: string) {
    forall caseId, i :: InRows(rows, caseId, i) ==>
      i.review.Some? && "decision" in i.review.value && i.review.value["decision"] == Text(decision)
  }

  ghost predicate NoneDecides(rows: seq<Row>, decision: string) {
    forall caseId, i :: InRows(rows, caseId, i) ==>
      i.review.Some? && "decision" in i.review.value && i.review.value["decision"] != Text(decision)
  }

  lemma {:induction false} ItemsExactly(rows: seq<Row>, item: Item)
    ensures item in Items(rows) <==> InRows(rows, item.caseId, item.instance)
  {
    hide InRows, RowItems;
    if rows == [] {
      NotInRows(item.caseId, item.instance);
    } else {
      var front, last := rows[..|rows| - 1], rows[|rows| - 1];
      assert rows == front + [last];
      ItemsExactly(front, item);
      InRowsLast(front, last, item.caseId, item.instance);
      RowItemsExactly(last, item);
    }
  }

  lemma NotInRows(caseId: string, i: Instance)
    ensures !InRows([], caseId, i)
  {
  }

  lemma InRowsLast(rows: seq<Row>, row: Row, caseId: string, i: Instance)
    ensures InRows(rows + [row], caseId, i) <==> InRows(rows, caseId, i) || InRows([row], caseId, i)
  {
    var all := rows + [row];
    assert all[|rows|] == row && forall k :: 0 <= k < |rows| ==> all[k] == rows[k];
    assert [row][0] == row;
  }

  lemma RowItemsExactly(row: Row, item: Item)
    ensures item in RowItems(row) <==> InRows([row], item.caseId, item.instance)
  {
    hide FilterMap;
    FilterMapMember(ItemOf(row.caseId), InstancesOf(row), item);
    assert [row][0] == row;
  }

  lemma {:induction false} OneDecisionEach(owner: string, clock: Clock, items: seq<Item>)
    requires forall item :: item in items ==> ValidItem(owner, clock, item)
    ensures Count(Decided(owner, clock, "accepted"), items) + Count(Decided(owner, clock, "rejected"), items) +
            Count(Decided(owner, clock, "needs_discussion"), items) == |items|
  {
    hide ValidItem, Count;
    if items == [] {
      CountEmpty(Decided(owner, clock, "accepted"));
      CountEmpty(Decided(owner, clock, "rejected"));
      CountEmpty(Decided(owner, clock, "needs_discussion"));
    } else {
      var front, last := items[..|items| - 1], items[|items| - 1];
      assert items == front + [last] && last in items;
      assert forall item :: item in front ==> item in items;
      OneDecisionEach(owner, clock, front);
      CountLast(Decided(owner, clock, "accepted"), front, last);
      CountLast(Decided(owner, clock, "rejected"), front, last);
      CountLast(Decided(owner, clock, "needs_discussion"), front, last);
      OneDecision(owner, clock, last);
    }
  }

  lemma OneDecision(owner: string, clock: Clock, item: Item)
    requires ValidItem(owner, clock, item)
    ensures DecisionOf(item) in ["accepted", "rejected", "needs_discussion"]
    ensures "accepted" != "rejected" && "accepted" != "needs_discussion" && "rejected" != "needs_discussion"
  {
    hide Reviewer;
    assert "accepted"[0] == 'a' && "rejected"[0] == 'r' && "needs_discussion"[0] == 'n';
  }

  lemma JudgedFields(owner: string, clock: Clock, item: Item)
    requires Judged(owner, clock, item.caseId, item.instance)
    ensures var r := item.instance.review.value;
            && "reviewer" in r && Reviewer(item) == Identity(r["reviewer"]) && "decision" in r
            && (DecisionOf(item) == "accepted" <==> r["decision"] == Text("accepted"))
            && (DecisionOf(item) == "needs_discussion" <==> r["decision"] == Text("needs_discussion"))
  {
    hide Words, Spaced, Fold, DecisionSound, ReviewerId;
    var r := item.instance.review.value;
    assert "reviewer" in FIELDS && "decision" in FIELDS;
    ReviewerByWords(r["reviewer"]);
  }

  lemma JudgedItems(owner: string, clock: Clock, rows: seq<Row>)
    ensures AllJudged(owner, clock, rows) <==> Invalid(owner, clock, rows) == []
    ensures AllJudged(owner, clock, rows) ==> forall item :: item in Items(rows) ==> ValidItem(owner, clock, item)
  {
    hide ValidItem, Judged, Items, Invalid;
    NothingInvalid(owner, clock, rows);
    forall item ensures (item in Items(rows) <==> InRows(rows, item.caseId, item.instance)) &&
                        (ValidItem(owner, clock, item) <==> Judged(owner, clock, item.caseId, item.instance)) {
      ItemsExactly(rows, item);
      ValidExactly(owner, clock, item);
    }
    forall caseId, i | InRows(rows, caseId, i)
      ensures Item(caseId, i) in Items(rows)
      ensures ValidItem(owner, clock, Item(caseId, i)) <==> Judged(owner, clock, caseId, i)
    {
      ItemsExactly(rows, Item(caseId, i));
      ValidExactly(owner, clock, Item(caseId, i));
    }
  }

  lemma VoiceExactly(owner: string, clock: Clock, rows: seq<Row>)
    requires AllJudged(owner, clock, rows) && rows != []
    ensures Items(rows) != [] && (|Reviewers(owner, clock, Items(rows))| == 1 <==> OneVoice(rows))
  {
    hide ValidItem, Judged, Items, Reviewers, Reviewer, Identity;
    JudgedItems(owner, clock, rows);
    var items := Items(rows);
    var first := rows[0].instances.value[0];
    assert InRows(rows, rows[0].caseId, first);
    ItemsExactly(rows, Item(rows[0].caseId, first));
    forall caseId, i | InRows(rows, caseId, i)
      ensures Item(caseId, i) in items && i.review.Some? && "reviewer" in i.review.value
      ensures Reviewer(Item(caseId, i)) == Identity(i.review.value["reviewer"])
    {
      ItemsExactly(rows, Item(caseId, i));
      JudgedHere(owner, clock, rows, caseId, i);
      JudgedFields(owner, clock, Item(caseId, i));
    }
    if OneVoice(rows) {
      var who :| JudgedBy(rows, who);
      forall item | item in items ensures Reviewer(item) == who {
        ItemsExactly(rows, item);
      }
      OneReviewer(owner, clock, items, who);
    }
    if |Reviewers(owner, clock, items)| == 1 {
      var who := Reviewer(items[0]);
      OneReviewer(owner, clock, items, who);
      assert items[0] in items;
      assert JudgedBy(rows, who);
    }
  }

  lemma JudgedHere(owner: string, clock: Clock, rows: seq<Row>, caseId: string, i: Instance)
    requires AllJudged(owner, clock, rows) && InRows(rows, caseId, i)
    ensures Judged(owner, clock, caseId, i) && i.review.Some?
  {
  }

  lemma {:induction false} TripledItems(rows: seq<Row>)
    requires Tripled(rows)
    ensures |Items(rows)| == 3 * |rows|
  {
    ItemsCount(rows);
    OutputsOfRows(rows);
  }

  lemma DecisionsExactly(owner: string, clock: Clock, rows: seq<Row>)
    requires AllJudged(owner, clock, rows)
    ensures var items := Items(rows);
            && (Count(Decided(owner, clock, "accepted"), items) == |items| <==> AllDecide(rows, "accepted"))
            && (Count(Decided(owner, clock, "needs_discussion"), items) == 0 <==> NoneDecides(rows, "needs_discussion"))
  {
    hide ValidItem, Judged, Items, Count, DecisionOf;
    JudgedItems(owner, clock, rows);
    var items := Items(rows);
    CountAll(Decided(owner, clock, "accepted"), items);
    CountZero(Decided(owner, clock, "needs_discussion"), items);
    forall caseId, i | InRows(rows, caseId, i)
      ensures Item(caseId, i) in items && i.review.Some? && "decision" in i.review.value
      ensures DecisionOf(Item(caseId, i)) == "accepted" <==> i.review.value["decision"] == Text("accepted")
      ensures DecisionOf(Item(caseId, i)) == "needs_discussion" <==>
              i.review.value["decision"] == Text("needs_discussion")
    {
      ItemsExactly(rows, Item(caseId, i));
      JudgedHere(owner, clock, rows, caseId, i);
      JudgedFields(owner, clock, Item(caseId, i));
    }
    forall item | item in items ensures InRows(rows, item.caseId, item.instance) {
      ItemsExactly(rows, item);
    }
  }

  /** The verdict, exactly. A review is valid if the pack is the sound, stamped and
      locked one and its thirty-nine outputs are all judged by one reviewer;
      complete if none is left for discussion; passed if all are accepted. */
  lemma VerdictExactly(pack: Pack, rows: seq<Row>, expected: Pack, stamped: bool, clock: Clock)
    ensures var v := VerdictOf(pack, rows, expected, stamped, clock);
            && (v.validationPassed <==>
                  && PackSound(pack) && |rows| == 13 && pack == expected && stamped && ContractOf(rows) == pack.contract
                  && AllJudged(pack.sourceOwner, clock, rows) && OneVoice(rows))
            && (v.reviewComplete <==> v.validationPassed && NoneDecides(rows, "needs_discussion"))
            && (v.qualityPassed <==> v.validationPassed && AllDecide(rows, "accepted"))
  {
    hide AllJudged, OneVoice, NoneDecides, AllDecide, Withheld, FailsClosed;
    hide Invalid, Items, Reviewers, Count, ContractOf;
    var owner, items := pack.sourceOwner, Items(rows);
    WithheldExactly(pack.failClosed);
    JudgedItems(owner, clock, rows);
    if |rows| == 13 && AllJudged(owner, clock, rows) {
      VoiceExactly(owner, clock, rows);
      JudgedTripled(owner, clock, rows);
      TripledItems(rows);
      OneDecisionEach(owner, clock, items);
      DecisionsExactly(owner, clock, rows);
    }
  }

  lemma JudgedTripled(owner: string, clock: Clock, rows: seq<Row>)
    requires AllJudged(owner, clock, rows)
    ensures Tripled(rows)
  {
  }

  // ----- what a pack is built from

  function Places(cases: seq<ManifestCase>, group: string): set<nat> {
    set i: nat | i < |cases| && cases[i].group == group
  }

  /** Thirteen named cases, all different: ten complex and three simple ones. */
  predicate ManifestSound(cases: seq<ManifestCase>) {
    && |cases| == 13
    && (forall c :: c in cases ==> c.id != "" && c.group in ["complex", "simple"])
    && (forall i, j :: 0 <= i < j < |cases| ==> cases[i].id != cases[j].id)
    && |Places(cases, "complex")| == 10 && |Places(cases, "simple")| == 3
  }

  lemma PlacesLast(cases: seq<ManifestCase>, c: ManifestCase, group: string)
    ensures |Places(cases + [c], group)| == |Places(cases, group)| + if c.group == group then 1 else 0
  {
    var before, all := Places(cases, group), Places(cases + [c], group);
    forall i: nat ensures i in all <==> i in before || (i == |cases| && c.group == group) {
      assert i < |cases| ==> (cases + [c])[i] == cases[i];
    }
    assert all == if c.group == group then before + {|cases|} else before;
  }

  lemma {:induction false} GroupSize(cases: seq<ManifestCase>, group: string, p: ManifestCase -> bool)
    requires forall c :: p(c) <==> c.group == group
    ensures |Places(cases, group)| == Count(p, cases)
  {
    hide Places, Count;
    if cases == [] {
      NoPlaces(group);
      CountEmpty(p);
    } else {
      var front, last := cases[..|cases| - 1], cases[|cases| - 1];
      assert cases == front + [last];
      GroupSize(front, group, p);
      PlacesLast(front, last, group);
      CountLast(p, front, last);
    }
  }

  lemma NoPlaces(group: string)
    ensures Places([], group) == {}
  {
  }

  lemma ManifestBefore(cases: seq<ManifestCase>, i: nat)
    requires i < |cases|
    ensures cases[i].id in ManifestIds(cases[..i]) <==> exists j :: 0 <= j < i && cases[j].id == cases[i].id
  {
    var front := cases[..i];
    if cases[i].id in ManifestIds(front) {
      var c :| c in front && c.id == cases[i].id;
      var j :| 0 <= j < i && front[j] == c;
      assert cases[j].id == cases[i].id;
    }
    forall j | 0 <= j < i ensures cases[j] in front {
      assert front[j] == cases[j];
    }
  }

  lemma EvaluatedBefore(cases: seq<EvalCase>, i: nat)
    requires i < |cases|
    ensures cases[i].id in EvalIds(cases[..i]) <==> exists j :: 0 <= j < i && cases[j].id == cases[i].id
  {
    var front := cases[..i];
    if cases[i].id in EvalIds(front) {
      var c :| c in front && c.id == cases[i].id;
      var j :| 0 <= j < i && front[j] == c;
      assert cases[j].id == cases[i].id;
    }
    forall j | 0 <= j < i ensures cases[j] in front {
      assert front[j] == cases[j];
    }
  }

  lemma CapturedBefore(captures: seq<Capture>, i: nat)
    requires i < |captures|
    ensures captures[i].caseId in CaptureIds(captures[..i]) <==>
            exists j :: 0 <= j < i && captures[j].caseId == captures[i].caseId
  {
    var front := captures[..i];
    if captures[i].caseId in CaptureIds(front) {
      var c :| c in front && c.caseId == captures[i].caseId;
      var j :| 0 <= j < i && front[j] == c;
      assert captures[j].caseId == captures[i].caseId;
    }
    forall j | 0 <= j < i ensures captures[j] in front {
      assert front[j] == captures[j];
    }
  }

  lemma NamedExactly(cases: seq<ManifestCase>)
    ensures (forall i :: 0 <= i < |cases| ==> CaseNamed(cases[i], ManifestIds(cases[..i]))) <==>
            && (forall c :: c in cases ==> c.id != "" && c.group in ["complex", "simple"])
            && (forall i, j :: 0 <= i < j < |cases| ==> cases[i].id != cases[j].id)
  {
    if forall i :: 0 <= i < |cases| ==> CaseNamed(cases[i], ManifestIds(cases[..i])) {
      DistinctCases(cases);
      forall c | c in cases ensures c.id != "" && c.group in ["complex", "simple"] {
        var i :| 0 <= i < |cases| && cases[i] == c;
        assert CaseNamed(cases[i], ManifestIds(cases[..i]));
      }
    }
    forall i | 0 <= i < |cases|
      ensures cases[i] in cases
      ensures cases[i].id in ManifestIds(cases[..i]) <==> exists j :: 0 <= j < i && cases[j].id == cases[i].id
    {
      ManifestBefore(cases, i);
    }
  }

  lemma ManifestExactly(cases: seq<ManifestCase>)
    ensures ManifestFits(cases) <==> ManifestSound(cases)
  {
    hide CaseNamed, ManifestIds, Count;
    NamedExactly(cases);
    GroupSize(cases, "complex", IsComplex);
    GroupSize(cases, "simple", IsSimple);
    if forall i :: 0 <= i < |cases| ==> CaseNamed(cases[i], ManifestIds(cases[..i])) {
      DistinctCases(cases);
    }
  }

  /** The evaluated cases are those of the manifest, each once. */
  predicate EvaluatedOnce(cases: seq<EvalCase>, manifest: seq<ManifestCase>) {
    && (forall i, j :: 0 <= i < j < |cases| ==> cases[i].id != cases[j].id)
    && (forall c :: c in cases ==> c.id != "" && exists m :: m in manifest && m.id == c.id)
    && (forall m :: m in manifest ==> exists c :: c in cases && c.id == m.id)
  }

  /** A captured answer is the text that its digest and length are of. */
  predicate CaptureSound(c: Capture) {
    && c.wellFormed && c.caseId != "" && c.question != ""
    && c.answerDigest == TextDigest(c.answer) && c.charCount == |c.answer|
  }

  /** So are the captured answers, with the questions of the manifest. */
  predicate CapturedOnce(captures: seq<Capture>, manifest: seq<ManifestCase>) {
    && (forall i, j :: 0 <= i < j < |captures| ==> captures[i].caseId != captures[j].caseId)
    && (forall c :: c in captures ==> CaptureSound(c))
    && (forall c :: c in captures ==> Asked(c, manifest))
    && (forall m :: m in manifest ==> Answered(m, captures))
  }

  lemma {:induction false} EvalAt(cases: seq<EvalCase>, c: EvalCase)
    requires EvalsFit(cases)
    ensures c in cases <==> c.id in EvalIndex(cases) && EvalIndex(cases)[c.id] == c
  {
    if cases != [] {
      var front, last := cases[..|cases| - 1], cases[|cases| - 1];
      assert cases == front + [last];
      assert forall i :: 0 <= i < |front| ==> front[..i] == cases[..i] && front[i] == cases[i];
      EvalAt(front, c);
      EvalIndexKeys(front);
      assert cases[..|front|] == front && last.id !in EvalIds(front);
    }
  }

  lemma {:induction false} CaptureAt(captures: seq<Capture>, c: Capture)
    requires CapturesFit(captures)
    ensures c in captures <==> c.caseId in CaptureIndex(captures) && CaptureIndex(captures)[c.caseId] == c
  {
    if captures != [] {
      var front, last := captures[..|captures| - 1], captures[|captures| - 1];
      assert captures == front + [last];
      assert forall i :: 0 <= i < |front| ==> front[..i] == captures[..i] && front[i] == captures[i];
      CaptureAt(front, c);
      CaptureIndexKeys(front);
      assert captures[..|front|] == front && last.caseId !in CaptureIds(front);
    }
  }

  lemma EvalsExactly(cases: seq<EvalCase>)
    ensures EvalsFit(cases) <==>
            && (forall i, j :: 0 <= i < j < |cases| ==> cases[i].id != cases[j].id)
            && (forall c :: c in cases ==> c.id != "")
  {
    hide EvalIds;
    forall i | 0 <= i < |cases|
      ensures cases[i] in cases
      ensures cases[i].id in EvalIds(cases[..i]) <==> exists j :: 0 <= j < i && cases[j].id == cases[i].id
    {
      EvaluatedBefore(cases, i);
    }
  }

  lemma CapturesExactly(captures: seq<Capture>)
    ensures CapturesFit(captures) <==>
            && (forall i, j :: 0 <= i < j < |captures| ==> captures[i].caseId != captures[j].caseId)
            && (forall c :: c in captures ==> CaptureSound(c))
  {
    hide CaptureIds;
    forall i | 0 <= i < |captures|
      ensures captures[i] in captures
      ensures captures[i].caseId in CaptureIds(captures[..i]) <==>
              exists j :: 0 <= j < i && captures[j].caseId == captures[i].caseId
    {
      CapturedBefore(captures, i);
    }
  }

  lemma OneCasePerId(manifest: seq<ManifestCase>, m: ManifestCase, n: ManifestCase)
    requires ManifestSound(manifest) && m in manifest && n in manifest && m.id == n.id
    ensures m == n
  {
    var i :| 0 <= i < |manifest| && manifest[i] == m;
    var j :| 0 <= j < |manifest| && manifest[j] == n;
  }

  lemma EvaluationsExactly(cases: seq<EvalCase>, manifest: seq<ManifestCase>)
    ensures EvalsFit(cases) && EvalIndex(cases).Keys == ManifestIds(manifest) <==> EvaluatedOnce(cases, manifest)
  {
    hide EvalsFit, EvalIndex;
    EvalsExactly(cases);
    EvalIndexKeys(cases);
    assert EvalIds(cases) == ManifestIds(manifest) <==>
           && (forall c :: c in cases ==> c.id in ManifestIds(manifest))
           && (forall m :: m in manifest ==> m.id in EvalIds(cases));
  }

  predicate IndexAsks(captures: seq<Capture>, manifest: seq<ManifestCase>) {
    && CaptureIndex(captures).Keys == ManifestIds(manifest)
    && forall m :: m in manifest ==>
         m.id in CaptureIndex(captures) && CaptureIndex(captures)[m.id].question == m.question
  }

  /** Whether a capture is of a case of the manifest, with its question. */
  predicate Asked(c: Capture, manifest: seq<ManifestCase>) {
    exists m :: m in manifest && m.id == c.caseId && m.question == c.question
  }

  predicate Answered(m: ManifestCase, captures: seq<Capture>) { exists c :: c in captures && c.caseId == m.id }

  lemma IndexedAsk(captures: seq<Capture>, manifest: seq<ManifestCase>)
    requires CapturesFit(captures) && IndexAsks(captures, manifest)
    ensures forall c :: c in captures ==> Asked(c, manifest)
    ensures forall m :: m in manifest ==> Answered(m, captures)
  {
    hide CapturesFit, CaptureIndex;
    CaptureIndexKeys(captures);
    forall c | c in captures ensures Asked(c, manifest) {
      CaptureAt(captures, c);
      assert c.caseId in ManifestIds(manifest);
      var m :| m in manifest && m.id == c.caseId;
    }
    forall m | m in manifest ensures Answered(m, captures) {
      assert m.id in CaptureIds(captures);
    }
  }

  lemma AskedIndex(captures: seq<Capture>, manifest: seq<ManifestCase>)
    requires CapturesFit(captures) && ManifestSound(manifest)
    requires forall c :: c in captures ==> Asked(c, manifest)
    requires forall m :: m in manifest ==> Answered(m, captures)
    ensures IndexAsks(captures, manifest)
  {
    hide CapturesFit, CaptureIndex, ManifestSound, CaptureIds, ManifestIds, Asked, Answered;
    CaptureIndexKeys(captures);
    SameIds(captures, manifest);
    forall m | m in manifest
      ensures m.id in CaptureIndex(captures) && CaptureIndex(captures)[m.id].question == m.question
    {
      QuestionIndexed(captures, manifest, m);
    }
  }

  lemma QuestionIndexed(captures: seq<Capture>, manifest: seq<ManifestCase>, m: ManifestCase)
    requires CapturesFit(captures) && ManifestSound(manifest) && m in manifest && Answered(m, captures)
    requires forall c :: c in captures ==> Asked(c, manifest)
    ensures m.id in CaptureIndex(captures) && CaptureIndex(captures)[m.id].question == m.question
  {
    hide CapturesFit, CaptureIndex, ManifestSound;
    var c :| c in captures && c.caseId == m.id;
    CaptureAt(captures, c);
    assert Asked(c, manifest);
    var n :| n in manifest && n.id == c.caseId && n.question == c.question;
    OneCasePerId(manifest, m, n);
  }

  lemma SameIds(captures: seq<Capture>, manifest: seq<ManifestCase>)
    requires forall c :: c in captures ==> Asked(c, manifest)
    requires forall m :: m in manifest ==> Answered(m, captures)
    ensures CaptureIds(captures) == ManifestIds(manifest)
  {
    forall c | c in captures ensures c.caseId in ManifestIds(manifest) {
      assert Asked(c, manifest);
    }
    forall m | m in manifest ensures m.id in CaptureIds(captures) {
      assert Answered(m, captures);
    }
  }

  lemma SideExactly(cases: seq<EvalCase>, captures: seq<Capture>, manifest: seq<ManifestCase>)
    requires ManifestSound(manifest)
    ensures SideFits(cases, captures, manifest) <==> EvaluatedOnce(cases, manifest) && CapturedOnce(captures, manifest)
  {
    hide EvalsFit, CapturesFit, EvalIndex, CaptureIndex, CaptureSound, ManifestSound, EvaluatedOnce, Asked, Answered;
    EvaluationsExactly(cases, manifest);
    CapturesExactly(captures);
    if CapturesFit(captures) {
      if IndexAsks(captures, manifest) {
        IndexedAsk(captures, manifest);
      }
      if (forall c :: c in captures ==> Asked(c, manifest)) && forall m :: m in manifest ==> Answered(m, captures) {
        AskedIndex(captures, manifest);
      }
    }
  }

  /** What an arm's output in an instance says: the evaluated case of that
      identity and the captured answer it was evaluated on. */
  predicate Answers(m: Metadata, cases: seq<EvalCase>, captures: seq<Capture>, id: string) {
    && m.case_ in cases && m.case_.id == id && m.passed == m.case_.passed && m.leaked == m.case_.leaked
    && m.case_.answer == Some((m.answerDigest, m.charCount))
    && exists c :: c in captures && c.caseId == id && m.answerDigest == c.answerDigest && m.charCount == c.charCount
  }

  /** Every manifest case was evaluated on the captured answer. */
  predicate AnswersMatch(cases: seq<EvalCase>, captures: seq<Capture>, id: string) {
    exists e, c :: e in cases && c in captures && e.id == id && c.caseId == id &&
      e.answer == Some((c.answerDigest, c.charCount))
  }

  lemma MetadataExactly(cases: seq<EvalCase>, captures: seq<Capture>, id: string)
    requires EvalsFit(cases) && CapturesFit(captures)
    ensures MetadataOf(cases, captures, id).Some? <==> AnswersMatch(cases, captures, id)
    ensures MetadataOf(cases, captures, id).Some? ==>
              Answers(MetadataOf(cases, captures, id).value, cases, captures, id)
  {
    hide EvalsFit, CapturesFit, EvalIndex, CaptureIndex;
    EvalKeyed(cases, id);
    CaptureKeyed(captures, id);
    forall e | e in cases ensures e.id in EvalIndex(cases) && EvalIndex(cases)[e.id] == e {
      EvalAt(cases, e);
    }
    forall c | c in captures ensures c.caseId in CaptureIndex(captures) && CaptureIndex(captures)[c.caseId] == c {
      CaptureAt(captures, c);
    }
  }

  lemma {:induction false} EvalKeyed(cases: seq<EvalCase>, id: string)
    ensures id in EvalIndex(cases) ==> EvalIndex(cases)[id] in cases && EvalIndex(cases)[id].id == id
  {
    if cases != [] {
      EvalKeyed(cases[..|cases| - 1], id);
      assert cases == cases[..|cases| - 1] + [cases[|cases| - 1]];
    }
  }

  lemma {:induction false} CaptureKeyed(captures: seq<Capture>, id: string)
    ensures id in CaptureIndex(captures) ==>
              CaptureIndex(captures)[id] in captures && CaptureIndex(captures)[id].caseId == id
  {
    if captures != [] {
      CaptureKeyed(captures[..|captures| - 1], id);
      assert captures == captures[..|captures| - 1] + [captures[|captures| - 1]];
    }
  }

  /** One formal pair of the commit and manifest, with both arms evaluated and
      captured over the manifest. */
  predicate PairSound(p: PairInput, i: Inputs) {
    && p.provenance.Some? && p.provenance.value.0 == i.commit && i.manifestDigest in p.provenance.value.1
    && EvaluatedOnce(p.baseline, i.manifest) && CapturedOnce(p.baselineCapture, i.manifest)
    && EvaluatedOnce(p.candidate, i.manifest) && CapturedOnce(p.candidateCapture, i.manifest)
  }

  predicate PairAnswers(p: PairInput, id: string) {
    AnswersMatch(p.baseline, p.baselineCapture, id) && AnswersMatch(p.candidate, p.candidateCapture, id)
  }

  /** The inputs of a pack that can be built. */
  predicate InputsSound(i: Inputs) {
    && i.eligible && Withheld(i.governance) && i.commit != "" && i.runId != "" && i.owner != ""
    && ManifestSound(i.manifest)
    && |i.pairs| == 3 && i.pairs[0].pairId == "formal-pair-01" && i.pairs[1].pairId == "formal-pair-02"
    && i.pairs[2].pairId == "formal-pair-03"
    && (forall p :: p in i.pairs ==> PairSound(p, i))
    && forall p, m :: p in i.pairs && m in i.manifest ==> PairAnswers(p, m.id)
  }

  lemma PairExactly(p: PairInput, i: Inputs)
    requires ManifestSound(i.manifest)
    ensures PairFits(p, i) <==> PairSound(p, i)
  {
    hide SideFits, EvaluatedOnce, CapturedOnce;
    SideExactly(p.baseline, p.baselineCapture, i.manifest);
    SideExactly(p.candidate, p.candidateCapture, i.manifest);
  }

  lemma InstanceExactly(p: PairInput, i: Inputs, id: string)
    requires PairFits(p, i)
    ensures InstanceOf(p, id).Some? <==> PairAnswers(p, id)
    ensures InstanceOf(p, id).Some? ==>
              var content := InstanceOf(p, id).value.content;
              && content.pairId == p.pairId && content.references == p.references
              && Answers(content.baseline, p.baseline, p.baselineCapture, id)
              && Answers(content.candidate, p.candidate, p.candidateCapture, id)
  {
    hide EvalsFit, CapturesFit, AnswersMatch, Answers, MetadataOf;
    MetadataExactly(p.baseline, p.baselineCapture, id);
    MetadataExactly(p.candidate, p.candidateCapture, id);
  }

  lemma {:induction false} InstancesExactly(pairs: seq<PairInput>, i: Inputs, id: string)
    requires forall p :: p in pairs ==> PairFits(p, i)
    ensures InstancesFor(pairs, id).Some? <==> forall p :: p in pairs ==> PairAnswers(p, id)
    ensures InstancesFor(pairs, id).Some? ==>
              && |InstancesFor(pairs, id).value| == |pairs|
              && forall k :: 0 <= k < |pairs| ==> InstanceOf(pairs[k], id) == Some(InstancesFor(pairs, id).value[k])
  {
    hide PairFits, PairAnswers, InstanceOf;
    if pairs != [] {
      var front, last := pairs[..|pairs| - 1], pairs[|pairs| - 1];
      assert pairs == front + [last];
      InstancesExactly(front, i, id);
      InstanceExactly(last, i, id);
    }
  }

  lemma {:induction false} RowsExactly(cases: seq<ManifestCase>, pairs: seq<PairInput>)
    ensures RowsFor(cases, pairs).Some? <==> forall c :: c in cases ==> InstancesFor(pairs, c.id).Some?
    ensures RowsFor(cases, pairs).Some? ==>
              && |RowsFor(cases, pairs).value| == |cases|
              && forall k :: 0 <= k < |cases| ==>
                   InstancesFor(pairs, cases[k].id).Some? &&
                   RowsFor(cases, pairs).value[k] ==
                     Row(cases[k].id, cases[k].group, cases[k], Some(InstancesFor(pairs, cases[k].id).value))
  {
    hide InstancesFor;
    if cases != [] {
      var front, last := cases[..|cases| - 1], cases[|cases| - 1];
      assert cases == front + [last];
      RowsExactly(front, pairs);
    }
  }

  lemma PairNames(pairs: seq<PairInput>)
    ensures FilterMap(PairIdOf, pairs) == PAIR_IDS <==>
            && |pairs| == 3 && pairs[0].pairId == "formal-pair-01" && pairs[1].pairId == "formal-pair-02"
            && pairs[2].pairId == "formal-pair-03"
  {
    hide FilterMap;
    PairIds(pairs);
    NamesOfThree(FilterMap(PairIdOf, pairs));
  }

  lemma NamesOfThree(names: seq<string>)
    ensures names == PAIR_IDS <==>
            |names| == 3 && names[0] == "formal-pair-01" && names[1] == "formal-pair-02" && names[2] == "formal-pair-03"
  {
    var first, second, third := "formal-pair-01", "formal-pair-02", "formal-pair-03";
    assert PAIR_IDS == [first, second, third];
  }

  /** A row of a built pack: a manifest case with one output of each arm of each
      pair, and blank judgments. */
  predicate RowFrom(row: Row, c: ManifestCase, pairs: seq<PairInput>) {
    && row.caseId == c.id && row.group == c.group && row.manifestCase == c
    && row.instances.Some? && |row.instances.value| == |pairs|
    && forall k :: 0 <= k < |pairs| ==>
         var i := row.instances.value[k];
         && i.review == Some(TEMPLATE) && i.content.pairId == pairs[k].pairId
         && i.content.references == pairs[k].references
         && Answers(i.content.baseline, pairs[k].baseline, pairs[k].baselineCapture, c.id)
         && Answers(i.content.candidate, pairs[k].candidate, pairs[k].candidateCapture, c.id)
  }

  lemma InputsExactly(i: Inputs)
    ensures InputsFit(i) <==>
            && i.eligible && Withheld(i.governance) && i.commit != "" && i.runId != "" && i.owner != ""
            && ManifestSound(i.manifest)
            && |i.pairs| == 3 && i.pairs[0].pairId == "formal-pair-01" && i.pairs[1].pairId == "formal-pair-02"
            && i.pairs[2].pairId == "formal-pair-03"
            && (forall p :: p in i.pairs ==> PairSound(p, i))
  {
    hide Withheld, FailsClosed, ManifestSound, ManifestFits, PairSound, PairFits, FilterMap;
    WithheldExactly(i.governance);
    ManifestExactly(i.manifest);
    PairNames(i.pairs);
    if ManifestSound(i.manifest) {
      forall p ensures PairFits(p, i) <==> PairSound(p, i) {
        PairExactly(p, i);
      }
    }
  }

  /** A pack is built exactly from sound inputs; its rows are the manifest's cases
      in order, its terms are sound, and it locks those rows under the owner. */
  lemma BuiltExactly(i: Inputs)
    ensures Build(i).Some? <==> InputsSound(i)
    ensures Build(i).Some? ==>
              var (pack, rows) := Build(i).value;
              && PackSound(pack) && pack.sourceOwner == i.owner && pack.identity == i.identity
              && pack.contract == ContractOf(rows) && |rows| == 13
              && forall k :: 0 <= k < 13 ==> RowFrom(rows[k], i.manifest[k], i.pairs)
  {
    hide Withheld, InputsFit, PairSound, PairFits, ManifestSound, PairAnswers;
    hide RowsFor, InstancesFor, InstanceOf, Answers;
    InputsExactly(i);
    if InputsFit(i) {
      FitsEach(i);
      forall c: ManifestCase
        ensures InstancesFor(i.pairs, c.id).Some? <==> forall p :: p in i.pairs ==> PairAnswers(p, c.id)
      {
        InstancesExactly(i.pairs, i, c.id);
      }
      RowsExactly(i.manifest, i.pairs);
      SoundManifestSize(i.manifest);
      if Build(i).Some? {
        var (pack, rows) := Build(i).value;
        forall k | 0 <= k < 13 ensures RowFrom(rows[k], i.manifest[k], i.pairs) {
          InstancesExactly(i.pairs, i, i.manifest[k].id);
          InstancesAnswer(i, i.manifest[k].id);
        }
        OutputsOfRows(rows);
        BuiltWithheld(i, pack);
      }
    }
  }

  lemma FitsEach(i: Inputs)
    requires InputsFit(i)
    ensures forall p :: p in i.pairs ==> PairFits(p, i)
  {
  }

  lemma SoundManifestSize(cases: seq<ManifestCase>)
    requires ManifestSound(cases)
    ensures |cases| == 13
  {
  }

  lemma BuiltWithheld(i: Inputs, pack: Pack)
    requires InputsFit(i)
    requires pack.failClosed == map f | f in FAIL_CLOSED_FIELDS && f in i.governance :: i.governance[f]
    ensures Withheld(pack.failClosed)
  {
    hide ManifestFits, PairFits;
    WithheldExactly(pack.failClosed);
  }

  lemma InstancesAnswer(i: Inputs, id: string)
    requires forall p :: p in i.pairs ==> PairFits(p, i)
    requires InstancesFor(i.pairs, id).Some?
    ensures var r := InstancesFor(i.pairs, id).value;
            && |r| == |i.pairs|
            && forall k :: 0 <= k < |i.pairs| ==>
                 && r[k].review == Some(TEMPLATE) && r[k].content.pairId == i.pairs[k].pairId
                 && r[k].content.references == i.pairs[k].references
                 && Answers(r[k].content.baseline, i.pairs[k].baseline, i.pairs[k].baselineCapture, id)
                 && Answers(r[k].content.candidate, i.pairs[k].candidate, i.pairs[k].candidateCapture, id)
  {
    hide PairFits, InstanceOf, Answers, InstancesFor;
    InstancesExactly(i.pairs, i, id);
    InstancesForPairs(i.pairs, id);
    var r := InstancesFor(i.pairs, id).value;
    forall k | 0 <= k < |i.pairs|
      ensures r[k].content.pairId == i.pairs[k].pairId && r[k].content.references == i.pairs[k].references
      ensures Answers(r[k].content.baseline, i.pairs[k].baseline, i.pairs[k].baselineCapture, id)
      ensures Answers(r[k].content.candidate, i.pairs[k].candidate, i.pairs[k].candidateCapture, id)
    {
      InstanceExactly(i.pairs[k], i, id);
    }
  }
}

/** What an accepted routing label and its compiled tasks say, in terms of the
    label's own fields, and what it takes for an observation to match. */
module RoutingMeaning {
  import opened Collections
  import opened Strings
  import opened RoutingLabels
  import opened RoutingContracts

  // ----- accepted labels

  /** `[A-Za-z0-9_-]{1,64}`. */
  predicate Name(s: string) {
    1 <= |s| <= 64 &&
    forall c :: c in s ==> 'a' <= c <= 'z' || 'A' <= c <= 'Z' || '0' <= c <= '9' || c in "_-"
  }

  predicate Names(values: seq<string>) {
    (forall v :: v in values ==> Name(v)) && forall i, j :: 0 <= i < j < |values| ==> values[i] != values[j]
  }

  predicate Prose(s: string) { |s| <= 20000 && Strip(s) != "" }

  predicate Selects(l: Label, id: string) { exists selector :: selector in l.selectors && selector.id == id }

  /** A task names an earlier task. */
  predicate EarlierTask(tasks: seq<LabelTask>, i: nat, id: string)
    requires i <= |tasks|
  {
    exists j :: 0 <= j < i && tasks[j].id == id
  }

  predicate TaskSound(l: Label, i: nat)
    requires i < |l.expected.tasks|
  {
    var t := l.expected.tasks[i];
    && Name(t.id) && !EarlierTask(l.expected.tasks, i, t.id) && Name(t.template)
    && (t.selection.Some? ==> Name(t.selection.value) && Selects(l, t.selection.value))
    && 1 <= |t.outputs| <= 32 && Names(t.outputs)
    && |t.dependsOn| <= 2 && Names(t.dependsOn)
    && (forall d :: d in t.dependsOn ==> EarlierTask(l.expected.tasks, i, d))
    && (t.note.Some? ==> Prose(t.note.value))
  }

  /** The policy of each disposition: only a route permits execution. */
  predicate PolicySound(e: Expected) {
    && e.preserveEveryIntent
    && (e.executionPermitted <==> e.disposition == Route)
    && e.plannerPolicy == (match e.disposition
                           case Route => "at_most_one"
                           case Clarify => "at_most_one"
                           case RejectBeforePlanner => "none_before_rejection"
                           case RejectBeforeAction => "at_most_one_if_count_uncertain")
    && (forall c :: c in e.conditions ==> Prose(c)) && (e.reason.Some? ==> Prose(e.reason.value))
  }

  /** The first `i` branches include one of this name, or one that selects this. */
  predicate NamedBefore(branches: seq<Branch>, i: nat, id: string)
    requires i <= |branches|
  {
    exists j :: 0 <= j < i && branches[j].id == id
  }

  predicate SelectedBefore(branches: seq<Branch>, i: nat, id: string)
    requires i <= |branches|
  {
    exists j :: 0 <= j < i && branches[j].selection == id
  }

  predicate BranchSound(l: Label, branches: seq<Branch>, i: nat)
    requires i < |branches|
  {
    var b := branches[i];
    && Name(b.id) && Name(b.selection) && Selects(l, b.selection) && Prose(b.question)
    && !NamedBefore(branches, i, b.id) && !SelectedBefore(branches, i, b.selection)
    && |b.dependsOn| <= 2 && (forall j, k :: 0 <= j < k < |b.dependsOn| ==> b.dependsOn[j] != b.dependsOn[k])
    && forall d :: d in b.dependsOn ==> NamedBefore(branches, i, d)
  }

  /** One to eight named selectors, one to eight expected tasks that refer back, a
      consistent policy, and a plan, if any, of one to three branches that selects
      every selector once. */
  predicate LabelSound(l: Label) {
    var e := l.expected;
    && 1 <= |l.selectors| <= 8 && Names(SelectorIds(l.selectors))
    && e.taskCount == |e.tasks| && 1 <= |e.tasks| <= 8
    && Names(e.ordered) && (forall id :: id in e.ordered ==> Selects(l, id))
    && PolicySound(e)
    && (forall i :: 0 <= i < |e.tasks| ==> TaskSound(l, i))
    && (l.plan.Some? ==>
          && 1 <= |l.plan.value| <= 3
          && (forall i :: 0 <= i < |l.plan.value| ==> BranchSound(l, l.plan.value, i))
          && forall selector :: selector in l.selectors ==>
               SelectedBefore(l.plan.value, |l.plan.value|, selector.id))
  }

  lemma NameExactly(s: string)
    ensures Name(s) <==> IsIdentifier(s)
  {
    if IsIdentifier(s) {
      forall c | c in s ensures IsIdentifierChar(c) {
        var i :| 0 <= i < |s| && s[i] == c;
      }
    }
    if Name(s) {
      forall i | 0 <= i < |s| ensures IsIdentifierChar(s[i]) {
        assert s[i] in s;
      }
    }
  }

  lemma NamesExactly(values: seq<string>)
    ensures Names(values) <==> Unique(values)
  {
    hide Name, IsIdentifier;
    forall v ensures Name(v) <==> IsIdentifier(v) {
      NameExactly(v);
    }
  }

  lemma SelectsExactly(l: Label, id: string)
    ensures Selects(l, id) <==> id in Elements(SelectorIds(l.selectors))
  {
    var ids := SelectorIds(l.selectors);
    if Selects(l, id) {
      var selector :| selector in l.selectors && selector.id == id;
      var i :| 0 <= i < |l.selectors| && l.selectors[i] == selector;
      assert ids[i] == id;
    }
    if id in ids {
      var i :| 0 <= i < |ids| && ids[i] == id;
      assert l.selectors[i] in l.selectors;
    }
  }

  lemma EarlierExactly(tasks: seq<LabelTask>, i: nat, id: string)
    requires i <= |tasks|
    ensures EarlierTask(tasks, i, id) <==> id in LabelTaskIds(tasks[..i])
  {
    if EarlierTask(tasks, i, id) {
      var j :| 0 <= j < i && tasks[j].id == id;
      assert tasks[..i][j] in tasks[..i];
    }
    if id in LabelTaskIds(tasks[..i]) {
      var t :| t in tasks[..i] && t.id == id;
      var j :| 0 <= j < i && tasks[..i][j] == t;
      assert tasks[j].id == id;
    }
  }

  lemma TaskExactly(l: Label, i: nat)
    requires i < |l.expected.tasks|
    ensures TaskSound(l, i) <==>
            LabelTaskFits(l.expected.tasks[i], LabelTaskIds(l.expected.tasks[..i]), Elements(SelectorIds(l.selectors)))
  {
    hide Name, IsIdentifier, Names, Unique, Selects, EarlierTask, LabelTaskIds;
    var t := l.expected.tasks[i];
    NameExactly(t.id);
    NameExactly(t.template);
    NamesExactly(t.outputs);
    NamesExactly(t.dependsOn);
    EarlierExactly(l.expected.tasks, i, t.id);
    forall d ensures EarlierTask(l.expected.tasks, i, d) <==> d in LabelTaskIds(l.expected.tasks[..i]) {
      EarlierExactly(l.expected.tasks, i, d);
    }
    if t.selection.Some? {
      NameExactly(t.selection.value);
      SelectsExactly(l, t.selection.value);
    }
  }

  lemma ExpectedExactly(l: Label)
    ensures var e := l.expected;
            ExpectedFits(e, Elements(SelectorIds(l.selectors))) <==>
            && e.taskCount == |e.tasks| && 1 <= |e.tasks| <= 8
            && Names(e.ordered) && (forall id :: id in e.ordered ==> Selects(l, id))
            && PolicySound(e) && (forall i :: 0 <= i < |e.tasks| ==> TaskSound(l, i))
  {
    hide TaskSound, LabelTaskFits, Selects, Names, Unique, Strip;
    var e := l.expected;
    NamesExactly(e.ordered);
    forall id ensures Selects(l, id) <==> id in Elements(SelectorIds(l.selectors)) {
      SelectsExactly(l, id);
    }
    forall i | 0 <= i < |e.tasks|
      ensures TaskSound(l, i) <==>
              LabelTaskFits(e.tasks[i], LabelTaskIds(e.tasks[..i]), Elements(SelectorIds(l.selectors)))
    {
      TaskExactly(l, i);
    }
  }

  lemma BranchExactly(l: Label, branches: seq<Branch>, i: nat)
    requires i < |branches|
    ensures BranchSound(l, branches, i) <==>
            && BranchRefers(branches[i], SelectionIds(branches[..i]), Elements(SelectorIds(l.selectors)))
            && BranchFits(branches[i], BranchIds(branches[..i]))
  {
    hide Name, IsIdentifier, Selects, Strip, NamedBefore, SelectedBefore, BranchIds, SelectionIds;
    var b := branches[i];
    NameExactly(b.id);
    NameExactly(b.selection);
    SelectsExactly(l, b.selection);
    forall id ensures id in BranchIds(branches[..i]) <==> NamedBefore(branches, i, id) {
      EarlierBranch(branches, i, id);
    }
    forall id ensures id in SelectionIds(branches[..i]) <==> SelectedBefore(branches, i, id) {
      EarlierSelection(branches, i, id);
    }
  }

  lemma EarlierBranch(branches: seq<Branch>, i: nat, id: string)
    requires i <= |branches|
    ensures id in BranchIds(branches[..i]) <==> NamedBefore(branches, i, id)
  {
    if NamedBefore(branches, i, id) {
      var j :| 0 <= j < i && branches[j].id == id;
      assert branches[..i][j] in branches[..i];
    }
    if id in BranchIds(branches[..i]) {
      var b :| b in branches[..i] && b.id == id;
      var j :| 0 <= j < i && branches[..i][j] == b;
      assert branches[j].id == id;
    }
  }

  lemma EarlierSelection(branches: seq<Branch>, i: nat, id: string)
    requires i <= |branches|
    ensures id in SelectionIds(branches[..i]) <==> SelectedBefore(branches, i, id)
  {
    if SelectedBefore(branches, i, id) {
      var j :| 0 <= j < i && branches[j].selection == id;
      assert branches[..i][j] in branches[..i];
    }
    if id in SelectionIds(branches[..i]) {
      var b :| b in branches[..i] && b.selection == id;
      var j :| 0 <= j < i && branches[..i][j] == b;
      assert branches[j].selection == id;
    }
  }

  lemma PlanExactly(l: Label, branches: seq<Branch>)
    ensures var ids := Elements(SelectorIds(l.selectors));
            (BranchesRefer(branches, ids) && SelectionIds(branches) == ids && BranchesFit(branches)) <==>
            && 1 <= |branches| <= 3
            && (forall i :: 0 <= i < |branches| ==> BranchSound(l, branches, i))
            && forall selector :: selector in l.selectors ==> SelectedBefore(branches, |branches|, selector.id)
  {
    hide BranchSound, BranchRefers, BranchFits, Selects, BranchIds;
    var ids := Elements(SelectorIds(l.selectors));
    forall i | 0 <= i < |branches|
      ensures BranchSound(l, branches, i) <==>
              && BranchRefers(branches[i], SelectionIds(branches[..i]), ids)
              && BranchFits(branches[i], BranchIds(branches[..i]))
    {
      BranchExactly(l, branches, i);
    }
    assert branches[..|branches|] == branches;
    forall id ensures id in SelectionIds(branches) <==> SelectedBefore(branches, |branches|, id) {
      EarlierSelection(branches, |branches|, id);
    }
    forall id ensures Selects(l, id) <==> id in ids {
      SelectsExactly(l, id);
    }
    AllSelected(l, branches);
    if forall i :: 0 <= i < |branches| ==> BranchSound(l, branches, i) {
      forall id | id in SelectionIds(branches) ensures id in ids {
        var j :| 0 <= j < |branches| && branches[j].selection == id;
        SoundSelects(l, branches, j);
      }
    }
  }

  lemma SoundSelects(l: Label, branches: seq<Branch>, i: nat)
    requires i < |branches| && BranchSound(l, branches, i)
    ensures Selects(l, branches[i].selection)
  {
  }

  lemma AllSelected(l: Label, branches: seq<Branch>)
    ensures (forall selector :: selector in l.selectors ==> SelectedBefore(branches, |branches|, selector.id)) <==>
            forall id :: Selects(l, id) ==> SelectedBefore(branches, |branches|, id)
  {
    hide SelectedBefore;
    forall selector | selector in l.selectors ensures Selects(l, selector.id) {
    }
  }

  /** A label is resolved exactly if it is sound; unless it is a route, that makes
      it accepted, without any task. */
  lemma ResolvedExactly(l: Label)
    ensures Resolve(l).Some? <==> LabelSound(l)
    ensures l.expected.disposition != Route ==>
              && (Compile(l).Some? <==> LabelSound(l))
              && (Compile(l).Some? ==> Compile(l).value.tasks == [])
  {
    hide ExpectedFits, TaskSound, BranchSound, BranchesRefer, BranchesFit, PolicySound, Names, Unique, Selects;
    hide SelectionIds, SlotsOf;
    NamesExactly(SelectorIds(l.selectors));
    ExpectedExactly(l);
    if l.plan.Some? {
      PlanExactly(l, l.plan.value);
    }
  }

  // ----- compiled tasks

  function TemplateName(kind: Kind): string {
    match kind
    case ScopeComparison => "compare_two_scopes"
    case BomRollup => "bom_rollup"
    case GraphContains => "graph_contains"
    case GraphWhereUsed => "graph_where_used"
  }

  /** What a task of a kind may be asked for. */
  predicate MayAsk(kind: Kind, output: string) {
    match kind
    case ScopeComparison =>
      output in ["sum_a", "sum_b", "delta", "percent_change", "pre_round_value", "display_value", "formula",
                 "citations", "reviewed_empty_basis"]
    case BomRollup => output in ["totals_by_part", "quantity_basis", "formula", "citations", "reviewed_empty_basis"]
    case _ => output in ["relations", "citations", "coverage"]
  }

  /** The slot of the only selector of a label without a plan. */
  function OnlySlot(kind: Kind): string {
    match kind
    case ScopeComparison => "comparison"
    case BomRollup => "bom"
    case GraphContains => "graph"
    case GraphWhereUsed => "graph"
  }

  predicate OfKind(l: Label, id: string, kind: Kind) {
    exists selector :: selector in l.selectors && selector.id == id && selector.kind == kind
  }

  /** The template and outputs of a task are those of the kind it selects. */
  predicate KindServed(l: Label, id: string, t: Task) {
    exists kind ::
      OfKind(l, id, kind) && t.template == TemplateName(kind) && forall o :: o in t.outputs ==> MayAsk(kind, o)
  }

  predicate InOrder(ids: seq<string>) {
    (forall i, j :: 0 <= i < j < |ids| ==> ids[i] != ids[j] && LexLeq(ids[i], ids[j]))
  }

  /** What task `i` keeps of the label: the selection listed for it, the template
      and outputs of that selection's kind, and its outputs, sorted. */
  predicate ChoiceKept(l: Label, t: Task, i: nat)
    requires i < |l.expected.tasks|
  {
    var lt := l.expected.tasks[i];
    && lt.selection.Some? && i < |l.expected.ordered| && l.expected.ordered[i] == lt.selection.value
    && t.template == lt.template && KindServed(l, lt.selection.value, t)
    && Elements(t.outputs) == Elements(lt.outputs) && InOrder(t.outputs)
  }

  /** Each dependency of label task `i` names an earlier one, whose key takes its place. */
  predicate DependenciesKept(tasks: seq<LabelTask>, i: nat, dependsOn: seq<Option<string>>, keys: seq<Option<string>>)
    requires i < |tasks| == |keys|
  {
    && |dependsOn| == |tasks[i].dependsOn|
    && forall k :: 0 <= k < |dependsOn| ==> DependencyKept(tasks, i, tasks[i].dependsOn[k], dependsOn[k], keys)
  }

  predicate DependencyKept(tasks: seq<LabelTask>, i: nat, named: string, d: Option<string>, keys: seq<Option<string>>)
    requires i < |tasks| == |keys|
  {
    exists j :: 0 <= j < i && tasks[j].id == named && d == keys[j]
  }

  lemma KindFound(selectors: seq<Selector>, id: string)
    requires KindOf(selectors, id).Some?
    ensures exists selector ::
              selector in selectors && selector.id == id && selector.kind == KindOf(selectors, id).value
  {
    if selectors[|selectors| - 1].id == id {
      assert selectors[|selectors| - 1] in selectors;
    } else {
      var front := selectors[..|selectors| - 1];
      KindFound(front, id);
      var selector :| selector in front && selector.id == id && selector.kind == KindOf(front, id).value;
      assert selector in selectors;
    }
  }

  lemma TemplateServed(l: Label, id: string, kind: Kind, t: Task, earlier: set<Option<string>>)
    requires KindOf(l.selectors, id) == Some(kind) && t.template == TemplateOf(kind) && TaskFits(t, earlier)
    ensures KindServed(l, id, t)
  {
    KindFound(l.selectors, id);
    assert OfKind(l, id, kind);
    forall o | o in t.outputs ensures MayAsk(kind, o) {
      assert o in Elements(t.outputs);
      assert o in ALLOWED[t.template];
    }
  }

  lemma OutputsOrdered(outputs: seq<string>)
    ensures Elements(SortIds(Elements(outputs))) == Elements(outputs) && InOrder(SortIds(Elements(outputs)))
  {
    SortIdsSorts(Elements(outputs));
  }

  lemma {:induction false} SlotAt(tasks: seq<LabelTask>, slots: map<string, string>, selectors: set<string>, j: nat)
    requires LabelTasksFit(tasks, selectors) && AllResolved(tasks, slots) && j < |tasks|
    ensures tasks[j].id in TaskSlots(tasks, slots) && tasks[j].id in TaskChoices(tasks)
    ensures TaskSlots(tasks, slots)[tasks[j].id] == slots[tasks[j].selection.value]
    ensures TaskChoices(tasks)[tasks[j].id] == tasks[j].selection.value
  {
    hide LabelTaskFits;
    assert tasks[j] in tasks;
    if j < |tasks| - 1 {
      var front, last := tasks[..|tasks| - 1], tasks[|tasks| - 1];
      forall k | 0 <= k < |front| ensures LabelTaskFits(front[k], LabelTaskIds(front[..k]), selectors) {
        assert front[..k] == tasks[..k];
      }
      assert forall t :: t in front ==> t in tasks;
      SlotAt(front, slots, selectors, j);
      FreshId(last, LabelTaskIds(front), selectors);
      assert front[j] in front && front[j] == tasks[j];
    }
  }

  lemma TaskBefore(tasks: seq<LabelTask>, selectors: set<string>, i: nat, k: nat) returns (j: nat)
    requires LabelTasksFit(tasks, selectors) && i < |tasks| && k < |tasks[i].dependsOn|
    ensures j < i && tasks[j].id == tasks[i].dependsOn[k]
  {
    hide IsIdentifier, Unique, OptionalText;
    var d, before := tasks[i].dependsOn[k], tasks[..i];
    assert LabelTaskFits(tasks[i], LabelTaskIds(before), selectors);
    assert d in Elements(tasks[i].dependsOn);
    var t :| t in before && t.id == d;
    j :| 0 <= j < i && before[j] == t;
  }

  /** The label task that a dependency of task `i` names. */
  lemma NamedTask(tasks: seq<LabelTask>, slots: map<string, string>, selectors: set<string>, i: nat, k: nat)
    returns (j: nat)
    requires LabelTasksFit(tasks, selectors) && AllResolved(tasks, slots) && i < |tasks| && k < |tasks[i].dependsOn|
    ensures j < i && tasks[j].id == tasks[i].dependsOn[k]
    ensures tasks[j].selection.Some? && tasks[j].selection.value in slots
    ensures Lookup(TaskSlots(tasks[..i], slots), tasks[i].dependsOn)[k] == Some(slots[tasks[j].selection.value])
    ensures Lookup(TaskChoices(tasks), tasks[i].dependsOn)[k] == tasks[j].selection
  {
    hide TaskSlots, TaskChoices, IsIdentifier;
    var before := tasks[..i];
    j := TaskBefore(tasks, selectors, i, k);
    forall m | 0 <= m < |before| ensures LabelTaskFits(before[m], LabelTaskIds(before[..m]), selectors) {
      assert before[..m] == tasks[..m];
    }
    assert forall x :: x in before ==> x in tasks;
    SlotAt(before, slots, selectors, j);
    SlotAt(tasks, slots, selectors, j);
    assert tasks[j] in tasks;
  }

  /** The compiled tasks of the third version, one by one. */
  predicate CompiledFrom(l: Label, tasks: seq<Task>, i: nat)
    requires i < |l.expected.tasks| == |tasks|
  {
    && ChoiceKept(l, tasks[i], i)
    && (match l.plan
        case None =>
          && |tasks| == 1
          && exists kind :: OfKind(l, l.expected.ordered[i], kind) && tasks[i].selection == Some(OnlySlot(kind))
        case Some(branches) =>
          && i < |branches|
          && branches[i].selection == l.expected.ordered[i] && tasks[i].selection == Some(branches[i].id))
    && DependenciesKept(l.expected.tasks, i, tasks[i].dependsOn, TaskKeys(tasks))
  }

  lemma ProjectedSelection(l: Label, i: nat)
    requires Compile(l).Some? && Projects(l, Compile(l).value.resolved) && i < |l.expected.tasks|
    ensures var slots := Compile(l).value.resolved.slots;
            && |Compile(l).value.tasks| == |l.expected.tasks|
            && l.expected.tasks[i].selection.Some? && l.expected.tasks[i].selection.value in slots
            && Compile(l).value.tasks[i].selection == Some(slots[l.expected.tasks[i].selection.value])
  {
    hide LabelTasksFit, ReadyTasks, TasksMatch, Resolve, TaskSlots;
    CompiledIsAccepted(l);
    ProjectedAt(l.expected.tasks, Compile(l).value.resolved.slots, i);
    assert l.expected.tasks[i] in l.expected.tasks;
  }

  lemma ProjectedChoice(l: Label, i: nat)
    requires Compile(l).Some? && Projects(l, Compile(l).value.resolved) && i < |l.expected.tasks|
    ensures |Compile(l).value.tasks| == |l.expected.tasks| && ChoiceKept(l, Compile(l).value.tasks[i], i)
    ensures l.plan.Some? ==>
              && i < |l.plan.value| && l.plan.value[i].selection == l.expected.ordered[i]
              && Compile(l).value.tasks[i].selection == Some(l.plan.value[i].id)
    ensures l.plan.None? ==>
              && |l.expected.tasks| == 1 && |l.selectors| == 1 && l.expected.ordered[i] == l.selectors[0].id
              && Compile(l).value.tasks[i].selection == Some(KindSlot(l.selectors[0].kind))
  {
    hide LabelTasksFit, TaskFits, Resolve, TaskSlots, KindServed, InOrder, KindOf;
    var resolved, tasks := Compile(l).value.resolved, Compile(l).value.tasks;
    CompiledIsAccepted(l);
    ResolvedShape(l);
    ResolvedSlots(l);
    ProjectedSelection(l, i);
    ProjectedAt(l.expected.tasks, resolved.slots, i);
    OutputsOrdered(l.expected.tasks[i].outputs);
    var lt, t := l.expected.tasks[i], tasks[i];
    assert Somes(l.expected.ordered)[i] == TaskSelections(l.expected.tasks)[i];
    var targets := Targets(resolved.selection, l.selectors);
    assert TaskMatches(t, targets[i]);
    assert TaskFits(t, Keys(tasks[..i]));
    match l.plan
    case None =>
      OnlyKind(l);
      TemplateServed(l, lt.selection.value, l.selectors[0].kind, t, Keys(tasks[..i]));
      OnlySlotBound(l);
    case Some(branches) =>
      BranchOfSlot(branches, lt.selection.value, i);
      TemplateServed(l, lt.selection.value, targets[i].kind.value, t, Keys(tasks[..i]));
  }

  lemma OnlyKind(l: Label)
    requires |l.selectors| == 1
    ensures KindOf(l.selectors, l.selectors[0].id) == Some(l.selectors[0].kind)
  {
  }

  lemma OnlySlotBound(l: Label)
    requires Resolve(l).Some? && l.plan.None? && |l.selectors| == 1
    ensures Resolve(l).value.slots == map[l.selectors[0].id := KindSlot(l.selectors[0].kind)]
  {
  }

  /** Every compiled task keeps its label task: selection, template, outputs and
      dependencies, each under the slot it is bound to. */
  lemma CompiledTask(l: Label, i: nat)
    requires Compile(l).Some? && Projects(l, Compile(l).value.resolved) && i < |l.expected.tasks|
    ensures |Compile(l).value.tasks| == |l.expected.tasks| && CompiledFrom(l, Compile(l).value.tasks, i)
  {
    hide LabelTasksFit, ReadyTasks, TasksMatch, Resolve, TaskSlots, TaskChoices, ChoiceKept, ProjectTasks;
    var resolved, tasks := Compile(l).value.resolved, Compile(l).value.tasks;
    var selectors := Elements(SelectorIds(l.selectors));
    CompiledIsAccepted(l);
    ProjectedChoice(l, i);
    ProjectedAt(l.expected.tasks, resolved.slots, i);
    if l.plan.None? {
      assert OfKind(l, l.selectors[0].id, l.selectors[0].kind);
    }
    var lts := l.expected.tasks;
    forall k | 0 <= k < |tasks[i].dependsOn|
      ensures DependencyKept(lts, i, lts[i].dependsOn[k], tasks[i].dependsOn[k], TaskKeys(tasks))
    {
      var j := NamedTask(lts, resolved.slots, selectors, i, k);
      ProjectedSelection(l, j);
      assert TaskKeys(tasks)[j] == tasks[j].selection;
    }
  }

  /** ... and so does every candidate task, under its own selection. */
  lemma CandidateTaskKept(l: Label, i: nat)
    requires Compile(l).Some? && Projects(l, Compile(l).value.resolved) && i < |l.expected.tasks|
    ensures CompileCandidate(l).Some? && |CompileCandidate(l).value| == |l.expected.tasks|
    ensures var t := CompileCandidate(l).value[i];
            && ChoiceKept(l, t, i) && t.selection == l.expected.tasks[i].selection
            && DependenciesKept(l.expected.tasks, i, t.dependsOn, TaskSelections(l.expected.tasks))
  {
    hide LabelTasksFit, ReadyTasks, TasksMatch, Resolve, TaskSlots, TaskChoices, ProjectTasks, CandidateMatches;
    hide KindServed, InOrder;
    CompiledIsAccepted(l);
    CompilationsCommute(l);
    ProjectedChoice(l, i);
    var resolved, lts := Compile(l).value.resolved, l.expected.tasks;
    ProjectedAt(lts, resolved.slots, i);
    var t := CompileCandidate(l).value[i];
    assert t == CandidateTask(lts[i], TaskChoices(lts));
    SameService(l, lts[i].selection.value, Compile(l).value.tasks[i], t);
    forall k | 0 <= k < |t.dependsOn|
      ensures DependencyKept(lts, i, lts[i].dependsOn[k], t.dependsOn[k], TaskSelections(lts))
    {
      var j := NamedTask(lts, resolved.slots, Elements(SelectorIds(l.selectors)), i, k);
      assert TaskSelections(lts)[j] == lts[j].selection;
    }
  }

  lemma SameService(l: Label, id: string, a: Task, b: Task)
    requires KindServed(l, id, a) && a.template == b.template && a.outputs == b.outputs
    ensures KindServed(l, id, b)
  {
  }

  // ----- observed tasks

  /** The kinds a template stands for. */
  predicate Serves(template: string, output: string) {
    exists kind :: TemplateName(kind) == template && MayAsk(kind, output)
  }

  predicate KnownTemplate(template: string) {
    template in ["compare_two_scopes", "bom_rollup", "graph_contains", "graph_where_used"]
  }

  predicate KeyBefore(tasks: seq<Task>, i: nat, key: Option<string>)
    requires i <= |tasks|
  {
    exists j :: 0 <= j < i && tasks[j].selection == key
  }

  /** A known template, some of its outputs without repetition, at most two
      distinct named dependencies, none if the task itself is unresolved; in a
      ready plan the task is new and depends on earlier ones. */
  predicate ObservedSound(tasks: seq<Task>, i: nat, ready: bool)
    requires i < |tasks|
  {
    var t := tasks[i];
    && KnownTemplate(t.template) && t.outputs != [] && Distinct(t.outputs)
    && (forall o :: o in t.outputs ==> Serves(t.template, o))
    && (t.selection.Some? ==> Name(t.selection.value)) && (t.selection.None? ==> t.dependsOn == [])
    && |t.dependsOn| <= 2 && Distinct(t.dependsOn) && (forall d :: d in t.dependsOn ==> d.Some? && Name(d.value))
    && (ready ==>
          && t.selection.Some? && !KeyBefore(tasks, i, t.selection)
          && forall d :: d in t.dependsOn ==> KeyBefore(tasks, i, d))
  }

  lemma ServesExactly(template: string, output: string)
    ensures template in ALLOWED <==> KnownTemplate(template)
    ensures KnownTemplate(template) ==> (output in ALLOWED[template] <==> Serves(template, output))
  {
    TemplatesDiffer();
    if template == "compare_two_scopes" {
      assert TemplateName(ScopeComparison) == template;
      assert Serves(template, output) <==> MayAsk(ScopeComparison, output);
    } else if template == "bom_rollup" {
      assert TemplateName(BomRollup) == template;
      assert Serves(template, output) <==> MayAsk(BomRollup, output);
    } else if template == "graph_contains" {
      assert TemplateName(GraphContains) == template;
      assert Serves(template, output) <==> MayAsk(GraphContains, output);
    } else if template == "graph_where_used" {
      assert TemplateName(GraphWhereUsed) == template;
      assert Serves(template, output) <==> MayAsk(GraphWhereUsed, output);
    }
  }

  lemma TemplatesDiffer()
    ensures "compare_two_scopes" != "bom_rollup" && "compare_two_scopes" != "graph_contains"
    ensures "compare_two_scopes" != "graph_where_used" && "bom_rollup" != "graph_contains"
    ensures "bom_rollup" != "graph_where_used" && "graph_contains" != "graph_where_used"
  {
    assert "compare_two_scopes"[0] == 'c' && "bom_rollup"[0] == 'b';
    assert "graph_contains"[6] == 'c' && "graph_where_used"[6] == 'w';
  }

  lemma ShapeExactly(t: Task)
    ensures TaskShape(t) <==>
            && KnownTemplate(t.template) && t.outputs != [] && Distinct(t.outputs)
            && (forall o :: o in t.outputs ==> Serves(t.template, o))
            && (t.selection.Some? ==> Name(t.selection.value)) && (t.selection.None? ==> t.dependsOn == [])
            && |t.dependsOn| <= 2 && Distinct(t.dependsOn)
            && (forall d :: d in t.dependsOn ==> d.Some? && Name(d.value))
  {
    hide Name, IsIdentifier, Serves, KnownTemplate;
    forall o ensures (t.template in ALLOWED <==> KnownTemplate(t.template)) &&
                     (KnownTemplate(t.template) ==> (o in ALLOWED[t.template] <==> Serves(t.template, o))) {
      ServesExactly(t.template, o);
    }
    forall v ensures Name(v) <==> IsIdentifier(v) {
      NameExactly(v);
    }
    ServesExactly(t.template, "");
    DistinctByCardinality(t.outputs);
    if KnownTemplate(t.template) && Elements(t.outputs) <= ALLOWED[t.template] {
      SubsetSize(Elements(t.outputs), ALLOWED[t.template]);
    }
  }

  lemma KeyExactly(tasks: seq<Task>, i: nat, key: Option<string>)
    requires i <= |tasks|
    ensures KeyBefore(tasks, i, key) <==> key in Keys(tasks[..i])
  {
    if KeyBefore(tasks, i, key) {
      var j :| 0 <= j < i && tasks[j].selection == key;
      assert tasks[..i][j] in tasks[..i];
    }
    if key in Keys(tasks[..i]) {
      var t :| t in tasks[..i] && t.selection == key;
      var j :| 0 <= j < i && tasks[..i][j] == t;
      assert tasks[j].selection == key;
    }
  }

  lemma TaskObserved(tasks: seq<Task>, i: nat)
    requires i < |tasks|
    ensures ObservedSound(tasks, i, true) <==> TaskFits(tasks[i], Keys(tasks[..i]))
    ensures ObservedSound(tasks, i, false) <==> TaskShape(tasks[i])
  {
    hide TaskShape, TaskFits, Name, Serves, KnownTemplate, KeyBefore, Keys;
    ShapeExactly(tasks[i]);
    ReadyShape(tasks[i], Keys(tasks[..i]));
    forall key ensures KeyBefore(tasks, i, key) <==> key in Keys(tasks[..i]) {
      KeyExactly(tasks, i, key);
    }
  }

  /** The tasks of an observation are accepted exactly if there are at most eight,
      in a ready plan one to three, and each is sound. */
  lemma ObservedExactly(tasks: seq<Task>, ready: bool)
    ensures TasksObserved(tasks, ready) <==>
            && |tasks| <= 8 && (ready ==> 1 <= |tasks| <= 3)
            && forall i :: 0 <= i < |tasks| ==> ObservedSound(tasks, i, ready)
  {
    hide TaskShape, TaskFits, ObservedSound;
    forall i | 0 <= i < |tasks|
      ensures ObservedSound(tasks, i, true) <==> TaskFits(tasks[i], Keys(tasks[..i]))
      ensures ObservedSound(tasks, i, false) <==> TaskShape(tasks[i])
    {
      TaskObserved(tasks, i);
    }
  }

  // ----- matching observations

  /** Equal but for the order and repetition of outputs. */
  predicate SameTask(a: Task, b: Task) {
    && a.selection == b.selection && a.template == b.template && a.dependsOn == b.dependsOn
    && (forall o :: o in a.outputs ==> o in b.outputs) && (forall o :: o in b.outputs ==> o in a.outputs)
  }

  /** An observation matches a compiled label exactly if it is ready with the same
      tasks in the same order. */
  lemma MatchesExactly(l: Label, disposition: ObservedDisposition, observed: seq<Task>)
    requires Compile(l).Some? && Projects(l, Compile(l).value.resolved)
    ensures var expected := Compile(l).value.tasks;
            RouteMatches(expected, disposition, observed) <==>
            && disposition == Ready && |observed| == |expected|
            && forall i :: 0 <= i < |expected| ==> SameTask(observed[i], expected[i])
  {
    hide LabelTasksFit, ReadyTasks, TasksMatch, Resolve, TaskSlots, AllResolved, ProjectTasks;
    hide SortIds, SameTask, Ordered;
    var expected := Compile(l).value.tasks;
    CompiledIsAccepted(l);
    ProjectedLength(l.expected.tasks, Compile(l).value.resolved.slots);
    if |observed| == |expected| {
      forall i | 0 <= i < |expected|
        ensures AllOrdered(observed)[i] == expected[i] <==> SameTask(observed[i], expected[i])
      {
        ProjectedAt(l.expected.tasks, Compile(l).value.resolved.slots, i);
        OrderedMatches(observed[i], expected[i], l.expected.tasks[i].outputs);
      }
    }
  }

  lemma OrderedMatches(observed: Task, expected: Task, outputs: seq<string>)
    requires expected.outputs == SortIds(Elements(outputs))
    ensures Ordered(observed) == expected <==> SameTask(observed, expected)
  {
    hide SortIds;
    SortIdsSorts(Elements(outputs));
    SortIdsSorts(Elements(observed.outputs));
    assert forall o :: o in expected.outputs <==> o in Elements(expected.outputs);
    assert forall o :: o in observed.outputs <==> o in Elements(observed.outputs);
    if SameTask(observed, expected) {
      assert Elements(observed.outputs) == Elements(outputs);
    }
    if Ordered(observed) == expected {
      assert SortIds(Elements(observed.outputs)) == expected.outputs;
      assert Elements(observed.outputs) == Elements(outputs);
    }
  }
}

/** Compiling a routing label into the two contract versions. A label's selector
    payloads have been parsed; a `None` result stands for a ValueError. */
module RoutingLabels {
  import opened Collections
  import opened Strings

  datatype Kind = ScopeComparison | BomRollup | GraphContains | GraphWhereUsed

  datatype Selector = Selector(id: string, kind: Kind)

  datatype LabelTask = LabelTask(
    id: string, selection: Option<string>, template: string,
    outputs: seq<string>, dependsOn: seq<string>, note: Option<string>)

  datatype Disposition = Route | Clarify | RejectBeforePlanner | RejectBeforeAction

  datatype Expected = Expected(
    disposition: Disposition,
    taskCount: int,
    ordered: seq<string>,
    tasks: seq<LabelTask>,
    executionPermitted: bool,
    plannerPolicy: string,
    preserveEveryIntent: bool,
    conditions: seq<string>,
    reason: Option<string>)

  /** A branch of the declared query plan. */
  datatype Branch = Branch(id: string, selection: string, question: string, dependsOn: seq<string>)

  datatype Label = Label(selectors: seq<Selector>, plan: Option<seq<Branch>>, expected: Expected)

  // ----- identifiers and texts

  predicate IsIdentifierChar(c: char) {
    'A' <= c <= 'Z' || 'a' <= c <= 'z' || '0' <= c <= '9' || c == '_' || c == '-'
  }

  predicate IsIdentifier(s: string) {
    1 <= |s| <= 64 && forall i :: 0 <= i < |s| ==> IsIdentifierChar(s[i])
  }

  predicate IsText(s: string) { Strip(s) != "" && |s| <= 20000 }

  predicate OptionalText(s: Option<string>) { s.Some? ==> IsText(s.value) }

  predicate Unique(values: seq<string>) {
    (forall v :: v in values ==> IsIdentifier(v)) && Distinct(values)
  }

  // ----- the expected policy

  function PlannerPolicy(d: Disposition): string {
    match d
    case Route => "at_most_one"
    case Clarify => "at_most_one"
    case RejectBeforePlanner => "none_before_rejection"
    case RejectBeforeAction => "at_most_one_if_count_uncertain"
  }

  /** One task of a label, given the tasks before it. */
  predicate LabelTaskFits(t: LabelTask, earlier: set<string>, selectors: set<string>) {
    && IsIdentifier(t.id) && t.id !in earlier
    && (t.selection.Some? ==> IsIdentifier(t.selection.value) && t.selection.value in selectors)
    && IsIdentifier(t.template)
    && Unique(t.outputs) && 1 <= |t.outputs| <= 32
    && Unique(t.dependsOn) && |t.dependsOn| <= 2 && Elements(t.dependsOn) <= earlier
    && OptionalText(t.note)
  }

  function LabelTaskIds(tasks: seq<LabelTask>): set<string> { set t | t in tasks :: t.id }

  predicate LabelTasksFit(tasks: seq<LabelTask>, selectors: set<string>) {
    forall i :: 0 <= i < |tasks| ==> LabelTaskFits(tasks[i], LabelTaskIds(tasks[..i]), selectors)
  }

  predicate ExpectedHeader(e: Expected, selectors: set<string>) {
    && 1 <= e.taskCount <= 8 && |e.tasks| == e.taskCount
    && Unique(e.ordered) && Elements(e.ordered) <= selectors
    && e.executionPermitted == e.disposition.Route? && e.preserveEveryIntent
    && e.plannerPolicy == PlannerPolicy(e.disposition)
    && (forall c :: c in e.conditions ==> IsText(c)) && OptionalText(e.reason)
  }

  predicate ExpectedFits(e: Expected, selectors: set<string>) {
    ExpectedHeader(e, selectors) && LabelTasksFit(e.tasks, selectors)
  }

  /** `_expected`. */
  method CheckExpected(e: Expected, selectors: set<string>) returns (ok: bool)
    ensures ok == ExpectedFits(e, selectors)
  {
    if !ExpectedHeader(e, selectors) {
      return false;
    }
    var seen: set<string> := {};
    for i := 0 to |e.tasks|
      invariant seen == LabelTaskIds(e.tasks[..i])
      invariant forall j :: 0 <= j < i ==> LabelTaskFits(e.tasks[j], LabelTaskIds(e.tasks[..j]), selectors)
    {
      if !LabelTaskFits(e.tasks[i], seen, selectors) {
        return false;
      }
      assert e.tasks[..i + 1] == e.tasks[..i] + [e.tasks[i]];
      seen := seen + {e.tasks[i].id};
    }
    ok := true;
  }

  // ----- the declared plan

  function SelectorIds(selectors: seq<Selector>): seq<string> {
    seq(|selectors|, i requires 0 <= i < |selectors| => selectors[i].id)
  }

  function SelectionIds(branches: seq<Branch>): set<string> { set b | b in branches :: b.selection }

  function BranchIds(branches: seq<Branch>): set<string> { set b | b in branches :: b.id }

  /** A branch's selector reference, given the branches before it. */
  predicate BranchRefers(b: Branch, earlier: set<string>, selectors: set<string>) {
    IsIdentifier(b.selection) && b.selection in selectors && b.selection !in earlier
  }

  /** `QueryPlanRequest`: one to three branches over earlier ones. */
  predicate BranchFits(b: Branch, earlier: set<string>) {
    && IsIdentifier(b.id) && b.id !in earlier
    && IsText(b.question)
    && |b.dependsOn| <= 2 && Distinct(b.dependsOn) && Elements(b.dependsOn) <= earlier
  }

  predicate BranchesFit(branches: seq<Branch>) {
    1 <= |branches| <= 3 && forall i :: 0 <= i < |branches| ==> BranchFits(branches[i], BranchIds(branches[..i]))
  }

  predicate BranchesRefer(branches: seq<Branch>, selectors: set<string>) {
    forall i :: 0 <= i < |branches| ==> BranchRefers(branches[i], SelectionIds(branches[..i]), selectors)
  }

  /** Selector identifier to branch identifier, one branch after the other. */
  function SlotsOf(branches: seq<Branch>): map<string, string> {
    if branches == [] then map[]
    else SlotsOf(branches[..|branches| - 1])[branches[|branches| - 1].selection := branches[|branches| - 1].id]
  }

  datatype Selection = Unresolved | Single(selector: Selector) | Planned(branches: seq<Branch>)

  datatype Resolved = Resolved(selection: Selection, slots: map<string, string>)

  function KindSlot(kind: Kind): string {
    match kind
    case ScopeComparison => "comparison"
    case BomRollup => "bom"
    case _ => "graph"
  }

  predicate SelectorsFit(selectors: seq<Selector>) {
    1 <= |selectors| <= 8 && Unique(SelectorIds(selectors))
  }

  function Resolve(l: Label): Option<Resolved> {
    var ids := Elements(SelectorIds(l.selectors));
    if !SelectorsFit(l.selectors) || !ExpectedFits(l.expected, ids) then None
    else
      match l.plan
      case None =>
        if |l.selectors| != 1 then Some(Resolved(Unresolved, map[]))
        else
          var selector := l.selectors[0];
          Some(Resolved(Single(selector), map[selector.id := KindSlot(selector.kind)]))
      case Some(branches) =>
        if !BranchesRefer(branches, ids) || SelectionIds(branches) != ids || !BranchesFit(branches) then None
        else Some(Resolved(Planned(branches), SlotsOf(branches)))
  }

  lemma SlotKeys(branches: seq<Branch>)
    ensures SlotsOf(branches).Keys == SelectionIds(branches)
  {
    if branches != [] {
      SlotKeys(branches[..|branches| - 1]);
      assert branches == branches[..|branches| - 1] + [branches[|branches| - 1]];
    }
  }

  /** The plan loop of `_selection`. */
  method BindPlan(branches: seq<Branch>, selectors: set<string>) returns (slots: Option<map<string, string>>)
    ensures slots == if BranchesRefer(branches, selectors) then Some(SlotsOf(branches)) else None
  {
    var bound: map<string, string> := map[];
    for i := 0 to |branches|
      invariant bound == SlotsOf(branches[..i])
      invariant forall j :: 0 <= j < i ==> BranchRefers(branches[j], SelectionIds(branches[..j]), selectors)
    {
      SlotKeys(branches[..i]);
      if !BranchRefers(branches[i], bound.Keys, selectors) {
        return None;
      }
      bound := bound[branches[i].selection := branches[i].id];
      assert branches[..i + 1][..i] == branches[..i];
    }
    assert branches[..|branches|] == branches;
    slots := Some(bound);
  }

  /** `_selection`. */
  method ResolveLabel(l: Label) returns (r: Option<Resolved>)
    ensures r == Resolve(l)
  {
    var ids := Elements(SelectorIds(l.selectors));
    if !SelectorsFit(l.selectors) {
      return None;
    }
    var expected := CheckExpected(l.expected, ids);
    if !expected {
      return None;
    }
    match l.plan {
      case None =>
        if |l.selectors| != 1 {
          return Some(Resolved(Unresolved, map[]));
        }
        return Some(Resolved(Single(l.selectors[0]), map[l.selectors[0].id := KindSlot(l.selectors[0].kind)]));
      case Some(branches) =>
        var slots := BindPlan(branches, ids);
        if slots.None? {
          return None;
        }
        SlotKeys(branches);
        if slots.value.Keys != ids || !BranchesFit(branches) {
          return None;
        }
        return Some(Resolved(Planned(branches), slots.value));
    }
  }

  // ----- observed tasks

  /** A task as the planner would observe it; an identifier may be missing. */
  datatype Task = Task(
    selection: Option<string>, template: string, outputs: seq<string>, dependsOn: seq<Option<string>>)

  const GRAPH_OUTPUTS := {"relations", "citations", "coverage"}

  const ALLOWED: map<string, set<string>> := map[
    "compare_two_scopes" := {
      "sum_a", "sum_b", "delta", "percent_change", "pre_round_value", "display_value", "formula", "citations",
      "reviewed_empty_basis"},
    "bom_rollup" := {"totals_by_part", "quantity_basis", "formula", "citations", "reviewed_empty_basis"},
    "graph_contains" := GRAPH_OUTPUTS,
    "graph_where_used" := GRAPH_OUTPUTS
  ]

  /** One task of a ready plan, given the keys before it. */
  predicate TaskFits(t: Task, earlier: set<Option<string>>) {
    && t.selection.Some? && IsIdentifier(t.selection.value) && t.selection !in earlier
    && t.template in ALLOWED
    && 1 <= |t.outputs| <= |ALLOWED[t.template]|
    && Elements(t.outputs) <= ALLOWED[t.template] && Distinct(t.outputs)
    && |t.dependsOn| <= 2 && Distinct(t.dependsOn)
    && (forall d :: d in t.dependsOn ==> d.Some? && IsIdentifier(d.value) && d in earlier)
  }

  function Keys(tasks: seq<Task>): set<Option<string>> { set t | t in tasks :: t.selection }

  /** `_validate_routing_observation` of a ready plan by the planner. */
  predicate ReadyTasks(tasks: seq<Task>) {
    1 <= |tasks| <= 3 && forall i :: 0 <= i < |tasks| ==> TaskFits(tasks[i], Keys(tasks[..i]))
  }

  /** One task of any observation; an unresolved one names no dependencies. */
  predicate TaskShape(t: Task) {
    && (t.selection.Some? ==> IsIdentifier(t.selection.value))
    && (t.selection.None? ==> t.dependsOn == [])
    && t.template in ALLOWED
    && 1 <= |t.outputs| <= |ALLOWED[t.template]|
    && Elements(t.outputs) <= ALLOWED[t.template] && Distinct(t.outputs)
    && |t.dependsOn| <= 2 && Distinct(t.dependsOn)
    && (forall d :: d in t.dependsOn ==> d.Some? && IsIdentifier(d.value))
  }

  /** What the tasks of an observation must be, for a ready plan and for the other
      dispositions. */
  predicate TasksObserved(tasks: seq<Task>, ready: bool) {
    |tasks| <= 8 && if ready then ReadyTasks(tasks) else forall t :: t in tasks ==> TaskShape(t)
  }

  lemma ReadyShape(t: Task, earlier: set<Option<string>>)
    ensures TaskFits(t, earlier) <==>
            && TaskShape(t) && t.selection.Some? && t.selection !in earlier
            && forall d :: d in t.dependsOn ==> d in earlier
  {
  }

  /** `_validate_routing_tasks`; `ready` tells the ready disposition from the others. */
  method CheckTasks(tasks: seq<Task>, ready: bool) returns (ok: bool)
    ensures ok == TasksObserved(tasks, ready)
  {
    hide TaskFits, TaskShape;
    if |tasks| > 8 || (ready && !(1 <= |tasks| <= 3)) {
      return false;
    }
    var seen: set<Option<string>> := {};
    for i := 0 to |tasks|
      invariant seen == Keys(tasks[..i])
      invariant ready ==> forall j :: 0 <= j < i ==> TaskFits(tasks[j], Keys(tasks[..j]))
      invariant forall j :: 0 <= j < i ==> TaskShape(tasks[j])
    {
      var t := tasks[i];
      ReadyShape(t, seen);
      if !TaskShape(t) ||
         (ready && (t.selection.None? || t.selection in seen || exists d :: d in t.dependsOn && d !in seen)) {
        return false;
      }
      assert tasks[..i + 1] == tasks[..i] + [t];
      seen := seen + {t.selection};
    }
    ok := true;
  }

  function TemplateOf(kind: Kind): string {
    match kind
    case ScopeComparison => "compare_two_scopes"
    case BomRollup => "bom_rollup"
    case GraphContains => "graph_contains"
    case GraphWhereUsed => "graph_where_used"
  }

  /** What a task must agree with: the branch it runs, if branches are named. */
  datatype Target = Target(id: Option<string>, kind: Option<Kind>, dependsOn: seq<Option<string>>)

  predicate TaskMatches(t: Task, target: Target) {
    && target.kind.Some? && t.template == TemplateOf(target.kind.value)
    && t.dependsOn == target.dependsOn
    && (target.id.Some? ==> t.selection == target.id)
  }

  /** `_match_selected_tasks`. */
  predicate TasksMatch(tasks: seq<Task>, targets: seq<Target>) {
    |targets| == |tasks| && forall i :: 0 <= i < |tasks| ==> TaskMatches(tasks[i], targets[i])
  }

  function KindOf(selectors: seq<Selector>, id: string): Option<Kind> {
    if selectors == [] then None
    else if selectors[|selectors| - 1].id == id then Some(selectors[|selectors| - 1].kind)
    else KindOf(selectors[..|selectors| - 1], id)
  }

  function Somes(ids: seq<string>): seq<Option<string>> {
    seq(|ids|, i requires 0 <= i < |ids| => Some(ids[i]))
  }

  // ----- the third contract version

  /** Task identifier to slot, for the tasks projected so far. */
  function TaskSlots(tasks: seq<LabelTask>, slots: map<string, string>): map<string, string> {
    if tasks == [] then map[]
    else
      var last := tasks[|tasks| - 1];
      var before := TaskSlots(tasks[..|tasks| - 1], slots);
      if last.selection.Some? && last.selection.value in slots then before[last.id := slots[last.selection.value]]
      else before
  }

  function Lookup(m: map<string, string>, ids: seq<string>): seq<Option<string>> {
    seq(|ids|, i requires 0 <= i < |ids| => if ids[i] in m then Some(m[ids[i]]) else None)
  }

  function ProjectTask(t: LabelTask, slots: map<string, string>, taskSlots: map<string, string>): Task {
    Task(
      if t.selection.Some? && t.selection.value in slots then Some(slots[t.selection.value]) else None,
      t.template, SortIds(Elements(t.outputs)), Lookup(taskSlots, t.dependsOn))
  }

  function ProjectTasks(tasks: seq<LabelTask>, slots: map<string, string>): seq<Task> {
    if tasks == [] then []
    else
      ProjectTasks(tasks[..|tasks| - 1], slots) +
      [ProjectTask(tasks[|tasks| - 1], slots, TaskSlots(tasks[..|tasks| - 1], slots))]
  }

  predicate AllResolved(tasks: seq<LabelTask>, slots: map<string, string>) {
    forall t :: t in tasks ==> t.selection.Some? && IsIdentifier(t.selection.value) && t.selection.value in slots
  }

  function TaskSelections(tasks: seq<LabelTask>): seq<Option<string>> {
    seq(|tasks|, i requires 0 <= i < |tasks| => tasks[i].selection)
  }

  function Targets(selection: Selection, selectors: seq<Selector>): seq<Target> {
    match selection
    case Unresolved => []
    case Single(selector) => [Target(None, Some(selector.kind), [])]
    case Planned(branches) =>
      seq(|branches|, i requires 0 <= i < |branches| =>
        Target(Some(branches[i].id), KindOf(selectors, branches[i].selection), Somes(branches[i].dependsOn)))
  }

  datatype Compiled = Compiled(resolved: Resolved, tasks: seq<Task>)

  /** Whether the expected tasks of a label are projected at all. */
  predicate Projects(l: Label, resolved: Resolved) {
    l.expected.disposition.Route? && resolved.slots != map[]
  }

  /** `compile_task_label`, up to the shape of the l. */
  function Compile(l: Label): Option<Compiled> {
    match Resolve(l)
    case None => None
    case Some(resolved) =>
      if !Projects(l, resolved) then Some(Compiled(resolved, []))
      else
        var e := l.expected;
        var tasks := ProjectTasks(e.tasks, resolved.slots);
        if !AllResolved(e.tasks, resolved.slots) || Somes(e.ordered) != TaskSelections(e.tasks)
           || Elements(e.ordered) != resolved.slots.Keys || !ReadyTasks(tasks)
           || !TasksMatch(tasks, Targets(resolved.selection, l.selectors))
        then None
        else Some(Compiled(resolved, tasks))
  }

  /** The task loop of `_project_expected`. */
  method Project(tasks: seq<LabelTask>, slots: map<string, string>) returns (r: Option<seq<Task>>)
    ensures r == if AllResolved(tasks, slots) then Some(ProjectTasks(tasks, slots)) else None
  {
    var projected: seq<Task> := [];
    var taskSlots: map<string, string> := map[];
    for i := 0 to |tasks|
      invariant AllResolved(tasks[..i], slots)
      invariant projected == ProjectTasks(tasks[..i], slots) && taskSlots == TaskSlots(tasks[..i], slots)
    {
      var t := tasks[i];
      if t.selection.None? || !IsIdentifier(t.selection.value) || t.selection.value !in slots {
        return None;
      }
      assert tasks[..i + 1][..i] == tasks[..i] && tasks[..i + 1] == tasks[..i] + [t];
      projected := projected + [ProjectTask(t, slots, taskSlots)];
      taskSlots := taskSlots[t.id := slots[t.selection.value]];
    }
    assert tasks[..|tasks|] == tasks;
    r := Some(projected);
  }

  // ----- the fourth contract version

  /** The branch identifiers a selection's branch depends on, as selections. */
  function DeclaredDependencies(l: Label, id: string): seq<Option<string>> {
    match l.plan
    case None => []
    case Some(branches) => DependenciesIn(branches, branches, id)
  }

  function DependenciesIn(branches: seq<Branch>, all: seq<Branch>, id: string): seq<Option<string>> {
    if branches == [] then []
    else
      var last := branches[|branches| - 1];
      if last.selection == id then Lookup(BranchSelections(all), last.dependsOn)
      else DependenciesIn(branches[..|branches| - 1], all, id)
  }

  /** Branch identifier to selector identifier. */
  function BranchSelections(branches: seq<Branch>): map<string, string> {
    if branches == [] then map[]
    else
      BranchSelections(branches[..|branches| - 1])[branches[|branches| - 1].id := branches[|branches| - 1].selection]
  }

  /** Task identifier to selector identifier, over all tasks. */
  function TaskChoices(tasks: seq<LabelTask>): map<string, string> {
    if tasks == [] then map[]
    else
      var last := tasks[|tasks| - 1];
      if last.selection.Some? then TaskChoices(tasks[..|tasks| - 1])[last.id := last.selection.value]
      else TaskChoices(tasks[..|tasks| - 1]) - {last.id}
  }

  function CandidateTask(t: LabelTask, choices: map<string, string>): Task {
    Task(t.selection, t.template, SortIds(Elements(t.outputs)), Lookup(choices, t.dependsOn))
  }

  function CandidateTasks(tasks: seq<LabelTask>): seq<Task> {
    seq(|tasks|, i requires 0 <= i < |tasks| => CandidateTask(tasks[i], TaskChoices(tasks)))
  }

  predicate CandidateMatches(l: Label, t: Task) {
    && t.selection.Some?
    && TaskMatches(t, Target(t.selection, KindOf(l.selectors, t.selection.value),
                             DeclaredDependencies(l, t.selection.value)))
  }

  /** `compile_candidate_task_label`: it first compiles the third version. */
  function CompileCandidate(l: Label): Option<seq<Task>> {
    if Compile(l).None? then None
    else if !l.expected.disposition.Route? then Some([])
    else
      var tasks := CandidateTasks(l.expected.tasks);
      if Somes(l.expected.ordered) != TaskSelections(l.expected.tasks) || !ReadyTasks(tasks)
         || exists t :: t in tasks && !CandidateMatches(l, t)
      then None
      else Some(tasks)
  }

  // ----- exported branches of an observation

  datatype ExportedBranch = ExportedBranch(
    id: string, template: string, dependsOn: seq<string>, status: string, reason: Option<string>, sources: seq<string>)

  predicate ExportedFits(b: ExportedBranch, earlier: set<string>) {
    && IsIdentifier(b.id) && b.id !in earlier && IsIdentifier(b.template)
    && Unique(b.dependsOn) && |b.dependsOn| <= 2 && Elements(b.dependsOn) <= earlier
    && IsText(b.status) && OptionalText(b.reason)
    && (forall s :: s in b.sources ==> IsText(s)) && Distinct(b.sources)
  }

  function ExportedIds(branches: seq<ExportedBranch>): set<string> { set b | b in branches :: b.id }

  predicate ExportedBranchesFit(branches: seq<ExportedBranch>) {
    forall i :: 0 <= i < |branches| ==> ExportedFits(branches[i], ExportedIds(branches[..i]))
  }

  /** `_validate_branches`. */
  method CheckBranches(branches: seq<ExportedBranch>) returns (ok: bool)
    ensures ok == ExportedBranchesFit(branches)
  {
    var seen: set<string> := {};
    for i := 0 to |branches|
      invariant seen == ExportedIds(branches[..i])
      invariant forall j :: 0 <= j < i ==> ExportedFits(branches[j], ExportedIds(branches[..j]))
    {
      if !ExportedFits(branches[i], seen) {
        return false;
      }
      assert branches[..i + 1] == branches[..i] + [branches[i]];
      seen := seen + {branches[i].id};
    }
    ok := true;
  }
}

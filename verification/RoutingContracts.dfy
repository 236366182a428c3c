/** The two contract versions agree: compiling for the third and renaming
    selections to slots is compiling for the fourth, and every accepted task
    list is ordered along its dependencies. */
module RoutingContracts {
  import opened Collections
  import opened Strings
  import opened RoutingLabels

  // ----- ordered along the dependencies

  /** Every dependency is the key of an earlier element. */
  predicate Topological<K(==)>(keys: seq<K>, dependencies: seq<set<K>>) {
    && |keys| == |dependencies| && Distinct(keys)
    && forall i :: 0 <= i < |keys| ==> dependencies[i] <= Elements(keys[..i])
  }

  /** A walk from an element to one it depends on, and so forth. */
  predicate Walk<K(==)>(keys: seq<K>, dependencies: seq<set<K>>, path: seq<nat>)
    requires |keys| == |dependencies|
  {
    && (forall k :: 0 <= k < |path| ==> path[k] < |keys|)
    && forall k :: 0 <= k < |path| - 1 ==> keys[path[k + 1]] in dependencies[path[k]]
  }

  lemma DependencyIsEarlier<K>(keys: seq<K>, dependencies: seq<set<K>>, i: nat, j: nat)
    requires Topological(keys, dependencies) && i < |keys| && j < |keys| && keys[j] in dependencies[i]
    ensures j < i
  {
    assert keys[j] in Elements(keys[..i]);
    var e :| 0 <= e < i && keys[e] == keys[j];
  }

  /** No chain of dependencies returns to where it started. */
  lemma {:induction false} NoCycles<K>(keys: seq<K>, dependencies: seq<set<K>>, path: seq<nat>)
    requires Topological(keys, dependencies) && Walk(keys, dependencies, path) && |path| >= 2
    ensures path[|path| - 1] < path[0]
  {
    DependencyIsEarlier(keys, dependencies, path[|path| - 2], path[|path| - 1]);
    if |path| > 2 {
      var front := path[..|path| - 1];
      assert forall k :: 0 <= k < |front| ==> front[k] == path[k];
      NoCycles(keys, dependencies, front);
    }
  }

  function TaskKeys(tasks: seq<Task>): seq<Option<string>> {
    seq(|tasks|, i requires 0 <= i < |tasks| => tasks[i].selection)
  }

  function TaskDependencies(tasks: seq<Task>): seq<set<Option<string>>> {
    seq(|tasks|, i requires 0 <= i < |tasks| => Elements(tasks[i].dependsOn))
  }

  lemma KeysOfPrefix(tasks: seq<Task>, i: nat)
    requires i <= |tasks|
    ensures Elements(TaskKeys(tasks)[..i]) == Keys(tasks[..i])
  {
    var keys := TaskKeys(tasks)[..i];
    forall k ensures k in Elements(keys) <==> k in Keys(tasks[..i]) {
      if k in keys {
        var j :| 0 <= j < i && keys[j] == k;
        assert tasks[..i][j] in tasks[..i];
      }
      if k in Keys(tasks[..i]) {
        var t :| t in tasks[..i] && t.selection == k;
        var j :| 0 <= j < i && tasks[..i][j] == t;
        assert keys[j] == k;
      }
    }
  }

  /** Keys that are new and dependencies that are known, one element after the other. */
  lemma ByPrefixes<K>(keys: seq<K>, dependencies: seq<set<K>>)
    requires |keys| == |dependencies|
    requires forall i :: 0 <= i < |keys| ==> keys[i] !in keys[..i] && dependencies[i] <= Elements(keys[..i])
    ensures Topological(keys, dependencies)
  {
    forall i, j | 0 <= i < j < |keys| ensures keys[i] != keys[j] {
      assert keys[i] == keys[..j][i];
    }
  }

  /** An accepted list of ready tasks is ordered along its dependencies, hence
      acyclic. */
  lemma ReadyIsTopological(tasks: seq<Task>)
    requires ReadyTasks(tasks)
    ensures Topological(TaskKeys(tasks), TaskDependencies(tasks))
  {
    hide Topological, Keys;
    var keys, deps := TaskKeys(tasks), TaskDependencies(tasks);
    forall i | 0 <= i < |tasks| ensures keys[i] !in keys[..i] && deps[i] <= Elements(keys[..i]) {
      KeysOfPrefix(tasks, i);
      assert TaskFits(tasks[i], Keys(tasks[..i]));
      assert keys[i] !in Elements(keys[..i]);
    }
    ByPrefixes(keys, deps);
  }

  function LabelKeys(tasks: seq<LabelTask>): seq<string> {
    seq(|tasks|, i requires 0 <= i < |tasks| => tasks[i].id)
  }

  function LabelDependencies(tasks: seq<LabelTask>): seq<set<string>> {
    seq(|tasks|, i requires 0 <= i < |tasks| => Elements(tasks[i].dependsOn))
  }

  lemma LabelKeysOfPrefix(tasks: seq<LabelTask>, i: nat)
    requires i <= |tasks|
    ensures Elements(LabelKeys(tasks)[..i]) == LabelTaskIds(tasks[..i])
  {
    var keys := LabelKeys(tasks)[..i];
    forall k ensures k in Elements(keys) <==> k in LabelTaskIds(tasks[..i]) {
      if k in keys {
        var j :| 0 <= j < i && keys[j] == k;
        assert tasks[..i][j] in tasks[..i];
      }
      if k in LabelTaskIds(tasks[..i]) {
        var t :| t in tasks[..i] && t.id == k;
        var j :| 0 <= j < i && tasks[..i][j] == t;
        assert keys[j] == k;
      }
    }
  }

  /** So are the expected tasks of a label, by their own identifiers. */
  lemma LabelIsTopological(tasks: seq<LabelTask>, selectors: set<string>)
    requires LabelTasksFit(tasks, selectors)
    ensures Topological(LabelKeys(tasks), LabelDependencies(tasks))
  {
    hide Topological, LabelTaskIds, IsIdentifier;
    var keys, deps := LabelKeys(tasks), LabelDependencies(tasks);
    forall i | 0 <= i < |tasks| ensures keys[i] !in keys[..i] && deps[i] <= Elements(keys[..i]) {
      LabelKeysOfPrefix(tasks, i);
      assert LabelTaskFits(tasks[i], LabelTaskIds(tasks[..i]), selectors);
      assert keys[i] !in Elements(keys[..i]);
    }
    ByPrefixes(keys, deps);
  }

  function ExportedKeys(branches: seq<ExportedBranch>): seq<string> {
    seq(|branches|, i requires 0 <= i < |branches| => branches[i].id)
  }

  function ExportedDependencies(branches: seq<ExportedBranch>): seq<set<string>> {
    seq(|branches|, i requires 0 <= i < |branches| => Elements(branches[i].dependsOn))
  }

  lemma ExportedKeysOfPrefix(branches: seq<ExportedBranch>, i: nat)
    requires i <= |branches|
    ensures Elements(ExportedKeys(branches)[..i]) == ExportedIds(branches[..i])
  {
    var keys := ExportedKeys(branches)[..i];
    forall k ensures k in Elements(keys) <==> k in ExportedIds(branches[..i]) {
      if k in keys {
        var j :| 0 <= j < i && keys[j] == k;
        assert branches[..i][j] in branches[..i];
      }
      if k in ExportedIds(branches[..i]) {
        var b :| b in branches[..i] && b.id == k;
        var j :| 0 <= j < i && branches[..i][j] == b;
        assert keys[j] == k;
      }
    }
  }

  /** And the branches an observation exports. */
  lemma ExportedIsTopological(branches: seq<ExportedBranch>)
    requires ExportedBranchesFit(branches)
    ensures Topological(ExportedKeys(branches), ExportedDependencies(branches))
  {
    hide Topological, ExportedIds, IsIdentifier, IsText;
    var keys, deps := ExportedKeys(branches), ExportedDependencies(branches);
    forall i | 0 <= i < |branches| ensures keys[i] !in keys[..i] && deps[i] <= Elements(keys[..i]) {
      ExportedKeysOfPrefix(branches, i);
      assert ExportedFits(branches[i], ExportedIds(branches[..i]));
      assert keys[i] !in Elements(keys[..i]);
    }
    ByPrefixes(keys, deps);
  }

  // ----- slots

  lemma PrefixIds(branches: seq<Branch>, i: nat, j: nat)
    requires i < j <= |branches|
    ensures branches[i].id in BranchIds(branches[..j]) && branches[i].selection in SelectionIds(branches[..j])
  {
    assert branches[i] == branches[..j][i];
  }

  /** Branch identifiers and their selections are both distinct. */
  lemma BranchesDistinct(branches: seq<Branch>, selectors: set<string>)
    requires BranchesFit(branches) && BranchesRefer(branches, selectors)
    ensures forall i, j :: 0 <= i < j < |branches| ==>
              branches[i].id != branches[j].id && branches[i].selection != branches[j].selection
  {
    forall i, j | 0 <= i < j < |branches|
      ensures branches[i].id != branches[j].id && branches[i].selection != branches[j].selection
    {
      PrefixIds(branches, i, j);
      assert BranchFits(branches[j], BranchIds(branches[..j]));
      assert BranchRefers(branches[j], SelectionIds(branches[..j]), selectors);
    }
  }

  predicate PairwiseDistinct(branches: seq<Branch>) {
    forall i, j :: 0 <= i < j < |branches| ==>
      branches[i].id != branches[j].id && branches[i].selection != branches[j].selection
  }

  lemma {:induction false} SlotOfBranch(branches: seq<Branch>, i: nat)
    requires PairwiseDistinct(branches) && i < |branches|
    ensures branches[i].selection in SlotsOf(branches) && SlotsOf(branches)[branches[i].selection] == branches[i].id
    ensures branches[i].id in BranchSelections(branches)
    ensures BranchSelections(branches)[branches[i].id] == branches[i].selection
  {
    if i < |branches| - 1 {
      var front := branches[..|branches| - 1];
      SlotOfBranch(front, i);
      assert front[i] == branches[i];
    }
  }

  lemma {:induction false} SlotsComeFromBranches(branches: seq<Branch>, s: string)
    requires s in SlotsOf(branches)
    ensures exists i :: 0 <= i < |branches| && branches[i].selection == s
  {
    if branches[|branches| - 1].selection != s {
      var front := branches[..|branches| - 1];
      SlotsComeFromBranches(front, s);
      var i :| 0 <= i < |front| && front[i].selection == s;
      assert branches[i] == front[i];
    }
  }

  predicate Injective(slots: map<string, string>) {
    forall a, b :: a in slots && b in slots && slots[a] == slots[b] ==> a == b
  }

  /** Renaming selections to slots loses nothing, and the declared plan inverts it. */
  lemma SlotsInjective(branches: seq<Branch>)
    requires PairwiseDistinct(branches)
    ensures Injective(SlotsOf(branches))
    ensures forall s :: s in SlotsOf(branches) ==>
              && SlotsOf(branches)[s] in BranchSelections(branches)
              && BranchSelections(branches)[SlotsOf(branches)[s]] == s
  {
    var slots := SlotsOf(branches);
    forall s | s in slots
      ensures slots[s] in BranchSelections(branches) && BranchSelections(branches)[slots[s]] == s
    {
      SlotsComeFromBranches(branches, s);
      var i :| 0 <= i < |branches| && branches[i].selection == s;
      SlotOfBranch(branches, i);
    }
  }

  lemma ResolvedSlots(l: Label)
    requires Resolve(l).Some?
    ensures Injective(Resolve(l).value.slots)
    ensures l.plan.Some? ==> PairwiseDistinct(l.plan.value)
  {
    if l.plan.Some? {
      BranchesDistinct(l.plan.value, Elements(SelectorIds(l.selectors)));
      SlotsInjective(l.plan.value);
    }
  }

  // ----- the projected tasks, one by one

  lemma {:induction false} ProjectedAt(tasks: seq<LabelTask>, slots: map<string, string>, i: nat)
    requires i < |tasks|
    ensures |ProjectTasks(tasks, slots)| == |tasks|
    ensures ProjectTasks(tasks, slots)[i] == ProjectTask(tasks[i], slots, TaskSlots(tasks[..i], slots))
  {
    var front := tasks[..|tasks| - 1];
    ProjectedLength(front, slots);
    if i < |front| {
      ProjectedAt(front, slots, i);
      assert front[..i] == tasks[..i];
    }
  }

  lemma {:induction false} ProjectedLength(tasks: seq<LabelTask>, slots: map<string, string>)
    ensures |ProjectTasks(tasks, slots)| == |tasks|
  {
    if tasks != [] {
      ProjectedLength(tasks[..|tasks| - 1], slots);
    }
  }

  /** Task slots are the slots of task choices. */
  lemma {:induction false} SlotsOfChoices(tasks: seq<LabelTask>, slots: map<string, string>)
    requires AllResolved(tasks, slots)
    ensures TaskSlots(tasks, slots).Keys == TaskChoices(tasks).Keys == LabelTaskIds(tasks)
    ensures forall d :: d in TaskChoices(tasks) ==>
              IsIdentifier(TaskChoices(tasks)[d]) && TaskChoices(tasks)[d] in slots &&
              TaskSlots(tasks, slots)[d] == slots[TaskChoices(tasks)[d]]
  {
    if tasks != [] {
      var front, last := tasks[..|tasks| - 1], tasks[|tasks| - 1];
      assert tasks == front + [last];
      SlotsOfChoices(front, slots);
    }
  }

  lemma FreshId(t: LabelTask, earlier: set<string>, selectors: set<string>)
    requires LabelTaskFits(t, earlier, selectors)
    ensures t.id !in earlier
  {
  }

  /** Choices over a prefix agree with those over all tasks. */
  lemma {:induction false} ChoicesOfPrefix(
    tasks: seq<LabelTask>, slots: map<string, string>, selectors: set<string>, i: nat, d: string)
    requires LabelTasksFit(tasks, selectors) && AllResolved(tasks, slots) && i <= |tasks|
    requires d in LabelTaskIds(tasks[..i])
    ensures d in TaskChoices(tasks[..i]) && d in TaskChoices(tasks)
    ensures TaskChoices(tasks)[d] == TaskChoices(tasks[..i])[d]
  {
    hide LabelTaskFits;
    SlotsOfChoices(tasks[..i], slots);
    if i < |tasks| {
      var front, last := tasks[..|tasks| - 1], tasks[|tasks| - 1];
      forall k | 0 <= k < |front| ensures LabelTaskFits(front[k], LabelTaskIds(front[..k]), selectors) {
        assert front[..k] == tasks[..k];
      }
      assert front[..i] == tasks[..i];
      ChoicesOfPrefix(front, slots, selectors, i, d);
      FreshId(last, LabelTaskIds(front), selectors);
      assert forall t :: t in tasks[..i] ==> t in front;
    } else {
      assert tasks[..i] == tasks;
    }
  }

  function RenamedId(id: Option<string>, slots: map<string, string>): Option<string> {
    if id.Some? && id.value in slots then Some(slots[id.value]) else None
  }

  function RenamedIds(ids: seq<Option<string>>, slots: map<string, string>): seq<Option<string>> {
    seq(|ids|, i requires 0 <= i < |ids| => RenamedId(ids[i], slots))
  }

  function RenamedTask(t: Task, slots: map<string, string>): Task {
    Task(RenamedId(t.selection, slots), t.template, t.outputs, RenamedIds(t.dependsOn, slots))
  }

  function Renamed(tasks: seq<Task>, slots: map<string, string>): seq<Task> {
    seq(|tasks|, i requires 0 <= i < |tasks| => RenamedTask(tasks[i], slots))
  }

  lemma DependencyRenamed(tasks: seq<LabelTask>, slots: map<string, string>, selectors: set<string>, i: nat, d: string)
    requires LabelTasksFit(tasks, selectors) && AllResolved(tasks, slots) && i < |tasks|
    requires d in LabelTaskIds(tasks[..i])
    ensures d in TaskChoices(tasks) && TaskChoices(tasks)[d] in slots && d in TaskSlots(tasks[..i], slots)
    ensures TaskSlots(tasks[..i], slots)[d] == slots[TaskChoices(tasks)[d]]
    ensures DependencyAt(tasks, slots, i, Some(TaskChoices(tasks)[d]))
  {
    hide TaskChoices, TaskSlots;
    SlotsOfChoices(tasks[..i], slots);
    ChoicesOfPrefix(tasks, slots, selectors, i, d);
    ChoiceIsSelection(tasks[..i], slots, d);
  }

  /** A label task and where its dependencies point. */
  lemma DependenciesRenamed(tasks: seq<LabelTask>, slots: map<string, string>, selectors: set<string>, i: nat)
    requires LabelTasksFit(tasks, selectors) && AllResolved(tasks, slots) && i < |tasks|
    ensures Lookup(TaskSlots(tasks[..i], slots), tasks[i].dependsOn) ==
            RenamedIds(Lookup(TaskChoices(tasks), tasks[i].dependsOn), slots)
    ensures forall k :: 0 <= k < |tasks[i].dependsOn| ==>
              DependencyAt(tasks, slots, i, Lookup(TaskChoices(tasks), tasks[i].dependsOn)[k])
  {
    hide TaskChoices, TaskSlots, DependencyAt, LabelTaskIds;
    var deps := tasks[i].dependsOn;
    assert LabelTaskFits(tasks[i], LabelTaskIds(tasks[..i]), selectors);
    forall k | 0 <= k < |deps|
      ensures Lookup(TaskSlots(tasks[..i], slots), deps)[k] == RenamedIds(Lookup(TaskChoices(tasks), deps), slots)[k]
      ensures DependencyAt(tasks, slots, i, Lookup(TaskChoices(tasks), deps)[k])
    {
      assert deps[k] in Elements(deps);
      DependencyRenamed(tasks, slots, selectors, i, deps[k]);
    }
  }

  /** A resolved dependency: the selection of an earlier task. */
  predicate DependencyAt(tasks: seq<LabelTask>, slots: map<string, string>, i: nat, d: Option<string>)
    requires i <= |tasks|
  {
    && d.Some? && IsIdentifier(d.value) && d.value in slots
    && exists t :: t in tasks[..i] && t.selection == d
  }

  lemma {:induction false} ChoiceIsSelection(tasks: seq<LabelTask>, slots: map<string, string>, d: string)
    requires AllResolved(tasks, slots) && d in TaskChoices(tasks)
    ensures exists t :: t in tasks && t.selection == Some(TaskChoices(tasks)[d])
  {
    if tasks != [] {
      var front, last := tasks[..|tasks| - 1], tasks[|tasks| - 1];
      assert tasks == front + [last];
      if last.id == d {
        assert last in tasks;
      } else {
        ChoiceIsSelection(front, slots, d);
        var t :| t in front && t.selection == Some(TaskChoices(front)[d]);
        assert t in tasks;
      }
    }
  }

  /** The tasks of the third version are those of the fourth under the renaming. */
  lemma ProjectionIsRenaming(tasks: seq<LabelTask>, slots: map<string, string>, selectors: set<string>)
    requires LabelTasksFit(tasks, selectors) && AllResolved(tasks, slots)
    ensures ProjectTasks(tasks, slots) == Renamed(CandidateTasks(tasks), slots)
  {
    ProjectedLength(tasks, slots);
    forall i | 0 <= i < |tasks| ensures ProjectTasks(tasks, slots)[i] == RenamedTask(CandidateTasks(tasks)[i], slots) {
      ProjectedAt(tasks, slots, i);
      DependenciesRenamed(tasks, slots, selectors, i);
      assert tasks[i] in tasks;
    }
  }

  // ----- acceptance carries over

  lemma KeyRenamed(tasks: seq<Task>, slots: map<string, string>, i: nat, k: Option<string>)
    requires i <= |tasks| && k in Keys(tasks[..i])
    ensures RenamedId(k, slots) in Keys(Renamed(tasks, slots)[..i])
  {
    var t :| t in tasks[..i] && t.selection == k;
    var j :| 0 <= j < i && tasks[..i][j] == t;
    assert Renamed(tasks, slots)[..i][j] in Renamed(tasks, slots)[..i];
    assert Renamed(tasks, slots)[..i][j].selection == RenamedId(k, slots);
  }

  lemma DistinctRenamed(ids: seq<Option<string>>, slots: map<string, string>)
    requires Distinct(RenamedIds(ids, slots))
    ensures Distinct(ids)
  {
    forall i, j | 0 <= i < j < |ids| ensures ids[i] != ids[j] {
      assert RenamedIds(ids, slots)[i] != RenamedIds(ids, slots)[j];
    }
  }

  lemma CandidateFits(tasks: seq<LabelTask>, slots: map<string, string>, selectors: set<string>, i: nat)
    requires LabelTasksFit(tasks, selectors) && AllResolved(tasks, slots) && i < |tasks|
    requires TaskFits(Renamed(CandidateTasks(tasks), slots)[i], Keys(Renamed(CandidateTasks(tasks), slots)[..i]))
    ensures TaskFits(CandidateTasks(tasks)[i], Keys(CandidateTasks(tasks)[..i]))
  {
    hide TaskChoices, LabelTaskFits;
    var v4 := CandidateTasks(tasks);
    assert tasks[i] in tasks;
    if v4[i].selection in Keys(v4[..i]) {
      KeyRenamed(v4, slots, i, v4[i].selection);
    }
    DistinctRenamed(v4[i].dependsOn, slots);
    DependenciesRenamed(tasks, slots, selectors, i);
    forall d | d in v4[i].dependsOn ensures d.Some? && IsIdentifier(d.value) && d in Keys(v4[..i]) {
      var k :| 0 <= k < |v4[i].dependsOn| && v4[i].dependsOn[k] == d;
      assert DependencyAt(tasks, slots, i, d);
      DependencyIsKey(tasks, i, d);
    }
  }

  lemma DependencyIsKey(tasks: seq<LabelTask>, i: nat, d: Option<string>)
    requires i <= |tasks| && exists t :: t in tasks[..i] && t.selection == d
    ensures d in Keys(CandidateTasks(tasks)[..i])
  {
    var t :| t in tasks[..i] && t.selection == d;
    var j :| 0 <= j < i && tasks[..i][j] == t;
    var front := CandidateTasks(tasks)[..i];
    assert front[j].selection == d && front[j] in front;
  }

  /** If the renamed tasks are ready, so are the tasks. */
  lemma ReadyRenamed(tasks: seq<LabelTask>, slots: map<string, string>, selectors: set<string>)
    requires LabelTasksFit(tasks, selectors) && AllResolved(tasks, slots)
    requires ReadyTasks(Renamed(CandidateTasks(tasks), slots))
    ensures ReadyTasks(CandidateTasks(tasks))
  {
    hide TaskFits, LabelTasksFit, AllResolved;
    forall i | 0 <= i < |tasks| ensures TaskFits(CandidateTasks(tasks)[i], Keys(CandidateTasks(tasks)[..i])) {
      CandidateFits(tasks, slots, selectors, i);
    }
  }

  // ----- the declared plan

  lemma {:induction false} DependenciesOfBranch(branches: seq<Branch>, all: seq<Branch>, i: nat)
    requires PairwiseDistinct(branches) && i < |branches|
    ensures DependenciesIn(branches, all, branches[i].selection) == Lookup(BranchSelections(all), branches[i].dependsOn)
  {
    if i < |branches| - 1 {
      var front := branches[..|branches| - 1];
      DependenciesOfBranch(front, all, i);
      assert front[i] == branches[i];
    }
  }

  lemma InvertedDependencies(ids: seq<Option<string>>, names: seq<string>, branches: seq<Branch>)
    requires PairwiseDistinct(branches)
    requires forall d :: d in ids ==> d.Some? && d.value in SlotsOf(branches)
    requires RenamedIds(ids, SlotsOf(branches)) == Somes(names)
    ensures ids == Lookup(BranchSelections(branches), names)
  {
    SlotsInjective(branches);
    assert |ids| == |RenamedIds(ids, SlotsOf(branches))| == |names|;
    forall k | 0 <= k < |ids| ensures ids[k] == Lookup(BranchSelections(branches), names)[k] {
      assert ids[k] in ids;
      assert RenamedIds(ids, SlotsOf(branches))[k] == Somes(names)[k];
    }
  }

  /** The slot of a selection names the branch that selects it. */
  lemma BranchOfSlot(branches: seq<Branch>, s: string, i: nat)
    requires PairwiseDistinct(branches) && i < |branches| && s in SlotsOf(branches)
    requires SlotsOf(branches)[s] == branches[i].id
    ensures branches[i].selection == s
  {
    SlotsInjective(branches);
    SlotOfBranch(branches, i);
  }

  lemma MatchedInPlan(l: Label, branches: seq<Branch>, t: Task, i: nat)
    requires l.plan == Some(branches) && PairwiseDistinct(branches) && i < |branches|
    requires t.selection.Some? && t.selection.value in SlotsOf(branches)
    requires forall d :: d in t.dependsOn ==> d.Some? && d.value in SlotsOf(branches)
    requires TaskMatches(RenamedTask(t, SlotsOf(branches)),
                         Target(Some(branches[i].id), KindOf(l.selectors, branches[i].selection),
                                Somes(branches[i].dependsOn)))
    ensures CandidateMatches(l, t)
  {
    BranchOfSlot(branches, t.selection.value, i);
    DependenciesOfBranch(branches, branches, i);
    InvertedDependencies(t.dependsOn, branches[i].dependsOn, branches);
  }

  lemma MatchedAlone(l: Label, t: Task, slots: map<string, string>)
    requires l.plan == None && |l.selectors| == 1 && slots.Keys == {l.selectors[0].id}
    requires t.selection.Some? && t.selection.value in slots
    requires TaskMatches(RenamedTask(t, slots), Target(None, Some(l.selectors[0].kind), []))
    ensures CandidateMatches(l, t)
  {
    assert |RenamedIds(t.dependsOn, slots)| == |t.dependsOn|;
  }

  /** A candidate's dependencies are selections that have slots. */
  lemma CandidateResolved(tasks: seq<LabelTask>, slots: map<string, string>, selectors: set<string>, i: nat)
    requires LabelTasksFit(tasks, selectors) && AllResolved(tasks, slots) && i < |tasks|
    ensures var t := CandidateTasks(tasks)[i];
            && t.selection.Some? && t.selection.value in slots
            && forall d :: d in t.dependsOn ==> d.Some? && d.value in slots
  {
    hide TaskChoices, LabelTaskFits;
    assert tasks[i] in tasks;
    DependenciesRenamed(tasks, slots, selectors, i);
    var t := CandidateTasks(tasks)[i];
    forall d | d in t.dependsOn ensures d.Some? && d.value in slots {
      var k :| 0 <= k < |t.dependsOn| && t.dependsOn[k] == d;
      assert DependencyAt(tasks, slots, i, d);
    }
  }

  /** What a compiled, resolved route label is known to satisfy. */
  predicate Accepted(l: Label, resolved: Resolved) {
    var e := l.expected;
    && LabelTasksFit(e.tasks, Elements(SelectorIds(l.selectors)))
    && AllResolved(e.tasks, resolved.slots)
    && Somes(e.ordered) == TaskSelections(e.tasks)
    && ReadyTasks(ProjectTasks(e.tasks, resolved.slots))
    && TasksMatch(ProjectTasks(e.tasks, resolved.slots), Targets(resolved.selection, l.selectors))
  }

  lemma CompiledIsAccepted(l: Label)
    requires Compile(l).Some? && Projects(l, Compile(l).value.resolved)
    ensures Resolve(l) == Some(Compile(l).value.resolved) && Accepted(l, Compile(l).value.resolved)
    ensures Compile(l).value.tasks == ProjectTasks(l.expected.tasks, Compile(l).value.resolved.slots)
  {
    hide LabelTasksFit, ReadyTasks, TasksMatch, AllResolved;
  }

  lemma ResolvedShape(l: Label)
    requires Resolve(l).Some? && Resolve(l).value.slots != map[]
    ensures var r := Resolve(l).value;
            match l.plan
            case None =>
              |l.selectors| == 1 && r.selection == Single(l.selectors[0]) && r.slots.Keys == {l.selectors[0].id}
            case Some(branches) => r.selection == Planned(branches) && r.slots == SlotsOf(branches)
  {
    hide ExpectedFits, BranchesRefer, BranchesFit;
  }

  lemma CandidateMatched(l: Label, resolved: Resolved, i: nat)
    requires Resolve(l) == Some(resolved) && resolved.slots != map[] && Accepted(l, resolved)
    requires i < |l.expected.tasks|
    ensures CandidateMatches(l, CandidateTasks(l.expected.tasks)[i])
  {
    hide LabelTasksFit, ReadyTasks, AllResolved, Resolve, ProjectTasks, CandidateMatches, TaskMatches;
    var tasks, slots := l.expected.tasks, resolved.slots;
    var selectors := Elements(SelectorIds(l.selectors));
    var t := CandidateTasks(tasks)[i];
    ProjectionIsRenaming(tasks, slots, selectors);
    CandidateResolved(tasks, slots, selectors, i);
    ResolvedShape(l);
    ResolvedSlots(l);
    var targets := Targets(resolved.selection, l.selectors);
    assert TaskMatches(RenamedTask(t, slots), targets[i]);
    if l.plan.None? {
      MatchedAlone(l, t, slots);
    } else {
      MatchedInPlan(l, l.plan.value, t, i);
    }
  }

  /** For a resolved route label the fourth version accepts exactly what the third
      accepts; the third version's tasks are then the fourth's under the renaming
      of selections to slots, and the renaming is injective. */
  lemma CompilationsCommute(l: Label)
    requires Resolve(l).Some? && Projects(l, Resolve(l).value)
    ensures CompileCandidate(l).Some? <==> Compile(l).Some?
    ensures Compile(l).Some? ==>
              && Compile(l).value.resolved == Resolve(l).value
              && Compile(l).value.tasks == Renamed(CompileCandidate(l).value, Resolve(l).value.slots)
              && Injective(Resolve(l).value.slots)
  {
    hide LabelTasksFit, ReadyTasks, AllResolved, Resolve, ProjectTasks, CandidateMatches, TasksMatch;
    if Compile(l).Some? {
      var resolved, tasks := Compile(l).value.resolved, l.expected.tasks;
      CompiledIsAccepted(l);
      ResolvedSlots(l);
      var selectors := Elements(SelectorIds(l.selectors));
      ProjectionIsRenaming(tasks, resolved.slots, selectors);
      ReadyRenamed(tasks, resolved.slots, selectors);
      forall t | t in CandidateTasks(tasks) ensures CandidateMatches(l, t) {
        var i :| 0 <= i < |tasks| && CandidateTasks(tasks)[i] == t;
        CandidateMatched(l, resolved, i);
      }
    }
  }

  /** Accepted tasks follow the declared plan: its branches in its order, with
      its dependencies, and no cycle among them. */
  lemma PlanIsKept(l: Label, branches: seq<Branch>)
    requires Compile(l).Some? && Projects(l, Compile(l).value.resolved) && l.plan == Some(branches)
    ensures var tasks := Compile(l).value.tasks;
            && |tasks| == |branches|
            && (forall i :: 0 <= i < |tasks| ==>
                  tasks[i].selection == Some(branches[i].id) && tasks[i].dependsOn == Somes(branches[i].dependsOn))
            && Topological(TaskKeys(tasks), TaskDependencies(tasks))
  {
    hide LabelTasksFit, AllResolved, Resolve, ProjectTasks, TaskFits;
    CompiledIsAccepted(l);
    ResolvedShape(l);
    var tasks := Compile(l).value.tasks;
    ReadyIsTopological(tasks);
    var targets := Targets(Planned(branches), l.selectors);
    forall i | 0 <= i < |tasks|
      ensures tasks[i].selection == Some(branches[i].id) && tasks[i].dependsOn == Somes(branches[i].dependsOn)
    {
      assert TaskMatches(tasks[i], targets[i]);
    }
  }

  // ----- grading

  datatype ObservedDisposition = Ready | NeedsClarification | Unsupported | Overflow | InvalidRouting

  function Ordered(t: Task): Task { t.(outputs := SortIds(Elements(t.outputs))) }

  function AllOrdered(tasks: seq<Task>): seq<Task> {
    seq(|tasks|, i requires 0 <= i < |tasks| => Ordered(tasks[i]))
  }

  /** `_routing_checks` of a route label. */
  predicate RouteMatches(expected: seq<Task>, disposition: ObservedDisposition, observed: seq<Task>) {
    disposition.Ready? && AllOrdered(observed) == expected
  }

  /** A task whose identifiers all have slots. */
  predicate Slotted(t: Task, slots: map<string, string>) {
    && t.selection.Some? && t.selection.value in slots
    && forall d :: d in t.dependsOn ==> d.Some? && d.value in slots
  }

  lemma RenamingReflects(observed: Task, expected: Task, slots: map<string, string>)
    requires Injective(slots) && Slotted(expected, slots)
    ensures Ordered(RenamedTask(observed, slots)) == RenamedTask(expected, slots) <==> Ordered(observed) == expected
  {
    hide SortIds;
    var o, e := observed.dependsOn, expected.dependsOn;
    if RenamedIds(o, slots) == RenamedIds(e, slots) {
      assert |o| == |RenamedIds(o, slots)| == |RenamedIds(e, slots)| == |e|;
      forall k | 0 <= k < |o| ensures o[k] == e[k] {
        assert e[k] in e;
        assert RenamedIds(o, slots)[k] == RenamedId(o[k], slots) && RenamedIds(e, slots)[k] == RenamedId(e[k], slots);
      }
      assert o == e;
    }
  }

  /** An observation passes under the fourth version exactly when its renaming
      passes under the third. */
  lemma GradesAlike(l: Label, disposition: ObservedDisposition, observed: seq<Task>)
    requires Compile(l).Some? && Projects(l, Compile(l).value.resolved) && CompileCandidate(l).Some?
    ensures RouteMatches(CompileCandidate(l).value, disposition, observed) <==>
            RouteMatches(Compile(l).value.tasks, disposition, Renamed(observed, Compile(l).value.resolved.slots))
  {
    hide Compile, CompileCandidate, Ordered, RenamedTask, Slotted, Resolve;
    CompiledIsAccepted(l);
    CompilationsCommute(l);
    var expected, slots := CompileCandidate(l).value, Compile(l).value.resolved.slots;
    CandidatesSlotted(l);
    if |observed| == |expected| {
      forall i | 0 <= i < |observed|
        ensures AllOrdered(Renamed(observed, slots))[i] == Renamed(expected, slots)[i] <==>
                AllOrdered(observed)[i] == expected[i]
      {
        RenamingReflects(observed[i], expected[i], slots);
      }
    }
  }

  lemma CandidatesSlotted(l: Label)
    requires Compile(l).Some? && Projects(l, Compile(l).value.resolved) && CompileCandidate(l).Some?
    ensures forall i :: 0 <= i < |CompileCandidate(l).value| ==>
              Slotted(CompileCandidate(l).value[i], Compile(l).value.resolved.slots)
  {
    hide LabelTasksFit, ReadyTasks, AllResolved, Resolve, ProjectTasks, CandidateMatches, TasksMatch;
    CompiledIsAccepted(l);
    forall i | 0 <= i < |l.expected.tasks|
      ensures Slotted(CandidateTasks(l.expected.tasks)[i], Compile(l).value.resolved.slots)
    {
      CandidateResolved(l.expected.tasks, Compile(l).value.resolved.slots, Elements(SelectorIds(l.selectors)), i);
    }
  }
}

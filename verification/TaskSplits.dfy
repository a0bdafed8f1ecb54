/** Reviewed splits of a task that spans several repositories. */
module TaskSplits {
  import opened Text
  import opened Wrappers
  import opened Orders
  import opened RepairModel

  function SplitId(spec: SplitSpec): string {
    Strip(spec.taskId)
  }

  function SplitIds(specs: seq<SplitSpec>): (r: seq<string>)
    ensures |r| == |specs| && forall k :: 0 <= k < |specs| ==> r[k] == SplitId(specs[k])
  {
    seq(|specs|, k requires 0 <= k < |specs| => SplitId(specs[k]))
  }

  ghost function IdsOf(tasks: seq<Task>): set<string> {
    set t | t in tasks :: t.id
  }

  function ToSet(ids: seq<string>): set<string> {
    set x | x in ids
  }

  function SelectedPaths(specs: seq<SplitSpec>): set<string> {
    set k, p | 0 <= k < |specs| && p in specs[k].paths :: p
  }

  /** A spec the review may use: a fresh id, a known repo, and paths of the original only. */
  ghost predicate SpecUsable(specs: seq<SplitSpec>, k: nat, existing: set<string>, known: set<string>, scope: set<string>)
    requires k < |specs|
  {
    && SplitId(specs[k]) != "" && SplitId(specs[k]) !in existing
    && (forall j :: 0 <= j < k ==> SplitId(specs[j]) != SplitId(specs[k]))
    && NormalizeRepoPath(specs[k].repoPath) in known
    && specs[k].paths != [] && (forall p :: p in specs[k].paths ==> p in scope)
  }

  /** Named tasks that depend on the task. */
  ghost predicate HasDownstream(tasks: seq<Task>, id: string) {
    exists t :: t in tasks && t.id != "" && id in t.dependencies
  }

  /** The complete condition under which a split goes through. */
  ghost predicate Acceptable(tasks: seq<Task>, task: Task, specs: seq<SplitSpec>, existing: set<string>, known: set<string>)
    reads task
  {
    && specs != []
    && !HasDownstream(tasks, task.id)
    && AllUsable(specs, |specs|, existing, known, task.Paths())
    && SelectedPaths(specs) == task.Paths()
  }

  function Keep(paths: seq<string>, selected: seq<string>): (r: seq<string>)
    ensures forall p :: p in r <==> p in paths && p in selected
  {
    if paths == [] then []
    else (if paths[0] in selected then [paths[0]] else []) + Keep(paths[1..], selected)
  }

  lemma {:induction false} KeepConcat(a: seq<string>, b: seq<string>, selected: seq<string>)
    ensures Keep(a + b, selected) == Keep(a, selected) + Keep(b, selected)
  {
    if a == [] {
      assert a + b == b;
    } else {
      assert (a + b)[1..] == a[1..] + b;
      KeepConcat(a[1..], b, selected);
    }
  }

  lemma KeepOne(path: string, selected: seq<string>)
    ensures path in selected ==> Keep([path], selected) == [path]
    ensures path !in selected ==> Keep([path], selected) == []
  {
    assert [path][1..] == [] && Keep([], selected) == [];
  }

  /** A path stays in its place, as often as it stands there, exactly if it is selected. */
  lemma KeptInPlace(before: seq<string>, path: string, after: seq<string>, selected: seq<string>)
    ensures path in selected ==>
              Keep(before + [path] + after, selected) == Keep(before, selected) + [path] + Keep(after, selected)
    ensures path !in selected ==> Keep(before + [path] + after, selected) == Keep(before, selected) + Keep(after, selected)
  {
    KeepOne(path, selected);
    hide Keep;
    KeepConcat(before + [path], after, selected);
    KeepConcat(before, [path], selected);
  }

  /** The name a split gets: its own, or the original's (its id if there is none) with the repo. */
  function SplitName(task: Task, spec: SplitSpec): string {
    if spec.name != "" then spec.name
    else (if task.name.Some? then task.name.value else SplitId(spec)) + " (" + NormalizeRepoPath(spec.repoPath) + ")"
  }

  /** What `_copy_task_for_split` makes of the original. */
  ghost predicate IsSplitOf(split: Task, task: Task, spec: SplitSpec)
    reads split, task
  {
    && split.id == SplitId(spec)
    && split.name == Some(SplitName(task, spec))
    && split.repoPath == NormalizeRepoPath(spec.repoPath)
    && split.repoId == task.repoId
    && split.dependencies == task.dependencies
    && split.fileScope == Keep(task.fileScope, spec.paths)
    && split.files == Keep(task.files, spec.paths)
  }

  ghost predicate AreSplitsOf(splits: seq<Task>, task: Task, specs: seq<SplitSpec>)
    reads splits, task
  {
    && |splits| == |specs|
    && forall k :: 0 <= k < |specs| ==> IsSplitOf(splits[k], task, specs[k])
  }

  method CopyTaskForSplit(task: Task, spec: SplitSpec) returns (split: Task)
    ensures fresh(split) && IsSplitOf(split, task, spec)
  {
    split := new Task(SplitId(spec), Some(SplitName(task, spec)), task.repoId, task.dependencies,
                      Keep(task.fileScope, spec.paths), Keep(task.files, spec.paths), NormalizeRepoPath(spec.repoPath));
  }

  /** The named tasks that depend on the id, in list order. */
  function Dependents(tasks: seq<Task>, id: string): seq<string> {
    if tasks == [] then []
    else
      var last := tasks[|tasks| - 1];
      Dependents(tasks[..|tasks| - 1], id) + if id in last.dependencies && last.id != "" then [last.id] else []
  }

  lemma {:induction false} DependentsExact(tasks: seq<Task>, id: string, x: string)
    ensures x in Dependents(tasks, id) <==> exists t :: t in tasks && t.id == x != "" && id in t.dependencies
  {
    if tasks != [] {
      var n := |tasks| - 1;
      DependentsExact(tasks[..n], id, x);
      assert tasks == tasks[..n] + [tasks[n]];
    }
  }

  /** `_downstream_dependency_task_ids`: the named dependents, sorted. */
  method DownstreamDependencies(tasks: seq<Task>, id: string) returns (downstream: seq<string>)
    ensures Ascending(downstream) && multiset(downstream) == multiset(Dependents(tasks, id))
    ensures forall x :: x in downstream <==> exists t :: t in tasks && t.id == x != "" && id in t.dependencies
    ensures downstream == [] <==> !HasDownstream(tasks, id)
  {
    var found: seq<string> := [];
    for i := 0 to |tasks|
      invariant found == Dependents(tasks[..i], id)
    {
      assert tasks[..i + 1][..i] == tasks[..i];
      if id in tasks[i].dependencies && tasks[i].id != "" {
        found := found + [tasks[i].id];
      }
    }
    assert tasks[..|tasks|] == tasks;
    downstream := SortTexts(found);
    SortedDependents(tasks, id, found, downstream);
  }

  lemma SortedDependents(tasks: seq<Task>, id: string, found: seq<string>, sorted: seq<string>)
    requires found == Dependents(tasks, id) && multiset(sorted) == multiset(found)
    ensures forall x :: x in sorted <==> exists t :: t in tasks && t.id == x != "" && id in t.dependencies
    ensures sorted == [] <==> !HasDownstream(tasks, id)
  {
    forall x ensures x in sorted <==> exists t :: t in tasks && t.id == x != "" && id in t.dependencies {
      assert x in multiset(sorted) <==> x in multiset(found);
      DependentsExact(tasks, id, x);
    }
    if t :| t in tasks && t.id != "" && id in t.dependencies {
      assert t.id in sorted;
    }
  }

  /** `_replace_task_with_splits`: rewrites the task list and the order of one DAG. */
  method ReplaceTaskWithSplits(dag: Dag, id: string, splits: seq<Task>, ids: seq<string>) returns (found: bool)
    modifies dag`tasks, dag`order
    ensures dag.tasks == ReplaceTask(old(dag.tasks), id, splits)
    ensures dag.order == ReplaceInOrder(old(dag.order), id, ids)
    ensures found <==> exists t :: t in old(dag.tasks) && t.id == id
  {
    found := false;
    var tasks := dag.tasks;
    var next: seq<Task> := [];
    for i := 0 to |tasks|
      invariant next == ReplaceTask(tasks[..i], id, splits)
      invariant found <==> exists t :: t in tasks[..i] && t.id == id
      invariant !found ==> next == tasks[..i]
    {
      assert tasks[..i + 1][..i] == tasks[..i];
      assert tasks[..i + 1] == tasks[..i] + [tasks[i]];
      if tasks[i].id == id {
        next := next + splits;
        found := true;
      } else {
        next := next + [tasks[i]];
      }
    }
    assert tasks[..|tasks|] == tasks;
    if found {
      dag.tasks := next;
    }
    dag.order := ReplaceTaskIdInOrder(dag.order, id, ids);
  }

  /** The first objection to a spec, given the ids accepted before it. */
  function SpecBlocker(spec: SplitSpec, existing: set<string>, created: seq<string>, known: set<string>, scope: set<string>)
    : seq<Blocker>
  {
    var id := SplitId(spec);
    if id == "" then [Blocker("invalid_split_task", id)]
    else if id in existing || id in created then [Blocker("duplicate_split_task_id", id)]
    else if NormalizeRepoPath(spec.repoPath) !in known then [Blocker("invalid_split_repo_path", id)]
    else if spec.paths == [] then [Blocker("missing_split_paths", id)]
    else if exists p :: p in spec.paths && p !in scope then [Blocker("unknown_split_paths", id)]
    else []
  }

  lemma AlreadyCreatedIff(specs: seq<SplitSpec>, k: nat)
    requires k < |specs|
    ensures SplitId(specs[k]) !in SplitIds(specs[..k]) <==> forall j :: 0 <= j < k ==> SplitId(specs[j]) != SplitId(specs[k])
  {
    var ids := SplitIds(specs[..k]);
    assert forall j :: 0 <= j < k ==> ids[j] == SplitId(specs[j]);
    if j :| 0 <= j < k && SplitId(specs[j]) == SplitId(specs[k]) {
      assert ids[j] in ids;
    }
  }

  lemma SpecBlockerIff(specs: seq<SplitSpec>, k: nat, existing: set<string>, known: set<string>, scope: set<string>)
    requires k < |specs|
    ensures SpecBlocker(specs[k], existing, SplitIds(specs[..k]), known, scope) == []
       <==> SpecUsable(specs, k, existing, known, scope)
  {
    AlreadyCreatedIff(specs, k);
  }

  ghost predicate AllUsable(specs: seq<SplitSpec>, n: nat, existing: set<string>, known: set<string>, scope: set<string>)
    requires n <= |specs|
  {
    forall k :: 0 <= k < n ==> SpecUsable(specs, k, existing, known, scope)
  }

  lemma AreSplitsSnoc(splits: seq<Task>, split: Task, task: Task, specs: seq<SplitSpec>, i: nat)
    requires i < |specs| && AreSplitsOf(splits, task, specs[..i]) && IsSplitOf(split, task, specs[i])
    ensures AreSplitsOf(splits + [split], task, specs[..i + 1])
  {
    forall k | 0 <= k < i + 1 ensures IsSplitOf((splits + [split])[k], task, specs[..i + 1][k]) {
      assert k < i ==> specs[..i][k] == specs[k];
    }
  }

  lemma SplitIdsSnoc(specs: seq<SplitSpec>, i: nat)
    requires i < |specs|
    ensures SplitIds(specs[..i + 1]) == SplitIds(specs[..i]) + [SplitId(specs[i])]
  {
  }

  lemma SelectedSnoc(specs: seq<SplitSpec>, i: nat)
    requires i < |specs|
    ensures SelectedPaths(specs[..i + 1]) == SelectedPaths(specs[..i]) + ToSet(specs[i].paths)
  {
    var more, less := specs[..i + 1], specs[..i];
    forall p | p in SelectedPaths(more) ensures p in SelectedPaths(less) + ToSet(specs[i].paths) {
      var k :| 0 <= k < |more| && p in more[k].paths;
      assert k < i ==> more[k] == less[k];
    }
    forall p | p in SelectedPaths(less) + ToSet(specs[i].paths) ensures p in SelectedPaths(more) {
      if p in SelectedPaths(less) {
        var k :| 0 <= k < |less| && p in less[k].paths;
        assert more[k] == less[k];
      } else {
        assert more[i] == specs[i];
      }
    }
  }

  /** What the loop below has gathered from the specs so far. */
  ghost predicate BuiltSoFar(created: seq<string>, selected: set<string>, splits: seq<Task>, task: Task, specs: seq<SplitSpec>)
    reads splits, task
  {
    created == SplitIds(specs) && selected == SelectedPaths(specs) && AreSplitsOf(splits, task, specs)
  }

  method AddSplit(created: seq<string>, selected: set<string>, splits: seq<Task>, task: Task, specs: seq<SplitSpec>, i: nat)
    returns (created': seq<string>, selected': set<string>, splits': seq<Task>)
    requires i < |specs|
    ensures forall t :: t in splits' ==> t in splits || fresh(t)
    ensures BuiltSoFar(created, selected, splits, task, specs[..i]) ==>
              BuiltSoFar(created', selected', splits', task, specs[..i + 1])
  {
    var split := CopyTaskForSplit(task, specs[i]);
    SplitIdsSnoc(specs, i);
    SelectedSnoc(specs, i);
    if AreSplitsOf(splits, task, specs[..i]) {
      AreSplitsSnoc(splits, split, task, specs, i);
    }
    created', selected', splits' := created + [SplitId(specs[i])], selected + ToSet(specs[i].paths), splits + [split];
  }

  /** One spec: an objection to it, or its split task. */
  method BuildSplit(objections: seq<Blocker>, created: seq<string>, selected: set<string>, splits: seq<Task>,
                    task: Task, specs: seq<SplitSpec>, i: nat, existing: set<string>, known: set<string>, scope: set<string>)
    returns (objections': seq<Blocker>, created': seq<string>, selected': set<string>, splits': seq<Task>)
    requires i < |specs| && (objections == [] <==> AllUsable(specs, i, existing, known, scope))
    requires objections == [] ==> BuiltSoFar(created, selected, splits, task, specs[..i])
    ensures forall t :: t in splits' ==> t in splits || fresh(t)
    ensures objections' == [] <==> AllUsable(specs, i + 1, existing, known, scope)
    ensures objections' == [] ==> BuiltSoFar(created', selected', splits', task, specs[..i + 1])
  {
    var objection := SpecBlocker(specs[i], existing, created, known, scope);
    ExtendUsable(specs, i, existing, known, scope);
    objections', created', selected', splits' := objections + objection, created, selected, splits;
    if objection == [] {
      created', selected', splits' := AddSplit(created, selected, splits, task, specs, i);
    }
  }

  /** Checks the specs in order and builds the split tasks; nothing existing is touched. */
  method BuildSplits(task: Task, specs: seq<SplitSpec>, existing: set<string>, known: set<string>)
    returns (blockers: seq<Blocker>, splits: seq<Task>)
    ensures forall t :: t in splits ==> fresh(t)
    ensures blockers == [] <==>
              AllUsable(specs, |specs|, existing, known, task.Paths())
              && (task.Paths() != {} ==> SelectedPaths(specs) == task.Paths())
    ensures blockers == [] ==> AreSplitsOf(splits, task, specs)
  {
    var scope := task.Paths();
    var selected: set<string> := {};
    var created: seq<string> := [];
    blockers, splits := [], [];
    for i := 0 to |specs|
      invariant forall t :: t in splits ==> fresh(t)
      invariant blockers == [] <==> AllUsable(specs, i, existing, known, scope)
      invariant blockers == [] ==> BuiltSoFar(created, selected, splits, task, specs[..i])
    {
      blockers, created, selected, splits :=
        BuildSplit(blockers, created, selected, splits, task, specs, i, existing, known, scope);
    }
    assert specs[..|specs|] == specs;
    if scope != {} && selected != scope {
      blockers := blockers + [Blocker("incomplete_split_path_coverage", task.id)];
    }
  }

  lemma ExtendUsable(specs: seq<SplitSpec>, i: nat, existing: set<string>, known: set<string>, scope: set<string>)
    requires i < |specs|
    ensures AllUsable(specs, i + 1, existing, known, scope) <==>
              AllUsable(specs, i, existing, known, scope)
              && SpecBlocker(specs[i], existing, SplitIds(specs[..i]), known, scope) == []
  {
    SpecBlockerIff(specs, i, existing, known, scope);
    UsableSnoc(specs, i, existing, known, scope);
  }

  lemma UsableSnoc(specs: seq<SplitSpec>, i: nat, existing: set<string>, known: set<string>, scope: set<string>)
    requires i < |specs|
    ensures AllUsable(specs, i + 1, existing, known, scope) <==>
              AllUsable(specs, i, existing, known, scope) && SpecUsable(specs, i, existing, known, scope)
  {
  }

  function SplitPaths(specs: seq<SplitSpec>): (r: seq<string>)
    ensures |r| == |specs| && forall k :: 0 <= k < |specs| ==> r[k] == NormalizeRepoPath(specs[k].repoPath)
  {
    seq(|specs|, k requires 0 <= k < |specs| => NormalizeRepoPath(specs[k].repoPath))
  }

  /** A dict filled in list order. */
  function Pairs(keys: seq<string>, values: seq<string>): map<string, string>
    requires |keys| == |values|
  {
    if keys == [] then map[]
    else
      var n := |keys| - 1;
      Pairs(keys[..n], values[..n])[keys[n] := values[n]]
  }

  ghost predicate AllDifferent(keys: seq<string>) {
    forall a, b :: 0 <= a < b < |keys| ==> keys[a] != keys[b]
  }

  lemma {:induction false} PairsKeys(keys: seq<string>, values: seq<string>)
    requires |keys| == |values|
    ensures Pairs(keys, values).Keys == ToSet(keys)
  {
    if keys != [] {
      var n := |keys| - 1;
      PairsKeys(keys[..n], values[..n]);
      assert keys == keys[..n] + [keys[n]];
    }
  }

  lemma {:induction false} PairsAt(keys: seq<string>, values: seq<string>, k: nat)
    requires k < |keys| == |values| && AllDifferent(keys)
    ensures keys[k] in Pairs(keys, values) && Pairs(keys, values)[keys[k]] == values[k]
  {
    var n := |keys| - 1;
    if k < n {
      PairsAt(keys[..n], values[..n], k);
      assert keys[..n][k] == keys[k] && values[..n][k] == values[k];
    }
  }

  lemma {:induction false} PairsOnly(keys: seq<string>, values: seq<string>, x: string)
    requires |keys| == |values| && x in Pairs(keys, values)
    ensures exists k :: 0 <= k < |keys| && keys[k] == x && Pairs(keys, values)[x] == values[k]
  {
    var n := |keys| - 1;
    if x != keys[n] {
      PairsOnly(keys[..n], values[..n], x);
      var k :| 0 <= k < n && keys[..n][k] == x && Pairs(keys[..n], values[..n])[x] == values[..n][k];
      assert keys[k] == x && values[..n][k] == values[k];
    }
  }

  /** The repo path each split was given. */
  function SplitRepoPaths(specs: seq<SplitSpec>): (r: map<string, string>) {
    Pairs(SplitIds(specs), SplitPaths(specs))
  }

  /** The checks of a reviewed split: no named dependents, usable specs, exact coverage. */
  method CheckSplit(tasks: seq<Task>, task: Task, specs: seq<SplitSpec>, existing: set<string>, known: set<string>)
    returns (blockers: seq<Blocker>, splits: seq<Task>)
    ensures forall t :: t in splits ==> fresh(t)
    ensures blockers == [] <==> Acceptable(tasks, task, specs, existing, known)
    ensures blockers == [] ==> AreSplitsOf(splits, task, specs)
  {
    if specs == [] {
      return [Blocker("missing_split_tasks", task.id)], [];
    }
    var downstream := DownstreamDependencies(tasks, task.id);
    var objections;
    objections, splits := BuildSplits(task, specs, existing, known);
    if AllUsable(specs, |specs|, existing, known, task.Paths()) {
      PathsAreSelected(task, specs, existing, known);
    }
    blockers := (if downstream != [] then [Blocker("cross_repo_split_has_downstream_dependencies", task.id)] else [])
                + objections;
  }

  /** Rewrites both DAGs and both indexes for an accepted split. */
  method CarryOutSplit(root: Dag, regroup: Dag, rootIndex: TaskIndex, regroupIndex: TaskIndex,
                       id: string, splits: seq<Task>, ids: seq<string>)
    returns (found: bool)
    requires root != regroup && rootIndex != regroupIndex
    modifies root`tasks, root`order, regroup`tasks, regroup`order, rootIndex`byId, regroupIndex`byId
    ensures found <==> Defines(old(root.tasks), id)
    ensures root.tasks == ReplaceTask(old(root.tasks), id, splits) && root.order == ReplaceInOrder(old(root.order), id, ids)
    ensures regroup.tasks == ReplaceTask(old(regroup.tasks), id, splits) && regroup.order == ReplaceInOrder(old(regroup.order), id, ids)
    ensures rootIndex.byId == IndexAll(old(rootIndex.byId) - {id}, splits)
    ensures regroupIndex.byId == IndexAll(old(regroupIndex.byId) - {id}, splits)
  {
    found := ReplaceTaskWithSplits(root, id, splits, ids);
    var _ := ReplaceTaskWithSplits(regroup, id, splits, ids);
    rootIndex.Replace(id, splits);
    regroupIndex.Replace(id, splits);
  }

  /** `_apply_reviewed_task_split`. A split that is not acceptable changes nothing. An
      acceptable one is carried out on both DAGs and both indexes; it is reported as blocked
      (after the fact) exactly when the root DAG does not define the task. */
  method ApplyReviewedTaskSplit(root: Dag, regroup: Dag, rootIndex: TaskIndex, regroupIndex: TaskIndex,
                                task: Task, specs: seq<SplitSpec>, known: set<string>)
    returns (blockers: seq<Blocker>, created: seq<string>, repoPaths: map<string, string>, ghost splits: seq<Task>)
    requires root != regroup && rootIndex != regroupIndex
    modifies root`tasks, root`order, regroup`tasks, regroup`order, rootIndex`byId, regroupIndex`byId
    ensures !old(Acceptable(root.tasks, task, specs, rootIndex.byId.Keys + regroupIndex.byId.Keys, known)) ==>
              && blockers != [] && created == [] && repoPaths == map[] && splits == []
              && unchanged(root) && unchanged(regroup) && unchanged(rootIndex) && unchanged(regroupIndex)
    ensures old(Acceptable(root.tasks, task, specs, rootIndex.byId.Keys + regroupIndex.byId.Keys, known)) ==>
              && (blockers == [] <==> Defines(old(root.tasks), task.id))
              && AreSplitsOf(splits, task, specs) && (forall t :: t in splits ==> fresh(t))
              && created == SplitIds(specs) && repoPaths == SplitRepoPaths(specs)
              && root.tasks == ReplaceTask(old(root.tasks), task.id, splits)
              && root.order == ReplaceInOrder(old(root.order), task.id, created)
              && regroup.tasks == ReplaceTask(old(regroup.tasks), task.id, splits)
              && regroup.order == ReplaceInOrder(old(regroup.order), task.id, created)
              && rootIndex.byId == IndexAll(old(rootIndex.byId) - {task.id}, splits)
              && regroupIndex.byId == IndexAll(old(regroupIndex.byId) - {task.id}, splits)
  {
    blockers, created, repoPaths, splits := [], [], map[], [];
    var existing := rootIndex.byId.Keys + regroupIndex.byId.Keys;
    ghost var acceptable := Acceptable(root.tasks, task, specs, existing, known);
    var built;
    blockers, built := CheckSplit(root.tasks, task, specs, existing, known);
    assert blockers == [] <==> acceptable;
    if blockers != [] {
      return;
    }
    created, repoPaths, splits := SplitIds(specs), SplitRepoPaths(specs), built;
    var found := CarryOutSplit(root, regroup, rootIndex, regroupIndex, task.id, built, created);
    if !found {
      blockers := [Blocker("missing_split_source_task", task.id)];
    }
  }

  /** A task without paths cannot be split: every spec must name one of its paths. */
  lemma PathsAreSelected(task: Task, specs: seq<SplitSpec>, existing: set<string>, known: set<string>)
    requires specs != [] && AllUsable(specs, |specs|, existing, known, task.Paths())
    ensures task.Paths() != {}
  {
    assert SpecUsable(specs, 0, existing, known, task.Paths());
    assert specs[0].paths[0] in specs[0].paths;
  }

  // ---------------------------------------------------------------- what an accepted split guarantees

  ghost function AllPaths(tasks: seq<Task>): set<string>
    reads tasks
  {
    set k, p | 0 <= k < |tasks| && p in tasks[k].Paths() :: p
  }

  ghost predicate TrimmedPaths(task: Task)
    reads task
  {
    forall p :: p in task.fileScope + task.files ==> Trimmed(p)
  }

  /** One split of an accepted review: fresh stripped id, a known repo, at least one path, and
      exactly the reviewed paths. */
  lemma SplitIsSound(task: Task, specs: seq<SplitSpec>, k: nat, split: Task, existing: set<string>, known: set<string>)
    requires k < |specs| && SpecUsable(specs, k, existing, known, task.Paths())
    requires IsSplitOf(split, task, specs[k]) && TrimmedPaths(task)
    ensures split.Paths() == (set p | p in specs[k].paths) && split.Paths() != {}
    ensures split.repoPath in known
    ensures split.id != "" && Trimmed(split.id) && split.id !in existing
  {
    PathsOfSplit(task, specs[k], split);
    assert specs[k].paths[0] in split.Paths();
    StripIsIdempotent(specs[k].taskId);
  }

  /** Conservation of scope: the splits' paths together are the original's, exactly. */
  lemma SplitCoversPaths(tasks: seq<Task>, task: Task, specs: seq<SplitSpec>, splits: seq<Task>,
                         existing: set<string>, known: set<string>)
    requires Acceptable(tasks, task, specs, existing, known) && AreSplitsOf(splits, task, specs)
    requires TrimmedPaths(task)
    ensures AllPaths(splits) == task.Paths()
  {
    forall k | 0 <= k < |splits| ensures splits[k].Paths() == set p | p in specs[k].paths {
      assert SpecUsable(specs, k, existing, known, task.Paths());
      SplitIsSound(task, specs, k, splits[k], existing, known);
    }
    forall p ensures p in AllPaths(splits) <==> p in SelectedPaths(specs) {
      if k :| 0 <= k < |splits| && p in splits[k].Paths() {
        assert p in specs[k].paths;
      }
      if k :| 0 <= k < |specs| && p in specs[k].paths {
        assert p in splits[k].Paths();
      }
    }
  }

  /** The splits have pairwise different ids. */
  lemma SplitIdsDistinct(task: Task, specs: seq<SplitSpec>, splits: seq<Task>, existing: set<string>, known: set<string>)
    requires AllUsable(specs, |specs|, existing, known, task.Paths())
    requires AreSplitsOf(splits, task, specs)
    ensures DistinctIds(splits)
    ensures forall t :: t in splits ==> t.id != "" && Trimmed(t.id) && t.id !in existing && t.repoPath in known
  {
    forall i, j | 0 <= i < j < |splits| ensures splits[i].id != splits[j].id {
      assert SpecUsable(specs, j, existing, known, task.Paths());
    }
    forall t | t in splits ensures t.id != "" && Trimmed(t.id) && t.id !in existing && t.repoPath in known {
      var k :| 0 <= k < |splits| && splits[k] == t;
      assert SpecUsable(specs, k, existing, known, task.Paths());
      StripIsIdempotent(specs[k].taskId);
    }
  }

  lemma PathsOfSplit(task: Task, spec: SplitSpec, split: Task)
    requires TrimmedPaths(task) && IsSplitOf(split, task, spec)
    requires forall p :: p in spec.paths ==> p in task.Paths()
    ensures split.Paths() == set p | p in spec.paths
  {
    forall p | p in spec.paths ensures p in split.Paths() {
      var q :| q in task.fileScope + task.files && Strip(q) != "" && Strip(q) == p;
      assert q in split.fileScope + split.files;
    }
    forall p | p in split.Paths() ensures p in spec.paths {
      var q :| q in split.fileScope + split.files && Strip(q) == p;
      assert q in task.fileScope + task.files;
    }
  }

  ghost predicate Defines(tasks: seq<Task>, id: string) {
    exists t :: t in tasks && t.id == id
  }

  /** A split removes the definition of its task and of no other id, whatever depends on it. */
  lemma SplitKeepsDefinitions(tasks: seq<Task>, task: Task, specs: seq<SplitSpec>, splits: seq<Task>,
                              existing: set<string>, known: set<string>, id: string)
    requires AllUsable(specs, |specs|, existing, known, task.Paths()) && AreSplitsOf(splits, task, specs)
    requires task.id in existing && Defines(tasks, id)
    ensures Defines(ReplaceTask(tasks, task.id, splits), id) <==> id != task.id
  {
    SplitIdsDistinct(task, specs, splits, existing, known);
    var u :| u in tasks && u.id == id;
    InReplacedTasks(tasks, task.id, splits, u);
    if t :| t in ReplaceTask(tasks, task.id, splits) && t.id == id {
      InReplacedTasks(tasks, task.id, splits, t);
    }
  }

  /** Dependencies on defined tasks dangle after an accepted split exactly if they name the
      split task, and only nameless tasks can hold such a dependency. */
  lemma DanglingAfterSplitIff(tasks: seq<Task>, task: Task, specs: seq<SplitSpec>, splits: seq<Task>,
                              existing: set<string>, known: set<string>, t: Task, dep: string)
    requires Acceptable(tasks, task, specs, existing, known) && AreSplitsOf(splits, task, specs)
    requires task in tasks && task.id in existing
    requires t in ReplaceTask(tasks, task.id, splits) && dep in t.dependencies && Defines(tasks, dep)
    ensures !Defines(ReplaceTask(tasks, task.id, splits), dep) <==> dep == task.id
    ensures task.id != "" && dep == task.id ==> t.id == ""
  {
    SplitKeepsDefinitions(tasks, task, specs, splits, existing, known, dep);
    InReplacedTasks(tasks, task.id, splits, t);
    if t in splits {
      var k :| 0 <= k < |splits| && splits[k] == t;
      assert IsSplitOf(splits[k], task, specs[k]);
      assert dep in task.dependencies;
    }
  }
}

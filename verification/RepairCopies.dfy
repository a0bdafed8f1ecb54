/** From the payloads to the repaired copies: the scan, fresh copies of both DAGs, and the loop. */
module RepairCopies {
  import opened Text
  import opened Orders
  import opened RepairModel
  import opened TaskSplits
  import opened GroupMoves
  import opened BulkRepair
  import opened RepairBook
  import opened RepairRun
  import opened RepairJob
  import opened RepairCourse
  import opened RepairLoop

  // ---------------------------------------------------------------- copying

  ghost predicate SameTask(a: Task, b: Task)
    reads a, b
  {
    && a.id == b.id && a.name == b.name && a.repoId == b.repoId && a.dependencies == b.dependencies
    && a.fileScope == b.fileScope && a.files == b.files && a.repoPath == b.repoPath
  }

  ghost predicate SameTasks(a: seq<Task>, b: seq<Task>)
    reads a, b
  {
    |a| == |b| && forall i :: 0 <= i < |a| ==> SameTask(a[i], b[i])
  }

  method CopyTasks(tasks: seq<Task>) returns (copies: seq<Task>)
    ensures fresh(copies) && SameTasks(copies, tasks)
  {
    copies := [];
    for i := 0 to |tasks|
      invariant |copies| == i && fresh(copies)
      invariant forall k :: 0 <= k < i ==> SameTask(copies[k], tasks[k])
    {
      var t := tasks[i];
      var copy := new Task(t.id, t.name, t.repoId, t.dependencies, t.fileScope, t.files, t.repoPath);
      copies := copies + [copy];
    }
  }

  ghost predicate SameIndex(a: map<string, Task>, b: map<string, Task>)
    reads a.Values, b.Values
  {
    a.Keys == b.Keys && forall k :: k in a ==> SameTask(a[k], b[k])
  }

  lemma {:induction false} CopiedIndex(a: seq<Task>, b: seq<Task>)
    requires SameTasks(a, b)
    ensures SameIndex(TasksById(a), TasksById(b))
  {
    if a != [] {
      var n := |a| - 1;
      assert SameTask(a[n], b[n]);
      CopiedIndex(a[..n], b[..n]);
      CopiedStep(TasksById(a[..n]), TasksById(b[..n]), a[n], b[n]);
    }
  }

  lemma CopiedStep(a: map<string, Task>, b: map<string, Task>, t: Task, u: Task)
    requires SameIndex(a, b) && SameTask(t, u)
    ensures SameIndex(a[Key(t) := t], b[Key(u) := u])
  {
  }

  method CopyDag(dag: Dag) returns (copy: Dag, index: TaskIndex)
    ensures fresh(copy) && fresh(index) && fresh(index.byId.Values) && fresh(copy.tasks)
    ensures copy.order == dag.order && SameTasks(copy.tasks, dag.tasks) && index.byId == TasksById(copy.tasks)
  {
    var tasks := CopyTasks(dag.tasks);
    copy := new Dag(tasks, dag.order);
    index := new TaskIndex(TasksById(tasks));
    IndexedTasks(tasks);
  }

  // ---------------------------------------------------------------- the payloads as a ledger

  ghost function StandingOfLists(root: Dag, regroup: Dag): Standing
    reads root, regroup
  {
    Standing(root.tasks, root.order, regroup.tasks, regroup.order, TasksById(root.tasks), TasksById(regroup.tasks))
  }

  /** The ledger of two DAGs whose task lists are indexed afresh. */
  ghost function LedgerOfLists(root: Dag, regroup: Dag): (l: Ledger)
    reads root, regroup, TasksById(root.tasks).Values, TasksById(regroup.tasks).Values
    ensures Full(l) && Holds(l)
  {
    Ledger(StandingOfLists(root, regroup), PathsOf(TasksById(root.tasks)), PathsOf(TasksById(regroup.tasks)),
           FilesOf(TasksById(root.tasks)))
  }

  /** Tasks that were not changed are indexed with the paths and files they had. */
  twostate lemma ListStays(tasks: seq<Task>)
    ensures (forall t :: t in tasks ==> t.repoPath == old(t.repoPath) && t.files == old(t.files)) ==>
              && PathsOf(TasksById(tasks)) == old(PathsOf(TasksById(tasks)))
              && FilesOf(TasksById(tasks)) == old(FilesOf(TasksById(tasks)))
  {
    IndexedTasks(tasks);
  }

  twostate lemma PathsStay(tasks: seq<Task>)
    ensures (forall t :: t in tasks ==> t.repoPath == old(t.repoPath)) ==>
              PathsOf(TasksById(tasks)) == old(PathsOf(TasksById(tasks)))
  {
    IndexedTasks(tasks);
  }

  lemma IndexedLedger(root: Dag, regroup: Dag, rootIndex: TaskIndex, regroupIndex: TaskIndex)
    requires rootIndex.byId == TasksById(root.tasks) && regroupIndex.byId == TasksById(regroup.tasks)
    ensures LedgerOf(root, regroup, rootIndex, regroupIndex) == LedgerOfLists(root, regroup)
  {
  }

  /** The tasks of the two ledgers are each other's copies. */
  ghost predicate Copied(a: Ledger, b: Ledger) {
    && SameList(a.now.rootTasks, b.now.rootTasks) && SameList(a.now.regroupTasks, b.now.regroupTasks)
    && a.now.rootOrder == b.now.rootOrder && a.now.regroupOrder == b.now.regroupOrder
    && SameDefinitions(a.now.rootById, b.now.rootById) && SameDefinitions(a.now.regroupById, b.now.regroupById)
    && a.rootRepos == b.rootRepos && a.regroupRepos == b.regroupRepos && a.rootFiles == b.rootFiles
  }

  /** The repair changes nothing about a task but its repo path and legacy files. */
  ghost predicate SameDefinition(a: Task, b: Task) {
    a.id == b.id && a.name == b.name && a.repoId == b.repoId && a.dependencies == b.dependencies && a.fileScope == b.fileScope
  }

  ghost predicate SameList(a: seq<Task>, b: seq<Task>) {
    |a| == |b| && forall i :: 0 <= i < |a| ==> SameDefinition(a[i], b[i])
  }

  ghost predicate SameDefinitions(a: map<string, Task>, b: map<string, Task>) {
    a.Keys == b.Keys && forall x :: x in a ==> SameDefinition(a[x], b[x])
  }

  lemma CopiesAgree(a: map<string, Task>, b: map<string, Task>)
    requires SameIndex(a, b)
    ensures SameDefinitions(a, b) && PathsOf(a) == PathsOf(b) && FilesOf(a) == FilesOf(b)
  {
  }

  lemma CopiedLedger(root: Dag, regroup: Dag, payload: Dag, overlay: Dag)
    requires SameTasks(root.tasks, payload.tasks) && SameTasks(regroup.tasks, overlay.tasks)
    requires root.order == payload.order && regroup.order == overlay.order
    ensures Copied(LedgerOfLists(root, regroup), LedgerOfLists(payload, overlay))
  {
    CopiedIndex(root.tasks, payload.tasks);
    CopiedIndex(regroup.tasks, overlay.tasks);
    CopiesAgree(TasksById(root.tasks), TasksById(payload.tasks));
    CopiesAgree(TasksById(regroup.tasks), TasksById(overlay.tasks));
  }

  lemma CopiedLacks(a: Ledger, b: Ledger, x: string)
    requires Full(a) && Full(b) && Copied(a, b)
    ensures LacksBy(a, x) <==> LacksBy(b, x)
  {
  }

  lemma CopiedScopes(a: Ledger, b: Ledger)
    requires Full(a) && Full(b) && Copied(a, b)
    ensures Scopes(a.now.rootById, a.rootFiles) == Scopes(b.now.rootById, b.rootFiles)
  {
  }

  lemma CopiedSpelled(a: Ledger, b: Ledger, x: string)
    requires Copied(a, b) && SpelledAs(b.now.rootTasks, x)
    ensures SpelledAs(a.now.rootTasks, x)
  {
    forall t | t in a.now.rootTasks && Key(t) == x ensures t.id == x {
      var i :| 0 <= i < |a.now.rootTasks| && a.now.rootTasks[i] == t;
      assert b.now.rootTasks[i] in b.now.rootTasks;
    }
  }

  lemma CopiedTrimmed(a: Ledger, b: Ledger)
    requires Copied(a, b) && AllTrimmed(b.now.regroupTasks)
    ensures AllTrimmed(a.now.regroupTasks)
  {
    forall t | t in a.now.regroupTasks ensures Trimmed(t.id) {
      var i :| 0 <= i < |a.now.regroupTasks| && a.now.regroupTasks[i] == t;
      assert b.now.regroupTasks[i] in b.now.regroupTasks;
    }
  }

  // ---------------------------------------------------------------- what is decided on the payloads

  /** The ids that lack an identity. */
  ghost function LackingBy(l: Ledger): (r: set<string>)
    requires Full(l)
    ensures forall x :: x in r <==> LacksBy(l, x)
  {
    set x | x in AllKeys(l.now) && LacksBy(l, x)
  }

  /** The tasks a scan of the ledger reports. */
  ghost function ScanOf(l: Ledger, range: Range): seq<Missing>
    requires Full(l)
  {
    Missings(l.now.regroupOrder, LackingBy(l), range)
  }

  /** What is decided for each of them. */
  ghost function DecisionsOn(l: Ledger, range: Range, reviews: seq<Review>, registries: map<int, seq<Repo>>, seedRepos: seq<Repo>)
    : (ds: seq<Decision>)
    requires Full(l)
    ensures |ds| == |ScanOf(l, range)| && forall d :: d in ds ==> (d.Stop? ==> d.blockers != [])
  {
    Verdicts(Scopes(l.now.rootById, l.rootFiles), ScanOf(l, range), reviews, registries, seedRepos)
  }

  ghost predicate Found(items: seq<Missing>, x: string) {
    exists i :: 0 <= i < |items| && items[i].taskId == x
  }

  /** The scan finds exactly the ids that a group in range lists and that lack an identity. */
  lemma ScanFinds(l: Ledger, range: Range, x: string)
    requires Full(l)
    ensures Found(ScanOf(l, range), x) <==> ListedInRange(l.now.regroupOrder, x, range) && LacksBy(l, x)
  {
    var items := ScanOf(l, range);
    ReportedIds(l.now.regroupOrder, LackingBy(l), range, x);
    if x in MissingIds(items) {
      var i :| 0 <= i < |items| && MissingIds(items)[i] == x;
      assert items[i].taskId == x;
    }
    if i :| 0 <= i < |items| && items[i].taskId == x {
      assert MissingIds(items)[i] == x;
    }
  }

  /** An order without duplicates is scanned into different items. */
  lemma ScannedAreDistinct(l: Ledger, range: Range)
    requires Full(l) && DupFree(l.now.regroupOrder)
    ensures DistinctItems(ScanOf(l, range))
  {
    var ids := MissingIds(ScanOf(l, range));
    ScanTally(l.now.regroupOrder, LackingBy(l), range);
    forall x ensures multiset(ids)[x] <= 1 {
      assert Tally(l.now.regroupOrder)[x] <= 1;
    }
    DifferentIds(ids);
  }

  lemma SameJob(a: Ledger, b: Ledger, range: Range, reviews: seq<Review>, registries: map<int, seq<Repo>>, seedRepos: seq<Repo>)
    requires Full(a) && Full(b) && Copied(a, b)
    ensures ScanOf(a, range) == ScanOf(b, range)
    ensures DecisionsOn(a, range, reviews, registries, seedRepos) == DecisionsOn(b, range, reviews, registries, seedRepos)
  {
    forall x ensures LacksBy(a, x) <==> LacksBy(b, x) {
      CopiedLacks(a, b, x);
    }
    assert LackingBy(a) == LackingBy(b);
    CopiedScopes(a, b);
  }

  lemma SameDownstream(a: Ledger, b: Ledger, x: string)
    requires Copied(a, b)
    ensures HasDownstream(a.now.rootTasks, x) <==> HasDownstream(b.now.rootTasks, x)
  {
    if t :| t in a.now.rootTasks && t.id != "" && x in t.dependencies {
      var i :| 0 <= i < |a.now.rootTasks| && a.now.rootTasks[i] == t;
      assert b.now.rootTasks[i] in b.now.rootTasks;
    }
    if t :| t in b.now.rootTasks && t.id != "" && x in t.dependencies {
      var i :| 0 <= i < |b.now.rootTasks| && b.now.rootTasks[i] == t;
      assert a.now.rootTasks[i] in a.now.rootTasks;
    }
  }

  lemma SameDependAlike(a: Ledger, b: Ledger, items: seq<Missing>, ds: seq<Decision>)
    requires Copied(a, b) && |ds| == |items| && DependAlike(b.now.rootTasks, items, ds)
    ensures DependAlike(a.now.rootTasks, items, ds)
  {
    var s, t := a.now.rootTasks, b.now.rootTasks;
    forall i, u, v | 0 <= i < |items| && ds[i].Split? && u in s && v in s && u.id == v.id == items[i].taskId
      ensures u.dependencies == v.dependencies
    {
      var m :| 0 <= m < |s| && s[m] == u;
      var n :| 0 <= n < |s| && s[n] == v;
      assert t[m] in t && t[n] in t;
    }
  }

  lemma SameGoes(a: Ledger, b: Ledger, items: seq<Missing>, ds: seq<Decision>, known: set<string>, i: nat)
    requires Full(a) && Full(b) && Copied(a, b) && i < |items| == |ds|
    ensures Goes(a, items, ds, known, i) <==> Goes(b, items, ds, known, i)
  {
    SameDownstream(a, b, items[i].taskId);
    CopiedScopes(a, b);
    assert AllKeys(a.now) == AllKeys(b.now);
    hide AllUsable, SelectedPaths, HasDownstream, Scopes;
  }

  // ---------------------------------------------------------------- the start of the loop

  /** The job that a repair of the ledger poses. */
  ghost function JobOn(start: Ledger, range: Range, reviews: seq<Review>, registries: map<int, seq<Repo>>, seedRepos: seq<Repo>): Job
    requires Full(start)
  {
    Job(start, range, ScanOf(start, range), DecisionsOn(start, range, reviews, registries, seedRepos), KnownRepoPaths(seedRepos))
  }

  /** Both indexes are those of the task lists. */
  ghost predicate FreshlyIndexed(s: Standing) {
    s.rootById == TasksById(s.rootTasks) && s.regroupById == TasksById(s.regroupTasks)
  }

  lemma FreshIsCoherent(s: Standing)
    requires FreshlyIndexed(s)
    ensures Coherent(s) && Keyed(s)
    ensures "" !in AllKeys(s)
  {
    IndexedTasks(s.rootTasks);
    IndexedTasks(s.regroupTasks);
  }

  lemma StartsWellPosed(start: Ledger, range: Range, reviews: seq<Review>, registries: map<int, seq<Repo>>, seedRepos: seq<Repo>)
    requires Full(start) && FreshlyIndexed(start.now)
    ensures WellPosed(JobOn(start, range, reviews, registries, seedRepos))
  {
    var items := ScanOf(start, range);
    FreshIsCoherent(start.now);
    forall i | 0 <= i < |items| ensures items[i].taskId != "" {
      ScanFinds(start, range, items[i].taskId);
      assert Found(items, items[i].taskId);
    }
  }

  lemma StartsRepairing(j: Job)
    requires WellPosed(j) && j.items == ScanOf(j.start, j.range)
    ensures Repairing(j, 0, NOTHING_YET, j.start)
  {
    forall x | ListedInRange(j.start.now.regroupOrder, x, j.range) && LacksBy(j.start, x) ensures Pending(j, 0, x) {
      ScanFinds(j.start, j.range, x);
    }
  }

  lemma StartsOnCourse(j: Job)
    requires WellPosed(j) && j.items == ScanOf(j.start, j.range)
    ensures OnCourse(j, 0, NOTHING_YET, j.start) && OrdersTraded(j, NOTHING_YET, j.start)
  {
    forall k | 0 <= k < |j.items| ensures AsScanned(j, NOTHING_YET, j.start, j.items[k].taskId) {
      ScanFinds(j.start, j.range, j.items[k].taskId);
      assert Found(j.items, j.items[k].taskId);
    }
  }

  lemma LoopStarts(start: Ledger, range: Range, reviews: seq<Review>, registries: map<int, seq<Repo>>, seedRepos: seq<Repo>)
    requires Full(start) && FreshlyIndexed(start.now)
    ensures var j := JobOn(start, range, reviews, registries, seedRepos);
      WellPosed(j) && Sound(j, 0, NOTHING_YET, start) && Plain(j, 0, NOTHING_YET, start) && Exact(j, 0, NOTHING_YET, start)
  {
    StartsWellPosed(start, range, reviews, registries, seedRepos);
    StartsRepairing(JobOn(start, range, reviews, registries, seedRepos));
    StartsOnCourse(JobOn(start, range, reviews, registries, seedRepos));
  }

  lemma ScanOfLists(payload: Dag, overlay: Dag, range: Range)
    ensures Missings(overlay.order, LackingIds(TasksById(payload.tasks), TasksById(overlay.tasks)), range)
         == ScanOf(LedgerOfLists(payload, overlay), range)
  {
    var lacking, l := LackingIds(TasksById(payload.tasks), TasksById(overlay.tasks)), LedgerOfLists(payload, overlay);
    assert forall x :: LacksBy(l, x) <==> Lacks(TasksById(payload.tasks), TasksById(overlay.tasks), x);
    assert lacking == LackingBy(l);
  }

  /** The job is the one the payloads pose, on their copies. */
  ghost predicate OnCopies(j: Job, before: Ledger, range: Range, reviews: seq<Review>, registries: map<int, seq<Repo>>,
                           seedRepos: seq<Repo>)
    requires Full(before)
  {
    && WellPosed(j) && Copied(j.start, before) && j.range == range && j.known == KnownRepoPaths(seedRepos)
    && j.items == ScanOf(before, range) && j.ds == DecisionsOn(before, range, reviews, registries, seedRepos)
  }

  lemma PosedOnCopies(start: Ledger, before: Ledger, range: Range, reviews: seq<Review>, registries: map<int, seq<Repo>>,
                      seedRepos: seq<Repo>, payloadTasks: map<string, Task>)
    requires Full(start) && Full(before) && FreshlyIndexed(start.now) && Copied(start, before)
    requires payloadTasks == before.now.rootById
    ensures var j := JobOn(start, range, reviews, registries, seedRepos);
      && OnCopies(j, before, range, reviews, registries, seedRepos)
      && Posed(j, payloadTasks, before.rootFiles, reviews, registries, seedRepos)
      && Sound(j, 0, NOTHING_YET, start) && Plain(j, 0, NOTHING_YET, start) && Exact(j, 0, NOTHING_YET, start)
  {
    LoopStarts(start, range, reviews, registries, seedRepos);
    SameJob(start, before, range, reviews, registries, seedRepos);
    CopiedScopes(start, before);
  }

  /** Copies of both DAGs with indexes of the copies. */
  method CopyBoth(payload: Dag, overlay: Dag)
    returns (root: Dag, regroup: Dag, rootIndex: TaskIndex, regroupIndex: TaskIndex)
    ensures fresh(root) && fresh(regroup) && fresh(rootIndex) && fresh(regroupIndex) && root != regroup && rootIndex != regroupIndex
    ensures fresh(AllTasks(root, regroup, rootIndex, regroupIndex))
    ensures rootIndex.byId == TasksById(root.tasks) && regroupIndex.byId == TasksById(regroup.tasks)
    ensures Copied(LedgerOfLists(root, regroup), LedgerOfLists(payload, overlay))
  {
    hide Copied, TasksById, SameTask;
    root, rootIndex := CopyDag(payload);
    regroup, regroupIndex := CopyDag(overlay);
    CopiedLedger(root, regroup, payload, overlay);
  }

  /** The scan of two DAGs whose task lists are indexed afresh. */
  method ScanLists(root: Dag, regroup: Dag, range: Range) returns (items: seq<Missing>)
    ensures items == ScanOf(old(LedgerOfLists(root, regroup)), range)
    ensures LedgerOfLists(root, regroup) == old(LedgerOfLists(root, regroup))
    ensures FilesOf(TasksById(regroup.tasks)) == old(FilesOf(TasksById(regroup.tasks)))
  {
    items := ScanGroups(TasksById(root.tasks), TasksById(regroup.tasks), regroup.order, range);
    ScanOfLists(root, regroup, range);
    ListStays(root.tasks);
    ListStays(regroup.tasks);
  }

  /** The copies, and the payloads as they were. */
  method CopyPayloads(payload: Dag, overlay: Dag)
    returns (root: Dag, regroup: Dag, rootIndex: TaskIndex, regroupIndex: TaskIndex)
    ensures fresh(root) && fresh(regroup) && fresh(rootIndex) && fresh(regroupIndex) && root != regroup && rootIndex != regroupIndex
    ensures fresh(AllTasks(root, regroup, rootIndex, regroupIndex))
    ensures rootIndex.byId == TasksById(root.tasks) && regroupIndex.byId == TasksById(regroup.tasks)
    ensures Copied(LedgerOfLists(root, regroup), old(LedgerOfLists(payload, overlay)))
    ensures LedgerOfLists(payload, overlay) == old(LedgerOfLists(payload, overlay))
  {
    hide Copied;
    root, regroup, rootIndex, regroupIndex := CopyBoth(payload, overlay);
    ListStays(payload.tasks);
    ListStays(overlay.tasks);
  }

  /** Scans the payloads and copies them. */
  method SetUp(payload: Dag, overlay: Dag, range: Range, ghost reviews: seq<Review>, ghost registries: map<int, seq<Repo>>,
               ghost seedRepos: seq<Repo>)
    returns (root: Dag, regroup: Dag, rootIndex: TaskIndex, regroupIndex: TaskIndex, items: seq<Missing>, ghost j: Job)
    ensures fresh(root) && fresh(regroup) && fresh(rootIndex) && fresh(regroupIndex) && root != regroup && rootIndex != regroupIndex
    ensures fresh(AllTasks(root, regroup, rootIndex, regroupIndex))
    ensures Full(j.start) && |j.items| == |j.ds|
    ensures items == j.items && OnCopies(j, old(LedgerOfLists(payload, overlay)), range, reviews, registries, seedRepos)
    ensures Posed(j, TasksById(payload.tasks), FilesOf(TasksById(payload.tasks)), reviews, registries, seedRepos)
    ensures Keyed(StandingOf(root, regroup, rootIndex, regroupIndex))
    ensures LoopHolds(j, 0, NOTHING_YET, root, regroup, rootIndex, regroupIndex)
  {
    hide Copied, Posed, Sound, Plain, Exact, Keyed, WellPosed;
    ghost var before := LedgerOfLists(payload, overlay);
    items := ScanLists(payload, overlay, range);
    root, regroup, rootIndex, regroupIndex := CopyPayloads(payload, overlay);
    ghost var start := LedgerOfLists(root, regroup);
    j := JobOn(start, range, reviews, registries, seedRepos);
    FreshIsCoherent(start.now);
    PosedOnCopies(start, before, range, reviews, registries, seedRepos, TasksById(payload.tasks));
    IndexedLedger(root, regroup, rootIndex, regroupIndex);
  }

  /** Scan, copy and run the repair loop. */
  method RunRepair(payload: Dag, overlay: Dag, range: Range, reviews: seq<Review>, registries: map<int, seq<Repo>>,
                   seedRepos: seq<Repo>)
    returns (root: Dag, regroup: Dag, rootIndex: TaskIndex, regroupIndex: TaskIndex, p: Progress, ghost j: Job)
    ensures fresh(root) && fresh(regroup) && root != regroup
    ensures fresh(AllTasks(root, regroup, rootIndex, regroupIndex))
    ensures OnCopies(j, old(LedgerOfLists(payload, overlay)), range, reviews, registries, seedRepos)
    ensures LoopHolds(j, |j.items|, p, root, regroup, rootIndex, regroupIndex)
  {
    hide LoopHolds, Keyed, Posed, OnCopies, LedgerOfLists, StandingOf, FilesOf, Full;
    var items;
    root, regroup, rootIndex, regroupIndex, items, j := SetUp(payload, overlay, range, reviews, registries, seedRepos);
    ghost var owned := AllTasks(root, regroup, rootIndex, regroupIndex);
    p := RepairAll(root, regroup, rootIndex, regroupIndex, TasksById(payload.tasks), items, reviews, registries, seedRepos,
                   j, owned);
  }
}

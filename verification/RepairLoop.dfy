/** The repair loop over every lacking task, and what it has done when nothing blocked it. */
module RepairLoop {
  import opened Text
  import opened Wrappers
  import opened RepairModel
  import opened TaskSplits
  import opened BulkRepair
  import opened RepairBook
  import opened RepairRun
  import opened RepairJob
  import opened RepairCourse

  /** The decisions of the job are those taken on the payload's tasks. */
  ghost predicate Posed(j: Job, payloadTasks: map<string, Task>, payloadFiles: map<string, seq<string>>,
                        reviews: seq<Review>, registries: map<int, seq<Repo>>, seedRepos: seq<Repo>) {
    && WellPosed(j) && j.known == KnownRepoPaths(seedRepos)
    && payloadFiles.Keys == payloadTasks.Keys == j.start.now.rootById.Keys
    && (forall x :: x in payloadTasks ==> payloadTasks[x].id == j.start.now.rootById[x].id)
    && Scopes(payloadTasks, payloadFiles) == Scopes(j.start.now.rootById, j.start.rootFiles)
    && j.ds == Verdicts(Scopes(payloadTasks, payloadFiles), j.items, reviews, registries, seedRepos)
  }

  ghost predicate Spelled(j: Job)
    requires |j.ds| == |j.items|
  {
    SplitsSpelled(j.start.now.rootTasks, j.items, j.ds)
  }

  /** What holds after the first i items while none was refused. */
  ghost predicate Sound(j: Job, i: nat, p: Progress, l: Ledger)
    requires Full(j.start) && Full(l) && i <= |j.items| == |j.ds|
  {
    p.blockers == [] && Spelled(j) ==>
      Repairing(j, i, p, l) && (DistinctItems(j.items) ==> OnCourse(j, i, p, l) && OrdersTraded(j, p, l))
  }

  /** When nothing is to be split, the loop records what was decided, refused items included. */
  ghost predicate Plain(j: Job, i: nat, p: Progress, l: Ledger)
    requires i <= |j.items| == |j.ds|
  {
    SplitFree(j.ds) ==>
      p == Replay(j.items[..i], j.ds[..i]) && l.now == j.start.now && l.rootFiles == j.start.rootFiles
  }

  /** Whether the loop is blocked, and what it leaves, exactly: the ids of the items and the
      dependencies of the tasks to be split being distinct enough to say it before the loop. */
  ghost predicate Exact(j: Job, i: nat, p: Progress, l: Ledger)
    requires Full(j.start) && i <= |j.items| == |j.ds|
  {
    Spelled(j) && DistinctItems(j.items) && DependAlike(j.start.now.rootTasks, j.items, j.ds) ==>
      && (p.blockers == [] <==> AllGo(j.start, j.items, j.ds, j.known, i))
      && (p.blockers == [] ==> AsReplayed(j, i, p, l))
  }

  // ---------------------------------------------------------------- one round

  lemma PlainRound(j: Job, i: nat, p: Progress, l: Ledger, l': Ledger, d: Decision, outcome: Outcome, can: bool)
    requires i < |j.items| == |j.ds| && Plain(j, i, p, l) && Fits(l, l', d, outcome, can)
    requires SplitFree(j.ds) ==> d == j.ds[i]
    ensures Plain(j, i + 1, Recorded(p, outcome, j.items[i]), l')
  {
    if SplitFree(j.ds) {
      assert j.ds[i] in j.ds;
      ReplayMore(j.items, j.ds, i);
    }
  }

  lemma PlainDecision(j: Job, i: nat, p: Progress, l: Ledger, payloadTasks: map<string, Task>, payloadFiles: map<string, seq<string>>,
                      reviews: seq<Review>, registries: map<int, seq<Repo>>, seedRepos: seq<Repo>)
    requires Posed(j, payloadTasks, payloadFiles, reviews, registries, seedRepos)
    requires i < |j.items| && Full(l) && Plain(j, i, p, l) && SplitFree(j.ds)
    ensures ItemVerdict(Scopes(l.now.rootById, l.rootFiles), Scopes(payloadTasks, payloadFiles), j.items[i],
                        reviews, registries, seedRepos) == j.ds[i]
  {
  }

  /** A split that the loop carried out was of a task spelled like its id. */
  lemma SplitRound(j: Job, i: nat, p: Progress, l: Ledger, l': Ledger, payloadTasks: map<string, Task>, d: Decision,
                   created: seq<string>, repoPaths: map<string, string>, splits: seq<Task>)
    requires WellPosed(j) && i < |j.items| && Repairing(j, i, p, l) && Spelled(j)
    requires payloadTasks.Keys == j.start.now.rootById.Keys
    requires forall x :: x in payloadTasks ==> payloadTasks[x].id == j.start.now.rootById[x].id
    requires var id := j.items[i].taskId;
             d == j.ds[i] || (id in l.now.rootById && l.now.rootById[id].id == id && !StillThere(j, l, id))
    requires d.Split? && Full(l')
    requires Steps(l, l', j.items[i].taskId, TaskFor(l.now.rootById, payloadTasks, j.items[i].taskId),
                   WasSplit(created, repoPaths), splits, j.known)
    ensures Repairing(j, i + 1, Recorded(p, WasSplit(created, repoPaths), j.items[i]), l')
    ensures j.items[i].taskId in l.now.rootById
    ensures SplitOff(l, l', j.items[i].taskId, l.now.rootById[j.items[i].taskId].repoId, splits, created, repoPaths)
  {
    var id := j.items[i].taskId;
    var task := TaskFor(l.now.rootById, payloadTasks, id).value;
    SplitSpelled(j, i, p, l, payloadTasks, d);
    DefinedIsIndexed(l.now, id);
    SplitKeepsCoherent(l.now, id, splits, created);
    SplitKeeps(j, i, p, l, l', task.repoId, splits, created, repoPaths);
  }

  lemma DefinedIsIndexed(s: Standing, id: string)
    requires Coherent(s) && id != "" && Trimmed(id) && exists t :: t in s.rootTasks && t.id == id
    ensures id in s.rootById
  {
    IndexedTasks(s.rootTasks);
  }

  lemma AssignedRound(j: Job, i: nat, p: Progress, l: Ledger, l': Ledger, repoPath: string, byReview: bool)
    requires WellPosed(j) && i < |j.items| && Repairing(j, i, p, l) && repoPath in j.known
    requires Full(l') && Assigned(l, l', j.items[i].taskId, repoPath)
    ensures Repairing(j, i + 1, Recorded(p, WasAssigned(repoPath, byReview), j.items[i]), l')
  {
    AssignedKeeps(j, i, p, l, l', repoPath, byReview);
  }

  /** On course, the decision is the one taken before the loop. */
  lemma DecisionOnCourse(j: Job, i: nat, p: Progress, l: Ledger, payloadTasks: map<string, Task>, payloadFiles: map<string, seq<string>>,
                         reviews: seq<Review>, registries: map<int, seq<Repo>>, seedRepos: seq<Repo>)
    requires Posed(j, payloadTasks, payloadFiles, reviews, registries, seedRepos)
    requires i < |j.items| && Repairing(j, i, p, l) && OnCourse(j, i, p, l)
    ensures var d := ItemVerdict(Scopes(l.now.rootById, l.rootFiles), Scopes(payloadTasks, payloadFiles), j.items[i],
                                 reviews, registries, seedRepos);
            d == j.ds[i] && (d.Stop? || j.items[i].taskId in l.now.rootById)
  {
    assert AsScanned(j, p, l, j.items[i].taskId);
    DecidedBefore(j, i, p, l, payloadTasks, payloadFiles, reviews, registries, seedRepos);
  }

  lemma CourseRound(j: Job, i: nat, p: Progress, l: Ledger, l': Ledger, d: Decision, outcome: Outcome, splits: seq<Task>)
    requires Full(j.start) && Full(l) && Full(l') && i < |j.items| == |j.ds| && DistinctItems(j.items)
    requires OnCourse(j, i, p, l) && OrdersTraded(j, p, l)
    requires d == j.ds[i] && !outcome.Refused? && outcome == Expected(d) && j.items[i].taskId in l.now.rootById
    requires outcome.WasAssigned? ==> Assigned(l, l', j.items[i].taskId, outcome.repoPath)
    requires outcome.WasSplit? ==>
               SplitOff(l, l', j.items[i].taskId, l.now.rootById[j.items[i].taskId].repoId, splits, outcome.created, outcome.repoPaths)
    ensures OnCourse(j, i + 1, Recorded(p, outcome, j.items[i]), l') && OrdersTraded(j, Recorded(p, outcome, j.items[i]), l')
  {
    match outcome
    case WasAssigned(repoPath, byReview) => AssignedOnCourse(j, i, p, l, l', repoPath, byReview);
    case WasSplit(created, repoPaths) =>
      var repoId := l.now.rootById[j.items[i].taskId].repoId;
      assert AsScanned(j, p, l, j.items[i].taskId);
      SplitKeepsOrders(j, p, l, l', j.items[i], repoId, splits, created, repoPaths);
      SplitOnCourse(j, i, p, l, l', repoId, splits, d.specs);
  }

  /** What the loop decides for its i-th item. */
  ghost function LoopVerdict(j: Job, i: nat, l: Ledger, payloadTasks: map<string, Task>, payloadFiles: map<string, seq<string>>,
                             reviews: seq<Review>, registries: map<int, seq<Repo>>, seedRepos: seq<Repo>): (d: Decision)
    requires i < |j.items| && Full(l) && payloadFiles.Keys == payloadTasks.Keys
    ensures d.Assign? ==> d.repoPath in KnownRepoPaths(seedRepos)
  {
    ItemVerdict(Scopes(l.now.rootById, l.rootFiles), Scopes(payloadTasks, payloadFiles), j.items[i], reviews, registries, seedRepos)
  }

  /** A round that is not refused keeps what holds. */
  lemma RepairingRound(j: Job, i: nat, p: Progress, l: Ledger, l': Ledger, payloadTasks: map<string, Task>, d: Decision,
                       outcome: Outcome, splits: seq<Task>)
    requires WellPosed(j) && i < |j.items| && Repairing(j, i, p, l) && Spelled(j) && Full(l')
    requires payloadTasks.Keys == j.start.now.rootById.Keys
    requires forall x :: x in payloadTasks ==> payloadTasks[x].id == j.start.now.rootById[x].id
    requires var id := j.items[i].taskId;
             d == j.ds[i] || (id in l.now.rootById && l.now.rootById[id].id == id && !StillThere(j, l, id))
    requires Steps(l, l', j.items[i].taskId, TaskFor(l.now.rootById, payloadTasks, j.items[i].taskId), outcome, splits, j.known)
    requires !outcome.Refused? && outcome == Expected(d) && (d.Assign? ==> d.repoPath in j.known)
    ensures Repairing(j, i + 1, Recorded(p, outcome, j.items[i]), l')
    ensures outcome.WasSplit? ==>
              && j.items[i].taskId in l.now.rootById
              && SplitOff(l, l', j.items[i].taskId, l.now.rootById[j.items[i].taskId].repoId, splits, outcome.created, outcome.repoPaths)
  {
    match outcome
    case WasAssigned(repoPath, byReview) => AssignedRound(j, i, p, l, l', repoPath, byReview);
    case WasSplit(created, repoPaths) => SplitRound(j, i, p, l, l', payloadTasks, d, created, repoPaths, splits);
  }

  /** A round that is not refused stays on course. */
  lemma CourseKept(j: Job, i: nat, p: Progress, l: Ledger, l': Ledger, payloadTasks: map<string, Task>,
                   payloadFiles: map<string, seq<string>>, reviews: seq<Review>, registries: map<int, seq<Repo>>, seedRepos: seq<Repo>,
                   outcome: Outcome, splits: seq<Task>)
    requires Posed(j, payloadTasks, payloadFiles, reviews, registries, seedRepos) && DistinctItems(j.items)
    requires i < |j.items| && Repairing(j, i, p, l) && OnCourse(j, i, p, l) && OrdersTraded(j, p, l) && Full(l')
    requires outcome == Expected(LoopVerdict(j, i, l, payloadTasks, payloadFiles, reviews, registries, seedRepos)) && !outcome.Refused?
    requires outcome.WasAssigned? ==> Assigned(l, l', j.items[i].taskId, outcome.repoPath)
    requires outcome.WasSplit? ==>
               && j.items[i].taskId in l.now.rootById
               && SplitOff(l, l', j.items[i].taskId, l.now.rootById[j.items[i].taskId].repoId, splits, outcome.created, outcome.repoPaths)
    ensures OnCourse(j, i + 1, Recorded(p, outcome, j.items[i]), l') && OrdersTraded(j, Recorded(p, outcome, j.items[i]), l')
  {
    DecisionOnCourse(j, i, p, l, payloadTasks, payloadFiles, reviews, registries, seedRepos);
    CourseRound(j, i, p, l, l', j.ds[i], outcome, splits);
  }

  lemma SoundRound(j: Job, i: nat, p: Progress, l: Ledger, l': Ledger, payloadTasks: map<string, Task>,
                   payloadFiles: map<string, seq<string>>, reviews: seq<Review>, registries: map<int, seq<Repo>>, seedRepos: seq<Repo>,
                   outcome: Outcome, splits: seq<Task>, can: bool)
    requires Posed(j, payloadTasks, payloadFiles, reviews, registries, seedRepos)
    requires i < |j.items| && Full(l) && Full(l') && Sound(j, i, p, l)
    requires Steps(l, l', j.items[i].taskId, TaskFor(l.now.rootById, payloadTasks, j.items[i].taskId), outcome, splits, j.known)
    requires Fits(l, l', LoopVerdict(j, i, l, payloadTasks, payloadFiles, reviews, registries, seedRepos), outcome, can)
    ensures Sound(j, i + 1, Recorded(p, outcome, j.items[i]), l')
  {
    hide OnCourse, OrdersTraded, SplitsSpelled, DistinctItems, Coherent, Conserved, PathsFollow, OnlyPendingLack;
    var d := LoopVerdict(j, i, l, payloadTasks, payloadFiles, reviews, registries, seedRepos);
    if Recorded(p, outcome, j.items[i]).blockers == [] && Spelled(j) {
      assert !outcome.Refused? && p.blockers == [];
      DecidedBefore(j, i, p, l, payloadTasks, payloadFiles, reviews, registries, seedRepos);
      RepairingRound(j, i, p, l, l', payloadTasks, d, outcome, splits);
      if DistinctItems(j.items) {
        CourseKept(j, i, p, l, l', payloadTasks, payloadFiles, reviews, registries, seedRepos, outcome, splits);
      }
    }
  }

  /** Whether the split of an item can go through, in the state of the loop. */
  ghost predicate Can(l: Ledger, id: string, task: Option<Task>, scope: set<string>, d: Decision, known: set<string>) {
    && d.Split? && task.Some?
    && Passes(l.now.rootTasks, task.value.id, scope, d.specs, AllKeys(l.now), known) && Defines(l.now.rootTasks, task.value.id)
  }

  /** The scope the loop looks at for an id. */
  ghost function ScopeFor(l: Ledger, payloadTasks: map<string, Task>, payloadFiles: map<string, seq<string>>, id: string): set<string>
    requires Full(l) && payloadFiles.Keys == payloadTasks.Keys
  {
    if id in l.now.rootById then Scopes(l.now.rootById, l.rootFiles)[id]
    else if id in payloadTasks then Scopes(payloadTasks, payloadFiles)[id]
    else {}
  }

  lemma AllGoMore(start: Ledger, items: seq<Missing>, ds: seq<Decision>, known: set<string>, i: nat)
    requires Full(start) && i < |items| == |ds|
    ensures AllGo(start, items, ds, known, i + 1) <==> AllGo(start, items, ds, known, i) && Goes(start, items, ds, known, i)
  {
    hide Goes;
  }

  /** On course, the i-th item is refused exactly if its decision does not go through. */
  lemma RefusedIff(j: Job, i: nat, p: Progress, l: Ledger, payloadTasks: map<string, Task>, payloadFiles: map<string, seq<string>>,
                   reviews: seq<Review>, registries: map<int, seq<Repo>>, seedRepos: seq<Repo>, l': Ledger, outcome: Outcome, can: bool)
    requires Posed(j, payloadTasks, payloadFiles, reviews, registries, seedRepos) && Spelled(j)
    requires i < |j.items| && Repairing(j, i, p, l) && OnCourse(j, i, p, l) && AsReplayed(j, i, p, l)
    requires Fits(l, l', j.ds[i], outcome, can)
    requires can <==> Can(l, j.items[i].taskId, TaskFor(l.now.rootById, payloadTasks, j.items[i].taskId),
                          ScopeFor(l, payloadTasks, payloadFiles, j.items[i].taskId), j.ds[i], j.known)
    ensures outcome.Refused? <==> !Goes(j.start, j.items, j.ds, j.known, i)
    ensures j.ds[i].Split? ==> j.items[i].taskId in l.now.rootById && l.now.rootById[j.items[i].taskId].id == j.items[i].taskId
  {
    var id := j.items[i].taskId;
    DecisionOnCourse(j, i, p, l, payloadTasks, payloadFiles, reviews, registries, seedRepos);
    if j.ds[i].Split? {
      SplitSpelled(j, i, p, l, payloadTasks, j.ds[i]);
      PassesOnCourse(j, i, p, l, j.ds[i].specs);
      IndexedTasks(l.now.rootTasks);
      hide Passes, OnCourse, AsReplayed, Repairing, Posed, Spelled;
      assert l.now.rootById[id] in l.now.rootTasks;
    }
  }

  lemma ReplayedRound(j: Job, i: nat, p: Progress, l: Ledger, l': Ledger, payloadTasks: map<string, Task>, outcome: Outcome,
                      splits: seq<Task>)
    requires WellPosed(j) && i < |j.items| && Repairing(j, i, p, l) && OnCourse(j, i, p, l) && AsReplayed(j, i, p, l)
    requires DependAlike(j.start.now.rootTasks, j.items, j.ds) && !outcome.Refused? && outcome == Expected(j.ds[i])
    requires j.ds[i].Split? ==> j.items[i].taskId in l.now.rootById && l.now.rootById[j.items[i].taskId].id == j.items[i].taskId
    requires Steps(l, l', j.items[i].taskId, TaskFor(l.now.rootById, payloadTasks, j.items[i].taskId), outcome, splits, j.known)
    ensures AsReplayed(j, i + 1, Recorded(p, outcome, j.items[i]), l')
  {
    match j.ds[i]
    case Assign(_, _) => AssignedReplayed(j, i, p, l, l', outcome);
    case Split(specs) =>
      assert AsScanned(j, p, l, j.items[i].taskId);
      hide AsReplayed, DependAlike, OnCourse, Ongoing, SplitIds, SplitRepoPaths;
      SplitReplayed(j, i, p, l, l', l.now.rootById[j.items[i].taskId].repoId, splits, specs);
  }

  lemma ExactRound(j: Job, i: nat, p: Progress, l: Ledger, l': Ledger, payloadTasks: map<string, Task>,
                   payloadFiles: map<string, seq<string>>, reviews: seq<Review>, registries: map<int, seq<Repo>>, seedRepos: seq<Repo>,
                   outcome: Outcome, splits: seq<Task>, can: bool)
    requires Posed(j, payloadTasks, payloadFiles, reviews, registries, seedRepos)
    requires i < |j.items| && Full(l) && Full(l') && Sound(j, i, p, l) && Exact(j, i, p, l)
    requires Steps(l, l', j.items[i].taskId, TaskFor(l.now.rootById, payloadTasks, j.items[i].taskId), outcome, splits, j.known)
    requires Fits(l, l', LoopVerdict(j, i, l, payloadTasks, payloadFiles, reviews, registries, seedRepos), outcome, can)
    requires can <==> Can(l, j.items[i].taskId, TaskFor(l.now.rootById, payloadTasks, j.items[i].taskId),
                          ScopeFor(l, payloadTasks, payloadFiles, j.items[i].taskId),
                          LoopVerdict(j, i, l, payloadTasks, payloadFiles, reviews, registries, seedRepos), j.known)
    ensures Exact(j, i + 1, Recorded(p, outcome, j.items[i]), l')
  {
    hide OnCourse, OrdersTraded, Ongoing, Coherent, AsReplayed, Goes, AllGo, SplitsSpelled, DistinctItems, DependAlike, Can, Steps;
    AllGoMore(j.start, j.items, j.ds, j.known, i);
    if Spelled(j) && DistinctItems(j.items) && DependAlike(j.start.now.rootTasks, j.items, j.ds) && p.blockers == [] {
      DecisionOnCourse(j, i, p, l, payloadTasks, payloadFiles, reviews, registries, seedRepos);
      RefusedIff(j, i, p, l, payloadTasks, payloadFiles, reviews, registries, seedRepos, l', outcome, can);
      if !outcome.Refused? {
        ReplayedRound(j, i, p, l, l', payloadTasks, outcome, splits);
      }
    }
  }

  // ---------------------------------------------------------------- the loop

  twostate predicate OwnedOrFresh(root: Dag, regroup: Dag, rootIndex: TaskIndex, regroupIndex: TaskIndex, owned: set<Task>)
    reads root, regroup, rootIndex, regroupIndex
  {
    forall t :: t in AllTasks(root, regroup, rootIndex, regroupIndex) ==> t in owned || fresh(t)
  }

  /** Where the loop stands after the first i items. */
  ghost predicate LoopHolds(j: Job, i: nat, p: Progress, root: Dag, regroup: Dag, rootIndex: TaskIndex, regroupIndex: TaskIndex)
    requires Full(j.start) && i <= |j.items| == |j.ds|
    reads root, regroup, rootIndex, regroupIndex, rootIndex.byId.Values, regroupIndex.byId.Values
  {
    var l := LedgerOf(root, regroup, rootIndex, regroupIndex);
    Sound(j, i, p, l) && Plain(j, i, p, l) && Exact(j, i, p, l)
  }

  lemma LedgerHolds(root: Dag, regroup: Dag, rootIndex: TaskIndex, regroupIndex: TaskIndex)
    ensures Holds(LedgerOf(root, regroup, rootIndex, regroupIndex))
  {
  }

  /** A split can go through on the tasks themselves exactly when it can on their values. */
  lemma CanIs(l: Ledger, payloadTasks: map<string, Task>, payloadFiles: map<string, seq<string>>, id: string, d: Decision,
              known: set<string>)
    requires Holds(l) && FilesOf(payloadTasks) == payloadFiles
    ensures var task := TaskFor(l.now.rootById, payloadTasks, id);
      Can(l, id, task, ScopeFor(l, payloadTasks, payloadFiles, id), d, known)
      <==> d.Split? && task.Some? && CanSplit(l.now, task.value, d.specs, known)
  {
    hide AllUsable, SelectedPaths, HasDownstream, PathSet;
  }

  /** One iteration of the loop. */
  method Round(root: Dag, regroup: Dag, rootIndex: TaskIndex, regroupIndex: TaskIndex, payloadTasks: map<string, Task>,
               item: Missing, reviews: seq<Review>, registries: map<int, seq<Repo>>, seedRepos: seq<Repo>, p: Progress,
               ghost j: Job, ghost i: nat, ghost files: map<string, seq<string>>)
    returns (p': Progress)
    requires root != regroup && rootIndex != regroupIndex && i < |j.items| && item == j.items[i]
    requires Full(j.start) && |j.items| == |j.ds|
    requires FilesOf(payloadTasks) == files && Posed(j, payloadTasks, files, reviews, registries, seedRepos)
    requires Keyed(StandingOf(root, regroup, rootIndex, regroupIndex)) && LoopHolds(j, i, p, root, regroup, rootIndex, regroupIndex)
    modifies root`tasks, root`order, regroup`tasks, regroup`order, rootIndex`byId, regroupIndex`byId
    modifies rootIndex.byId.Values`repoPath, regroupIndex.byId.Values`repoPath
    ensures FilesOf(payloadTasks) == files
    ensures OnlyNewTasks(root, regroup, rootIndex, regroupIndex)
    ensures Keyed(StandingOf(root, regroup, rootIndex, regroupIndex)) && LoopHolds(j, i + 1, p', root, regroup, rootIndex, regroupIndex)
  {
    hide Sound, Plain, Exact, Can, CanSplit, Fits, Steps, WellPosed, Decide, Holds, PathsOf, FilesOf, Scopes;
    ghost var l := LedgerOf(root, regroup, rootIndex, regroupIndex);
    LedgerHolds(root, regroup, rootIndex, regroupIndex);
    KeyedAreSeparate(rootIndex.byId, regroupIndex.byId);
    ghost var splits;
    ghost var d := LoopVerdict(j, i, l, payloadTasks, files, reviews, registries, seedRepos);
    ghost var task := TaskFor(rootIndex.byId, payloadTasks, item.taskId);
    ghost var can := d.Split? && task.Some? && CanSplit(l.now, task.value, d.specs, KnownRepoPaths(seedRepos));
    CanIs(l, payloadTasks, files, item.taskId, d, KnownRepoPaths(seedRepos));
    var outcome;
    outcome, splits := RepairOne(root, regroup, rootIndex, regroupIndex, payloadTasks, item.taskId,
                                 FindReview(reviews, item.taskId), ClaimsFor(item, registries), seedRepos);
    p' := Recorded(p, outcome, item);
    ghost var l' := LedgerOf(root, regroup, rootIndex, regroupIndex);
    assert Fits(l, l', d, outcome, can);
    ExactRound(j, i, p, l, l', payloadTasks, files, reviews, registries, seedRepos, outcome, splits, can);
    SoundRound(j, i, p, l, l', payloadTasks, files, reviews, registries, seedRepos, outcome, splits, can);
    if SplitFree(j.ds) {
      PlainDecision(j, i, p, l, payloadTasks, files, reviews, registries, seedRepos);
    }
    PlainRound(j, i, p, l, l', d, outcome, can);
  }

  /** The whole loop, from a state in which no item is done yet. */
  method RepairAll(root: Dag, regroup: Dag, rootIndex: TaskIndex, regroupIndex: TaskIndex, payloadTasks: map<string, Task>,
                   items: seq<Missing>, reviews: seq<Review>, registries: map<int, seq<Repo>>, seedRepos: seq<Repo>,
                   ghost j: Job, ghost owned: set<Task>)
    returns (p: Progress)
    requires root != regroup && rootIndex != regroupIndex && items == j.items
    requires AllTasks(root, regroup, rootIndex, regroupIndex) <= owned && Full(j.start) && |j.items| == |j.ds|
    requires Posed(j, payloadTasks, FilesOf(payloadTasks), reviews, registries, seedRepos)
    requires Keyed(StandingOf(root, regroup, rootIndex, regroupIndex))
    requires LoopHolds(j, 0, NOTHING_YET, root, regroup, rootIndex, regroupIndex)
    modifies root`tasks, root`order, regroup`tasks, regroup`order, rootIndex`byId, regroupIndex`byId
    modifies owned`repoPath
    ensures OwnedOrFresh(root, regroup, rootIndex, regroupIndex, owned)
    ensures LoopHolds(j, |items|, p, root, regroup, rootIndex, regroupIndex)
  {
    hide Keyed, LoopHolds, Posed, FilesOf, StandingOf, Full;
    p := NOTHING_YET;
    ghost var files := FilesOf(payloadTasks);
    for i := 0 to |items|
      invariant OwnedOrFresh(root, regroup, rootIndex, regroupIndex, owned)
      invariant FilesOf(payloadTasks) == files
      invariant Keyed(StandingOf(root, regroup, rootIndex, regroupIndex))
      invariant LoopHolds(j, i, p, root, regroup, rootIndex, regroupIndex)
    {
      p := Round(root, regroup, rootIndex, regroupIndex, payloadTasks, items[i], reviews, registries, seedRepos, p, j, i, files);
    }
  }
}

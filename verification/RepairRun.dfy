/** Repairing one task: by a reviewed split, or by a repo path from a review or the workspace. */
module RepairRun {
  import opened Text
  import opened Wrappers
  import opened Orders
  import opened RepairModel
  import opened TaskSplits
  import opened GroupMoves
  import opened RepairBook

  datatype Outcome =
    | Refused(blockers: seq<Blocker>)
    | WasSplit(created: seq<string>, repoPaths: map<string, string>)
    | WasAssigned(repoPath: string, byReview: bool)

  /** Every task the lists and the indexes refer to. */
  ghost function AllTasks(root: Dag, regroup: Dag, rootIndex: TaskIndex, regroupIndex: TaskIndex): set<Task>
    reads root, regroup, rootIndex, regroupIndex
  {
    (set t | t in root.tasks + regroup.tasks) + rootIndex.byId.Values + regroupIndex.byId.Values
  }

  /** Only new tasks have joined the lists and indexes. */
  twostate predicate OnlyNewTasks(root: Dag, regroup: Dag, rootIndex: TaskIndex, regroupIndex: TaskIndex)
    reads root, regroup, rootIndex, regroupIndex
  {
    forall t :: t in AllTasks(root, regroup, rootIndex, regroupIndex) ==>
      t in old(AllTasks(root, regroup, rootIndex, regroupIndex)) || fresh(t)
  }

  // ---------------------------------------------------------------- splitting one task

  lemma ReplacedTasks(tasks: seq<Task>, id: string, splits: seq<Task>)
    ensures forall t :: t in ReplaceTask(tasks, id, splits) ==> t in tasks || t in splits
  {
    forall t | t in ReplaceTask(tasks, id, splits) ensures t in tasks || t in splits {
      InReplacedTasks(tasks, id, splits, t);
    }
  }

  lemma {:induction false} IndexAllValues(m: map<string, Task>, added: seq<Task>)
    ensures forall t :: t in IndexAll(m, added).Values ==> t in m.Values || t in added
  {
    if added != [] {
      IndexAllValues(m, added[..|added| - 1]);
    }
  }

  lemma {:induction false} DistinctSplitIds(specs: seq<SplitSpec>, splits: seq<Task>)
    requires |splits| == |specs| && DistinctIds(splits)
    requires forall k :: 0 <= k < |specs| ==> splits[k].id == SplitId(specs[k])
    ensures NoRepeats(SplitIds(specs))
    ensures IdsOf(splits) == ToSet(SplitIds(specs))
  {
    hide SplitId;
    NoRepeatsFromDistinct(SplitIds(specs));
    var ids := SplitIds(specs);
    forall x | x in ids ensures x in IdsOf(splits) {
      var k :| 0 <= k < |ids| && ids[k] == x;
      assert splits[k] in splits;
    }
    forall t | t in splits ensures t.id in ids {
      var k :| 0 <= k < |splits| && splits[k] == t;
      assert ids[k] == t.id;
    }
  }

  lemma {:induction false} NoRepeatsFromDistinct(ids: seq<string>)
    requires forall i, j :: 0 <= i < j < |ids| ==> ids[i] != ids[j]
    ensures NoRepeats(ids)
  {
    if ids != [] {
      var n := |ids| - 1;
      NoRepeatsFromDistinct(ids[..n]);
      assert ids == ids[..n] + [ids[n]];
      assert ids[n] !in ids[..n];
      assert multiset(ids) == multiset(ids[..n]) + multiset{ids[n]};
    }
  }

  /** The recorded repo paths are those of the splits. */
  ghost predicate PathsRecorded(repoPaths: map<string, string>, splits: seq<Task>)
    reads splits
  {
    && repoPaths.Keys == IdsOf(splits)
    && forall t :: t in splits ==> t.id in repoPaths && repoPaths[t.id] == t.repoPath
  }

  lemma SplitPathsRecorded(task: Task, specs: seq<SplitSpec>, splits: seq<Task>)
    requires AreSplitsOf(splits, task, specs) && DistinctIds(splits) && IdsOf(splits) == ToSet(SplitIds(specs))
    ensures PathsRecorded(SplitRepoPaths(specs), splits)
  {
    var ids, paths := SplitIds(specs), SplitPaths(specs);
    forall k | 0 <= k < |splits| ensures splits[k].id == ids[k] && splits[k].repoPath == paths[k] {
      assert IsSplitOf(splits[k], task, specs[k]);
    }
    RecordedPairs(ids, paths, splits);
  }

  lemma RecordedPairs(ids: seq<string>, paths: seq<string>, splits: seq<Task>)
    requires |ids| == |paths| == |splits| && DistinctIds(splits) && IdsOf(splits) == ToSet(ids)
    requires forall k :: 0 <= k < |splits| ==> splits[k].id == ids[k] && splits[k].repoPath == paths[k]
    ensures PathsRecorded(Pairs(ids, paths), splits)
  {
    PairsKeys(ids, paths);
    forall t | t in splits ensures t.id in Pairs(ids, paths) && Pairs(ids, paths)[t.id] == t.repoPath {
      var k :| 0 <= k < |splits| && splits[k] == t;
      PairsAt(ids, paths, k);
    }
  }

  /** The repo paths of an index after a split. */
  lemma SplitRepos(m: map<string, Task>, id: string, splits: seq<Task>, repoPaths: map<string, string>)
    requires DistinctIds(splits) && PathsRecorded(repoPaths, splits)
    ensures PathsOf(IndexAll(m - {id}, splits)) == PathsOf(m) - {id} + repoPaths
  {
    var after := IndexAll(m - {id}, splits);
    IndexAllAt(m - {id}, splits);
    IndexAllKeys(m - {id}, splits);
    hide IndexAll;
    forall x | x in after ensures PathsOf(after)[x] == (PathsOf(m) - {id} + repoPaths)[x] {
      if x in repoPaths {
        assert x in IdsOf(splits);
        var t :| t in splits && t.id == x;
        var k :| 0 <= k < |splits| && splits[k] == t;
      }
    }
  }

  lemma SplitFiles(m: map<string, Task>, id: string, splits: seq<Task>, x: string)
    requires NewTasks(splits, m) && x in m && x != id
    ensures x in IndexAll(m - {id}, splits) && FilesOf(IndexAll(m - {id}, splits))[x] == FilesOf(m)[x]
  {
    SplitEntry(m, id, splits, x);
  }

  /** A reviewed split that goes through: its specs are acceptable and the root defines the task. */
  ghost predicate CanSplit(s: Standing, task: Task, specs: seq<SplitSpec>, known: set<string>)
    reads task
  {
    Acceptable(s.rootTasks, task, specs, AllKeys(s), known) && Defines(s.rootTasks, task.id)
  }

  lemma SplitsKeepRepoId(task: Task, specs: seq<SplitSpec>, splits: seq<Task>)
    requires AreSplitsOf(splits, task, specs)
    ensures forall k :: 0 <= k < |splits| ==>
              splits[k].repoId == task.repoId && splits[k].id == SplitId(specs[k]) && splits[k].dependencies == task.dependencies
  {
    forall k | 0 <= k < |splits|
      ensures splits[k].repoId == task.repoId && splits[k].id == SplitId(specs[k]) && splits[k].dependencies == task.dependencies
    {
      assert IsSplitOf(splits[k], task, specs[k]);
    }
  }

  /** What the split tasks of an accepted review are. */
  lemma AcceptedSplits(s: Standing, task: Task, specs: seq<SplitSpec>, splits: seq<Task>, known: set<string>)
    requires AllUsable(specs, |specs|, AllKeys(s), known, task.Paths()) && AreSplitsOf(splits, task, specs)
    ensures CanAdd(s, task.id, splits, SplitIds(specs)) && NoRepeats(SplitIds(specs))
    ensures forall t :: t in splits ==> t.repoId == task.repoId && t.repoPath in known && t.dependencies == task.dependencies
  {
    SplitIdsDistinct(task, specs, splits, AllKeys(s), known);
    SplitsKeepRepoId(task, specs, splits);
    DistinctSplitIds(specs, splits);
  }

  lemma OnlySplitsAreNew(s: Standing, id: string, splits: seq<Task>, created: seq<string>)
    ensures var t := AfterSplit(s, id, splits, created);
      && (forall u :: u in t.rootTasks ==> u in s.rootTasks || u in splits)
      && (forall u :: u in t.regroupTasks ==> u in s.regroupTasks || u in splits)
      && (forall u :: u in t.rootById.Values ==> u in s.rootById.Values || u in splits)
      && (forall u :: u in t.regroupById.Values ==> u in s.regroupById.Values || u in splits)
  {
    IndexAllValues(s.rootById - {id}, splits);
    IndexAllValues(s.regroupById - {id}, splits);
    ReplacedTasks(s.rootTasks, id, splits);
    ReplacedTasks(s.regroupTasks, id, splits);
  }

  /** The ledger says what the tasks it refers to hold. */
  ghost predicate Holds(l: Ledger)
    reads l.now.rootById.Values, l.now.regroupById.Values
  {
    && Full(l)
    && (forall x :: x in l.now.rootById ==>
         l.now.rootById[x].repoPath == l.rootRepos[x] && l.now.rootById[x].files == l.rootFiles[x])
    && (forall x :: x in l.now.regroupById ==> l.now.regroupById[x].repoPath == l.regroupRepos[x])
  }

  lemma HeldPaths(l: Ledger)
    requires Holds(l)
    ensures PathsOf(l.now.rootById) == l.rootRepos
    ensures PathsOf(l.now.regroupById) == l.regroupRepos
    ensures FilesOf(l.now.rootById) == l.rootFiles
  {
  }

  lemma SplitKeepsKeyed(s: Standing, task: Task, specs: seq<SplitSpec>, splits: seq<Task>, created: seq<string>)
    requires AreSplitsOf(splits, task, specs) && Keyed(s)
    ensures Keyed(AfterSplit(s, task.id, splits, created))
  {
    forall t | t in splits ensures Trimmed(t.id) {
      var k :| 0 <= k < |splits| && splits[k] == t;
      assert IsSplitOf(splits[k], task, specs[k]);
      StripIsIdempotent(specs[k].taskId);
    }
    IndexAllKeyed(s.rootById - {task.id}, splits);
    IndexAllKeyed(s.regroupById - {task.id}, splits);
  }

  /** `_apply_reviewed_task_split`, as it changes the state. */
  method TrySplit(root: Dag, regroup: Dag, rootIndex: TaskIndex, regroupIndex: TaskIndex,
                  task: Task, specs: seq<SplitSpec>, known: set<string>, ghost others: set<Task>)
    returns (blockers: seq<Blocker>, ghost splits: seq<Task>)
    requires root != regroup && rootIndex != regroupIndex
    modifies root`tasks, root`order, regroup`tasks, regroup`order, rootIndex`byId, regroupIndex`byId
    ensures blockers == [] <==> old(CanSplit(StandingOf(root, regroup, rootIndex, regroupIndex), task, specs, known))
    ensures forall t :: t in others ==> t.files == old(t.files)
    ensures OnlyNewTasks(root, regroup, rootIndex, regroupIndex)
    ensures blockers == [] ==> CanSplit(old(StandingOf(root, regroup, rootIndex, regroupIndex)), task, specs, known)
    ensures blockers == [] ==>
              && StandingOf(root, regroup, rootIndex, regroupIndex)
                 == AfterSplit(old(StandingOf(root, regroup, rootIndex, regroupIndex)), task.id, splits, SplitIds(specs))
              && AreSplitsOf(splits, task, specs)
    ensures old(Keyed(StandingOf(root, regroup, rootIndex, regroupIndex))) ==> Keyed(StandingOf(root, regroup, rootIndex, regroupIndex))
  {
    ghost var s := StandingOf(root, regroup, rootIndex, regroupIndex);
    ghost var can := CanSplit(s, task, specs, known);
    var created, repoPaths;
    blockers, created, repoPaths, splits := ApplyReviewedTaskSplit(root, regroup, rootIndex, regroupIndex, task, specs, known);
    assert blockers == [] <==> can;
    OnlySplitsAreNew(s, task.id, splits, created);
    if Keyed(s) && AreSplitsOf(splits, task, specs) {
      SplitKeepsKeyed(s, task, specs, splits, created);
    }
  }

  /** There are splits, and they have the dependencies of their original. */
  ghost predicate Inherit(splits: seq<Task>, task: Task) {
    splits != [] && forall t :: t in splits ==> t.dependencies == task.dependencies
  }

  /** The ledger after a split that went through. */
  lemma SplitLedger(l: Ledger, root: Dag, regroup: Dag, rootIndex: TaskIndex, regroupIndex: TaskIndex,
                    task: Task, specs: seq<SplitSpec>, splits: seq<Task>, known: set<string>)
    requires Holds(l)
    requires CanSplit(l.now, task, specs, known) && AreSplitsOf(splits, task, specs)
    requires StandingOf(root, regroup, rootIndex, regroupIndex) == AfterSplit(l.now, task.id, splits, SplitIds(specs))
    ensures SplitOff(l, LedgerOf(root, regroup, rootIndex, regroupIndex), task.id, task.repoId, splits,
                     SplitIds(specs), SplitRepoPaths(specs))
    ensures SplitRepoPaths(specs).Values <= known && Inherit(splits, task)
  {
    AcceptedSplits(l.now, task, specs, splits, known);
    SplitPathsRecorded(task, specs, splits);
    HeldPaths(l);
    SplitRepos(l.now.rootById, task.id, splits, SplitRepoPaths(specs));
    SplitRepos(l.now.regroupById, task.id, splits, SplitRepoPaths(specs));
    forall x | x in l.rootFiles && x != task.id
      ensures x in rootIndex.byId && FilesOf(rootIndex.byId)[x] == l.rootFiles[x]
    {
      SplitFiles(l.now.rootById, task.id, splits, x);
    }
  }

  /** The split branch of the repair loop: what it does when it goes through. */
  method RepairBySplit(root: Dag, regroup: Dag, rootIndex: TaskIndex, regroupIndex: TaskIndex,
                       task: Task, specs: seq<SplitSpec>, known: set<string>, ghost others: set<Task>)
    returns (outcome: Outcome, ghost splits: seq<Task>)
    requires root != regroup && rootIndex != regroupIndex
    modifies root`tasks, root`order, regroup`tasks, regroup`order, rootIndex`byId, regroupIndex`byId
    ensures outcome.WasSplit? <==> old(CanSplit(StandingOf(root, regroup, rootIndex, regroupIndex), task, specs, known))
    ensures outcome.Refused? ==> outcome.blockers != []
    ensures !outcome.Refused? ==> outcome == WasSplit(SplitIds(specs), SplitRepoPaths(specs))
    ensures forall t :: t in others ==> t.files == old(t.files)
    ensures OnlyNewTasks(root, regroup, rootIndex, regroupIndex)
    ensures outcome.WasSplit? ==>
              SplitOff(old(LedgerOf(root, regroup, rootIndex, regroupIndex)), LedgerOf(root, regroup, rootIndex, regroupIndex),
                       task.id, task.repoId, splits, outcome.created, outcome.repoPaths)
              && outcome.repoPaths.Values <= known && Inherit(splits, task)
    ensures old(Keyed(StandingOf(root, regroup, rootIndex, regroupIndex))) ==> Keyed(StandingOf(root, regroup, rootIndex, regroupIndex))
  {
    ghost var l := LedgerOf(root, regroup, rootIndex, regroupIndex);
    ghost var can := CanSplit(l.now, task, specs, known);
    var blockers;
    blockers, splits := TrySplit(root, regroup, rootIndex, regroupIndex, task, specs, known, others);
    assert Holds(l);
    outcome := if blockers != [] then Refused(blockers) else WasSplit(SplitIds(specs), SplitRepoPaths(specs));
    if can {
      SplitLedger(l, root, regroup, rootIndex, regroupIndex, task, specs, splits, known);
    }
  }

  // ---------------------------------------------------------------- assigning a repo path

  /** `_set_task_repo_path` on one index. */
  method SetTaskRepoPath(index: TaskIndex, id: string, repoPath: string)
    modifies index.byId.Values`repoPath
    ensures forall t :: t in index.byId.Values ==>
              t.repoPath == if id in index.byId && t == index.byId[id] then repoPath else old(t.repoPath)
  {
    if id in index.byId {
      index.byId[id].repoPath := repoPath;
    }
  }

  /** Tasks indexed under different ids are different tasks. */
  ghost predicate Apart(a: map<string, Task>, b: map<string, Task>) {
    forall x, y :: x in a && y in b && a[x] == b[y] ==> x == y
  }

  ghost predicate Separate(rootTasks: map<string, Task>, regroupTasks: map<string, Task>) {
    Apart(rootTasks, rootTasks) && Apart(rootTasks, regroupTasks) && Apart(regroupTasks, regroupTasks)
  }

  lemma KeyedAreSeparate(a: map<string, Task>, b: map<string, Task>)
    requires KeyedIndex(a) && KeyedIndex(b)
    ensures Separate(a, b)
  {
  }

  /** Both dicts: the tasks indexed under the id get the path and no other task does. */
  method SetBothPaths(rootIndex: TaskIndex, regroupIndex: TaskIndex, id: string, repoPath: string)
    requires Separate(rootIndex.byId, regroupIndex.byId)
    modifies rootIndex.byId.Values`repoPath, regroupIndex.byId.Values`repoPath
    ensures forall x :: x in rootIndex.byId ==> rootIndex.byId[x].repoPath == if x == id then repoPath else old(rootIndex.byId[x].repoPath)
    ensures forall x :: x in regroupIndex.byId ==>
              regroupIndex.byId[x].repoPath == if x == id then repoPath else old(regroupIndex.byId[x].repoPath)
  {
    SetTaskRepoPath(rootIndex, id, repoPath);
    SetTaskRepoPath(regroupIndex, id, repoPath);
  }

  lemma OverwritesPath(byId: map<string, Task>, before: map<string, string>, id: string, repoPath: string)
    requires before.Keys == byId.Keys
    requires forall x :: x in byId ==> byId[x].repoPath == if x == id then repoPath else before[x]
    ensures PathsOf(byId) == Overwrite(before, id, repoPath)
  {
  }

  /** The assignment branch: the two dicts' repo paths afterwards. */
  method RepairByPath(rootIndex: TaskIndex, regroupIndex: TaskIndex, id: string, repoPath: string)
    requires Separate(rootIndex.byId, regroupIndex.byId)
    modifies rootIndex.byId.Values`repoPath, regroupIndex.byId.Values`repoPath
    ensures PathsOf(rootIndex.byId) == Overwrite(old(PathsOf(rootIndex.byId)), id, repoPath)
    ensures PathsOf(regroupIndex.byId) == Overwrite(old(PathsOf(regroupIndex.byId)), id, repoPath)
  {
    ghost var before, regroupBefore := PathsOf(rootIndex.byId), PathsOf(regroupIndex.byId);
    SetBothPaths(rootIndex, regroupIndex, id, repoPath);
    OverwritesPath(rootIndex.byId, before, id, repoPath);
    OverwritesPath(regroupIndex.byId, regroupBefore, id, repoPath);
  }

  function Claiming(repos: seq<Repo>, id: string): seq<Repo> {
    if repos == [] then []
    else (if id in repos[0].claimedTaskIds then [repos[0]] else []) + Claiming(repos[1..], id)
  }

  /** The repo path the loop settles on and whether a review (rather than the workspace) gave it. */
  function ChosenPath(review: Option<Review>, claims: seq<Repo>): Option<(string, bool)> {
    if review.Some? && review.value.repoPath != "" && review.value.override then
      Some((NormalizeRepoPath(review.value.repoPath), true))
    else if |claims| == 1 then Some((RepoPathOf(claims[0]), false))
    else if review.Some? && review.value.repoPath != "" then Some((NormalizeRepoPath(review.value.repoPath), true))
    else None
  }

  /** `_review_or_claim_is_usable`. */
  predicate ChoiceUsable(repoPath: string, review: Option<Review>, byReview: bool, known: set<string>) {
    && repoPath != "" && repoPath in known
    && (byReview ==> review.Some? && EvidenceUsable(review.value))
  }

  // ---------------------------------------------------------------- one task

  datatype Decision =
    | Stop(blockers: seq<Blocker>)
    | Split(specs: seq<SplitSpec>)
    | Assign(repoPath: string, byReview: bool)

  /** What the loop decides for a lacking task with this scope: several repos call for a reviewed
      split; otherwise an overriding review, a sole workspace claim, or a plain review. */
  function Decide(id: string, scope: set<string>, review: Option<Review>, claims: seq<Repo>, seedRepos: seq<Repo>): (d: Decision)
    ensures d.Stop? ==> d.blockers != []
    ensures d.Assign? ==> d.repoPath in KnownRepoPaths(seedRepos)
    ensures d.Split? ==> review.Some? && d.specs == review.value.splitTasks
  {
    if |MatchingRepoPaths(scope, seedRepos)| > 1 then
      if review.None? || review.value.splitTasks == [] then Stop([Blocker("cross_repo_split_required", id)])
      else Split(review.value.splitTasks)
    else
      var choice := ChosenPath(review, claims);
      if choice.None? then
        Stop([Blocker(if claims == [] then "repo_identity_review_required" else "ambiguous_repo_identity", id)])
      else if !ChoiceUsable(choice.value.0, review, choice.value.1, KnownRepoPaths(seedRepos)) then
        Stop([Blocker("invalid_reviewed_repo_identity", id)])
      else Assign(choice.value.0, choice.value.1)
  }

  /** The outcome of a decision that is not refused along the way. */
  function Expected(decision: Decision): Outcome {
    match decision
    case Stop(blockers) => Refused(blockers)
    case Assign(repoPath, byReview) => WasAssigned(repoPath, byReview)
    case Split(specs) => WasSplit(SplitIds(specs), SplitRepoPaths(specs))
  }

  /** What a round did to the state, when it was not refused. */
  ghost predicate Steps(l: Ledger, l': Ledger, id: string, task: Option<Task>, outcome: Outcome, splits: seq<Task>, known: set<string>) {
    match outcome
    case Refused(_) => true
    case WasAssigned(repoPath, _) => Assigned(l, l', id, repoPath)
    case WasSplit(created, repoPaths) =>
      && task.Some? && SplitOff(l, l', task.value.id, task.value.repoId, splits, created, repoPaths)
      && repoPaths.Values <= known && Inherit(splits, task.value)
  }

  /** The outcome is the one decided; only a split can be refused on the way, and it goes through
      exactly when it can. Without a split, lists and indexes stay as they are. */
  ghost predicate Fits(l: Ledger, l': Ledger, decision: Decision, outcome: Outcome, can: bool) {
    && (!outcome.Refused? || !decision.Split? ==> outcome == Expected(decision))
    && (outcome.Refused? ==> outcome.blockers != [])
    && (if decision.Split? then outcome.WasSplit? <==> can else l'.now == l.now && l'.rootFiles == l.rootFiles)
  }

  /** A decision that is not a split is reported, or its path is written. */
  method RepairPlainly(root: Dag, regroup: Dag, rootIndex: TaskIndex, regroupIndex: TaskIndex, id: string, decision: Decision,
                       ghost others: set<Task>)
    returns (outcome: Outcome)
    requires !decision.Split? && Separate(rootIndex.byId, regroupIndex.byId)
    modifies rootIndex.byId.Values`repoPath, regroupIndex.byId.Values`repoPath
    ensures outcome == Expected(decision)
    ensures StandingOf(root, regroup, rootIndex, regroupIndex) == old(StandingOf(root, regroup, rootIndex, regroupIndex))
    ensures forall t :: t in others ==> t.files == old(t.files)
    ensures FilesOf(rootIndex.byId) == old(FilesOf(rootIndex.byId))
    ensures decision.Assign? ==>
              Assigned(old(LedgerOf(root, regroup, rootIndex, regroupIndex)), LedgerOf(root, regroup, rootIndex, regroupIndex),
                       id, decision.repoPath)
  {
    match decision
    case Stop(blockers) => outcome := Refused(blockers);
    case Assign(repoPath, byReview) =>
      RepairByPath(rootIndex, regroupIndex, id, repoPath);
      outcome := WasAssigned(repoPath, byReview);
  }

  /** One task of the repair loop. */
  method RepairTask(root: Dag, regroup: Dag, rootIndex: TaskIndex, regroupIndex: TaskIndex, task: Task, id: string,
                    review: Option<Review>, claims: seq<Repo>, seedRepos: seq<Repo>, ghost others: set<Task>)
    returns (outcome: Outcome, ghost splits: seq<Task>)
    requires root != regroup && rootIndex != regroupIndex && Separate(rootIndex.byId, regroupIndex.byId)
    modifies root`tasks, root`order, regroup`tasks, regroup`order, rootIndex`byId, regroupIndex`byId
    modifies rootIndex.byId.Values`repoPath, regroupIndex.byId.Values`repoPath
    ensures forall t :: t in others ==> t.files == old(t.files)
    ensures OnlyNewTasks(root, regroup, rootIndex, regroupIndex)
    ensures old(Keyed(StandingOf(root, regroup, rootIndex, regroupIndex))) ==> Keyed(StandingOf(root, regroup, rootIndex, regroupIndex))
    ensures Steps(old(LedgerOf(root, regroup, rootIndex, regroupIndex)), LedgerOf(root, regroup, rootIndex, regroupIndex),
                  id, Some(task), outcome, splits, KnownRepoPaths(seedRepos))
    ensures var d := Decide(id, old(task.Paths()), review, claims, seedRepos);
              Fits(old(LedgerOf(root, regroup, rootIndex, regroupIndex)), LedgerOf(root, regroup, rootIndex, regroupIndex), d, outcome,
                   d.Split? && old(CanSplit(StandingOf(root, regroup, rootIndex, regroupIndex), task, d.specs, KnownRepoPaths(seedRepos))))
  {
    splits := [];
    var known := KnownRepoPaths(seedRepos);
    var decision := Decide(id, task.Paths(), review, claims, seedRepos);
    if decision.Split? {
      outcome, splits := RepairBySplit(root, regroup, rootIndex, regroupIndex, task, decision.specs, known, others);
    } else {
      outcome := RepairPlainly(root, regroup, rootIndex, regroupIndex, id, decision, others);
    }
  }

  /** The task the loop repairs for an id: the working copy, or else the payload's. */
  function TaskFor(rootTasks: map<string, Task>, payloadTasks: map<string, Task>, id: string): Option<Task> {
    if id in rootTasks then Some(rootTasks[id]) else if id in payloadTasks then Some(payloadTasks[id]) else None
  }

  /** What the loop decides for an id, from the scopes of the working copies and of the payload's tasks. */
  ghost function VerdictOn(scopes: map<string, set<string>>, payloadScopes: map<string, set<string>>,
                           id: string, review: Option<Review>, claims: seq<Repo>, seedRepos: seq<Repo>): (d: Decision)
    ensures d.Stop? ==> d.blockers != []
    ensures d.Assign? ==> d.repoPath in KnownRepoPaths(seedRepos)
    ensures d.Split? ==> review.Some? && d.specs == review.value.splitTasks && (id in scopes || id in payloadScopes)
    ensures d.Assign? ==> id in scopes || id in payloadScopes
  {
    if id in scopes then Decide(id, scopes[id], review, claims, seedRepos)
    else if id in payloadScopes then Decide(id, payloadScopes[id], review, claims, seedRepos)
    else Stop([Blocker("missing_current_group_task", id)])
  }

  twostate lemma FilesStay(tasks: map<string, Task>)
    ensures (forall t :: t in tasks.Values ==> t.files == old(t.files)) ==> FilesOf(tasks) == old(FilesOf(tasks))
  {
  }

  /** One round of the repair loop. */
  method RepairOne(root: Dag, regroup: Dag, rootIndex: TaskIndex, regroupIndex: TaskIndex, payloadTasks: map<string, Task>,
                   id: string, review: Option<Review>, claims: seq<Repo>, seedRepos: seq<Repo>)
    returns (outcome: Outcome, ghost splits: seq<Task>)
    requires root != regroup && rootIndex != regroupIndex && Separate(rootIndex.byId, regroupIndex.byId)
    modifies root`tasks, root`order, regroup`tasks, regroup`order, rootIndex`byId, regroupIndex`byId
    modifies rootIndex.byId.Values`repoPath, regroupIndex.byId.Values`repoPath
    ensures FilesOf(payloadTasks) == old(FilesOf(payloadTasks))
    ensures OnlyNewTasks(root, regroup, rootIndex, regroupIndex)
    ensures old(Keyed(StandingOf(root, regroup, rootIndex, regroupIndex))) ==> Keyed(StandingOf(root, regroup, rootIndex, regroupIndex))
    ensures Steps(old(LedgerOf(root, regroup, rootIndex, regroupIndex)), LedgerOf(root, regroup, rootIndex, regroupIndex),
                  id, old(TaskFor(rootIndex.byId, payloadTasks, id)), outcome, splits, KnownRepoPaths(seedRepos))
    ensures var d := VerdictOn(Scopes(old(rootIndex.byId), old(FilesOf(rootIndex.byId))), Scopes(payloadTasks, old(FilesOf(payloadTasks))),
                              id, review, claims, seedRepos);
            var task := old(TaskFor(rootIndex.byId, payloadTasks, id));
              Fits(old(LedgerOf(root, regroup, rootIndex, regroupIndex)), LedgerOf(root, regroup, rootIndex, regroupIndex), d, outcome,
                   d.Split? && task.Some?
                   && old(CanSplit(StandingOf(root, regroup, rootIndex, regroupIndex), task.value, d.specs, KnownRepoPaths(seedRepos))))
  {
    splits := [];
    var task := TaskFor(rootIndex.byId, payloadTasks, id);
    if task.None? {
      outcome := Refused([Blocker("missing_current_group_task", id)]);
    } else {
      outcome, splits := RepairTask(root, regroup, rootIndex, regroupIndex, task.value, id, review, claims, seedRepos, payloadTasks.Values);
      FilesStay(payloadTasks);
    }
  }
}

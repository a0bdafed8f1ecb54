/** The state of the repair as values: the two task lists, the two orders, the two id indexes,
    and the repo paths and scopes of the indexed tasks. What a round of the repair does to it,
    and what that keeps. */
module RepairBook {
  import opened Text
  import opened Orders
  import opened RepairModel
  import opened TaskSplits
  import opened GroupMoves

  /** The lists and the indexes as they stand. */
  datatype Standing = Standing(rootTasks: seq<Task>, rootOrder: Order, regroupTasks: seq<Task>, regroupOrder: Order,
                               rootById: map<string, Task>, regroupById: map<string, Task>)

  function StandingOf(root: Dag, regroup: Dag, rootIndex: TaskIndex, regroupIndex: TaskIndex): Standing
    reads root, regroup, rootIndex, regroupIndex
  {
    Standing(root.tasks, root.order, regroup.tasks, regroup.order, rootIndex.byId, regroupIndex.byId)
  }

  ghost function AllKeys(s: Standing): set<string> {
    s.rootById.Keys + s.regroupById.Keys
  }

  /** What carrying out a split does. */
  function AfterSplit(s: Standing, id: string, splits: seq<Task>, created: seq<string>): Standing {
    Standing(ReplaceTask(s.rootTasks, id, splits), ReplaceInOrder(s.rootOrder, id, created),
             ReplaceTask(s.regroupTasks, id, splits), ReplaceInOrder(s.regroupOrder, id, created),
             IndexAll(s.rootById - {id}, splits), IndexAll(s.regroupById - {id}, splits))
  }

  // ---------------------------------------------------------------- indexes that match the lists

  ghost predicate AllTrimmed(tasks: seq<Task>) {
    forall t :: t in tasks ==> Trimmed(t.id)
  }

  ghost predicate KeyedIndex(byId: map<string, Task>) {
    forall k :: k in byId ==> Key(byId[k]) == k
  }

  /** An overlay task that the indexes have forgotten: it is spelled unlike its id, and no group lists it. */
  ghost predicate Leftover(s: Standing, x: string)
    requires x in TasksById(s.regroupTasks)
  {
    x !in Tally(s.regroupOrder) && TasksById(s.regroupTasks)[x].id != x
  }

  /** The incrementally kept root index is the index of the root task list, and for ids the
      root does not define the regroup index agrees with the regroup task list but for leftovers. */
  ghost predicate Coherent(s: Standing) {
    && s.rootById == TasksById(s.rootTasks) && KeyedIndex(s.regroupById)
    && (forall x :: x in s.regroupById && x !in s.rootById ==>
         x in TasksById(s.regroupTasks) && TasksById(s.regroupTasks)[x] == s.regroupById[x])
    && (forall x :: x in TasksById(s.regroupTasks) && x !in s.rootById && x !in s.regroupById ==> Leftover(s, x))
  }

  lemma {:induction false} IndexAllKeyed(m: map<string, Task>, splits: seq<Task>)
    requires KeyedIndex(m) && forall t :: t in splits ==> Trimmed(t.id)
    ensures KeyedIndex(IndexAll(m, splits))
  {
    if splits != [] {
      IndexAllKeyed(m, splits[..|splits| - 1]);
      assert splits[|splits| - 1] in splits;
    }
  }

  lemma {:induction false} IndexAllKeys(m: map<string, Task>, splits: seq<Task>)
    ensures IndexAll(m, splits).Keys == m.Keys + IdsOf(splits)
  {
    if splits != [] {
      var n := |splits| - 1;
      IndexAllKeys(m, splits[..n]);
      assert splits == splits[..n] + [splits[n]];
      assert IdsOf(splits) == IdsOf(splits[..n]) + {splits[n].id};
    }
  }

  /** Tasks and indexes that a split adds to. */
  ghost predicate CanAdd(s: Standing, id: string, splits: seq<Task>, created: seq<string>) {
    NewTasks(splits, s.rootById) && NewTasks(splits, s.regroupById) && ToSet(created) == IdsOf(splits)
  }

  /** An entry that survives a split was there before, as it is. */
  lemma SplitEntry(m: map<string, Task>, id: string, splits: seq<Task>, x: string)
    requires DistinctIds(splits) && x !in IdsOf(splits)
    ensures x in IndexAll(m - {id}, splits) <==> x in m && x != id
    ensures x in IndexAll(m - {id}, splits) ==> IndexAll(m - {id}, splits)[x] == m[x]
  {
    IndexAllAt(m - {id}, splits);
  }

  lemma LeftoverIsPadded(tasks: seq<Task>, id: string, splits: seq<Task>)
    requires forall t :: t in splits ==> Key(t) != id
    ensures id in TasksById(ReplaceTask(tasks, id, splits)) ==> TasksById(ReplaceTask(tasks, id, splits))[id].id != id
  {
    var after := ReplaceTask(tasks, id, splits);
    IndexedTasks(after);
    if id in TasksById(after) {
      InReplacedTasks(tasks, id, splits, TasksById(after)[id]);
    }
  }

  /** An id the overlay list defines after a split, but no index knows, is a leftover. */
  lemma SplitLeftover(s: Standing, id: string, splits: seq<Task>, created: seq<string>, x: string)
    requires Coherent(s) && Trimmed(id) && id in s.rootById && CanAdd(s, id, splits, created)
    requires x in TasksById(ReplaceTask(s.regroupTasks, id, splits)) && x !in IdsOf(splits)
    requires x == id || (x !in s.rootById && x !in s.regroupById)
    ensures Leftover(AfterSplit(s, id, splits, created), x)
  {
    assert x !in created && id !in created by {
      assert ToSet(created) == IdsOf(splits) && id !in IdsOf(splits);
    }
    OthersKeyedOff(s, id, splits, created, x);
    hide Strip, CanAdd;
    ListedAfterReplace(s.regroupOrder, id, created, x);
    if x == id {
      LeftoverIsPadded(s.regroupTasks, id, splits);
    } else {
      ReindexElsewhere(s.regroupTasks, id, splits, x);
    }
  }

  lemma OthersKeyedOff(s: Standing, id: string, splits: seq<Task>, created: seq<string>, x: string)
    requires CanAdd(s, id, splits, created) && x !in IdsOf(splits)
    ensures forall t :: t in splits ==> Key(t) != x
  {
  }

  /** A split of a task that is spelled like its id keeps the indexes coherent with the lists. */
  lemma SplitKeepsCoherent(s: Standing, id: string, splits: seq<Task>, created: seq<string>)
    requires Coherent(s) && Trimmed(id) && id in s.rootById && SpelledAs(s.rootTasks, id)
    requires CanAdd(s, id, splits, created)
    ensures Coherent(AfterSplit(s, id, splits, created))
  {
    var t := AfterSplit(s, id, splits, created);
    IndexedTasks(s.rootTasks);
    ReindexAfterSplit(s.rootTasks, id, splits);
    IndexAllKeyed(s.regroupById - {id}, splits);
    IndexAllKeys(s.rootById - {id}, splits);
    IndexAllKeys(s.regroupById - {id}, splits);
    forall x | x in t.regroupById && x !in t.rootById
      ensures x in TasksById(t.regroupTasks) && TasksById(t.regroupTasks)[x] == t.regroupById[x]
    {
      SplitEntry(s.regroupById, id, splits, x);
      assert forall u :: u in splits ==> Key(u) != x;
      ReindexElsewhere(s.regroupTasks, id, splits, x);
    }
    forall x | x in TasksById(t.regroupTasks) && x !in t.rootById && x !in t.regroupById ensures Leftover(t, x) {
      SplitLeftover(s, id, splits, created, x);
    }
  }

  /** The kept root index is that of the rewritten root list exactly if the split task is spelled
      like the id it is indexed under. */
  lemma SplitCoherentIff(s: Standing, task: Task, splits: seq<Task>, created: seq<string>)
    requires Coherent(s) && task in s.rootTasks && Key(task) != "" && CanAdd(s, task.id, splits, created)
    requires forall t :: t in s.rootTasks && Key(t) == Key(task) ==> t.id == task.id
    ensures AfterSplit(s, task.id, splits, created).rootById == TasksById(AfterSplit(s, task.id, splits, created).rootTasks)
       <==> Trimmed(task.id)
  {
    CoherentSplitIff(s.rootTasks, task, splits);
  }

  /** What a split of a padded task leaves under its stripped id: nothing in the root list, and in
      the overlay list exactly the tasks that are spelled differently; the orders still list it. */
  lemma PaddedSplitLeaves(s: Standing, task: Task, splits: seq<Task>, created: seq<string>)
    requires Coherent(s) && task in s.rootTasks && Key(task) != "" && CanAdd(s, task.id, splits, created)
    requires forall t :: t in s.rootTasks && Key(t) == Key(task) ==> t.id == task.id
    requires !Trimmed(task.id)
    ensures var t, x := AfterSplit(s, task.id, splits, created), Key(task);
      && x !in TasksById(t.rootTasks)
      && (x in TasksById(t.regroupTasks) <==> exists u :: u in s.regroupTasks && Key(u) == x && u.id != task.id)
      && (x in TasksById(t.regroupTasks) ==> TasksById(t.regroupTasks)[x] in s.regroupTasks)
      && (x in Tally(t.regroupOrder) <==> x in Tally(s.regroupOrder))
  {
    var t, x := AfterSplit(s, task.id, splits, created), Key(task);
    IndexedTasks(s.rootTasks);
    assert forall u :: u in splits ==> Key(u) == u.id && u.id != x;
    PaddedSplitForgets(s.rootTasks, task, splits);
    IndexedTasks(t.regroupTasks);
    if x in TasksById(t.regroupTasks) {
      InReplacedTasks(s.regroupTasks, task.id, splits, TasksById(t.regroupTasks)[x]);
    }
    if u :| u in s.regroupTasks && Key(u) == x && u.id != task.id {
      InReplacedTasks(s.regroupTasks, task.id, splits, u);
    }
    assert x !in created by {
      assert x !in ToSet(created);
    }
    ListedAfterReplace(s.regroupOrder, task.id, created, x);
  }

  // ---------------------------------------------------------------- orders that agree

  /** The tallies and lengths of the orders after ids were traded: agreeing, sealed groups as before. */
  ghost predicate Traded(s0: Standing, offset: int, gone: seq<string>, made: seq<string>, root: Order, derived: Order) {
    && Agree(root, derived, offset)
    && |root| == |s0.rootOrder| && |derived| == |s0.regroupOrder|
    && 0 <= offset <= |s0.rootOrder| && root[..offset] == s0.rootOrder[..offset]
    && Tally(root) == Tally(s0.rootOrder) - multiset(gone) + multiset(made)
    && Tally(derived) == Tally(s0.regroupOrder) - multiset(gone) + multiset(made)
  }

  /** The ids the orders list and no index knows. */
  ghost function Undefined(s: Standing): set<string> {
    (set x | x in Tally(s.rootOrder) + Tally(s.regroupOrder)) - AllKeys(s)
  }

  lemma InTailOnly(all: multiset<string>, front: multiset<string>, back: multiset<string>, x: string)
    requires all == front + back && x in back && all[x] <= 1
    ensures x in all && x !in front && back[x] <= 1
  {
  }

  lemma ReplaceInRoot(root: Order, derived: Order, offset: nat, id: string, ids: seq<string>)
    requires Agree(root, derived, offset) && id in Tally(derived)
    ensures id in Tally(root)
    ensures ReplaceInOrder(root, id, ids)[..offset] == root[..offset]
    ensures Tally(ReplaceInOrder(root, id, ids)[offset..]) == Tally(ReplaceInOrder(derived, id, ids))
  {
    TallySplitAt(root, offset);
    assert Tally(root)[id] <= 1;
    InTailOnly(Tally(root), Tally(root[..offset]), Tally(root[offset..]), id);
    ReplaceAbsent(root[..offset], id, ids);
    assert ReplaceInOrder(root, id, ids)[..offset] == ReplaceInOrder(root[..offset], id, ids);
    assert ReplaceInOrder(root, id, ids)[offset..] == ReplaceInOrder(root[offset..], id, ids);
    ReplaceTally(root[offset..], id, ids);
    ReplaceTally(derived, id, ids);
  }

  lemma SplitKeepsAgree(root: Order, derived: Order, offset: int, id: string, ids: seq<string>)
    requires Agree(root, derived, offset) && id in Tally(derived)
    requires NoRepeats(ids) && forall x :: x in ids ==> x !in Tally(root) && x !in Tally(derived)
    ensures Agree(ReplaceInOrder(root, id, ids), ReplaceInOrder(derived, id, ids), offset)
    ensures ReplaceInOrder(root, id, ids)[..offset] == root[..offset]
    ensures Tally(ReplaceInOrder(root, id, ids)) == Tally(root) - multiset{id} + multiset(ids)
    ensures Tally(ReplaceInOrder(derived, id, ids)) == Tally(derived) - multiset{id} + multiset(ids)
  {
    ReplaceInRoot(root, derived, offset, id, ids);
    SplitKeepsDupFreeIff(root, id, ids);
    SplitKeepsDupFreeIff(derived, id, ids);
    ReplaceTally(root, id, ids);
    ReplaceTally(derived, id, ids);
  }

  lemma TradeOne(start: multiset<string>, gone: seq<string>, made: seq<string>, id: string, ids: seq<string>)
    requires id in start - multiset(gone) + multiset(made) && id !in made
    ensures start - multiset(gone) + multiset(made) - multiset{id} + multiset(ids)
         == start - multiset(gone + [id]) + multiset(made + ids)
  {
    assert multiset(gone + [id]) == multiset(gone) + multiset{id};
    assert id !in multiset(made);
  }

  /** One more split keeps the trade, if its ids are not listed yet. */
  lemma SplitKeepsTrade(s0: Standing, offset: int, gone: seq<string>, made: seq<string>, root: Order, derived: Order,
                        id: string, created: seq<string>)
    requires Traded(s0, offset, gone, made, root, derived) && id in Tally(derived) && id !in made
    requires NoRepeats(created) && forall x :: x in created ==> x !in Tally(root) && x !in Tally(derived)
    ensures Traded(s0, offset, gone + [id], made + created, ReplaceInOrder(root, id, created), ReplaceInOrder(derived, id, created))
  {
    SplitKeepsAgree(root, derived, offset, id, created);
    ReplaceInRoot(root, derived, offset, id, created);
    TradeOne(Tally(s0.rootOrder), gone, made, id, created);
    TradeOne(Tally(s0.regroupOrder), gone, made, id, created);
  }

  /** New ids are not listed: what the orders list is indexed, or was undefined from the start. */
  lemma NewIdsAreUnlisted(s0: Standing, gone: seq<string>, made: seq<string>, keys: set<string>, order: Order, start: Order, x: string)
    requires Tally(order) == Tally(start) - multiset(gone) + multiset(made)
    requires DupFree(start) && (start == s0.rootOrder || start == s0.regroupOrder)
    requires keys == AllKeys(s0) - ToSet(gone) + ToSet(made)
    requires x !in keys && x !in Undefined(s0)
    ensures x !in Tally(order)
  {
    assert x in ToSet(made) <==> x in multiset(made);
    assert x in ToSet(gone) <==> x in multiset(gone);
    assert Tally(start)[x] <= 1;
  }

  // ---------------------------------------------------------------- the ledger

  /** The repo paths of an index's tasks. */
  function PathsOf(byId: map<string, Task>): (r: map<string, string>)
    reads byId.Values`repoPath
    ensures r.Keys == byId.Keys
  {
    map x | x in byId :: byId[x].repoPath
  }

  /** The legacy file lists of an index's tasks. */
  function FilesOf(byId: map<string, Task>): (r: map<string, seq<string>>)
    reads byId.Values`files
    ensures r.Keys == byId.Keys
  {
    map x | x in byId :: byId[x].files
  }

  /** The state with the repo paths of both indexes and the legacy files of the root index. */
  datatype Ledger = Ledger(now: Standing, rootRepos: map<string, string>, regroupRepos: map<string, string>,
                           rootFiles: map<string, seq<string>>)

  ghost function LedgerOf(root: Dag, regroup: Dag, rootIndex: TaskIndex, regroupIndex: TaskIndex): (l: Ledger)
    reads root, regroup, rootIndex, regroupIndex, rootIndex.byId.Values, regroupIndex.byId.Values`repoPath
    ensures Full(l)
  {
    Ledger(StandingOf(root, regroup, rootIndex, regroupIndex), PathsOf(rootIndex.byId), PathsOf(regroupIndex.byId),
           FilesOf(rootIndex.byId))
  }

  ghost predicate Full(l: Ledger) {
    && l.rootRepos.Keys == l.rootFiles.Keys == l.now.rootById.Keys
    && l.regroupRepos.Keys == l.now.regroupById.Keys
  }

  /** The task looked at for an id (root first) has no repo identity. */
  ghost predicate LacksBy(l: Ledger, x: string)
    requires Full(l)
  {
    if x in l.now.rootById then IsBlank(l.now.rootById[x].repoId) && IsBlank(l.rootRepos[x])
    else x in l.now.regroupById && IsBlank(l.now.regroupById[x].repoId) && IsBlank(l.regroupRepos[x])
  }

  ghost predicate Keyed(s: Standing) {
    KeyedIndex(s.rootById) && KeyedIndex(s.regroupById)
  }

  function Overwrite(repos: map<string, string>, id: string, repoPath: string): map<string, string> {
    if id in repos then repos[id := repoPath] else repos
  }

  /** Both tasks indexed under the id have the path, and nothing else changed. */
  ghost predicate Assigned(l: Ledger, l': Ledger, id: string, repoPath: string) {
    && l'.now == l.now && l'.rootFiles == l.rootFiles
    && l'.rootRepos == Overwrite(l.rootRepos, id, repoPath)
    && l'.regroupRepos == Overwrite(l.regroupRepos, id, repoPath)
  }

  /** The task spelled `id` was split: the splits stand in its place everywhere, with their own
      paths and the original's repo id, and nothing else changed. */
  ghost predicate SplitOff(l: Ledger, l': Ledger, id: string, repoId: string, splits: seq<Task>,
                           created: seq<string>, repoPaths: map<string, string>) {
    && l'.now == AfterSplit(l.now, id, splits, created)
    && CanAdd(l.now, id, splits, created) && NoRepeats(created) && repoPaths.Keys == IdsOf(splits)
    && (forall t :: t in splits ==> t.repoId == repoId)
    && l'.rootRepos == l.rootRepos - {id} + repoPaths && l'.regroupRepos == l.regroupRepos - {id} + repoPaths
    && (forall x :: x in l.rootFiles && x != id ==> x in l'.rootFiles && l'.rootFiles[x] == l.rootFiles[x])
    && (exists t :: t in l.now.rootTasks && t.id == id)
  }

  /** The scopes of indexed tasks: every path they touch. */
  ghost function Scopes(byId: map<string, Task>, files: map<string, seq<string>>): (r: map<string, set<string>>)
    requires files.Keys == byId.Keys
    ensures r.Keys == byId.Keys
  {
    map x | x in byId :: PathSet(byId[x].fileScope + files[x])
  }
}

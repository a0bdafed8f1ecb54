/** Dropping the legacy file lists of tasks that have a file scope. */
module LegacyFiles {
  import opened Orders
  import opened RepairModel
  import opened TaskSplits
  import opened GroupMoves
  import opened BulkRepair
  import opened RepairBook
  import opened RepairRun

  /** The legacy lists after those of the ids' tasks are dropped. */
  ghost function Cleared(tasks: map<string, Task>, files: map<string, seq<string>>, ids: set<string>): (r: map<string, seq<string>>)
    requires files.Keys == tasks.Keys
    ensures r.Keys == tasks.Keys
  {
    map x | x in tasks :: if x in ids && tasks[x].fileScope != [] then [] else files[x]
  }

  /** The task of an id carries a legacy list beside its file scope. */
  ghost predicate CarriesLegacy(tasks: map<string, Task>, files: map<string, seq<string>>, x: string)
    requires files.Keys == tasks.Keys
  {
    x in tasks && tasks[x].fileScope != [] && files[x] != []
  }

  lemma ClearedMore(tasks: map<string, Task>, files: map<string, seq<string>>, ids: set<string>, x: string)
    requires files.Keys == tasks.Keys
    ensures Cleared(tasks, Cleared(tasks, files, ids), {x}) == Cleared(tasks, files, ids + {x})
    ensures x !in ids ==> (CarriesLegacy(tasks, Cleared(tasks, files, ids), x) <==> CarriesLegacy(tasks, files, x))
    ensures x in ids ==> !CarriesLegacy(tasks, Cleared(tasks, files, ids), x)
  {
  }

  /** One of the two dicts. */
  method ClearFiles(tasks: map<string, Task>, x: string) returns (touched: bool)
    modifies tasks.Values`files
    ensures touched <==> x in tasks && tasks[x].fileScope != [] && old(tasks[x].files) != []
    ensures forall t: Task :: t in tasks.Values ==> t.files == if touched && t == tasks[x] then [] else old(t.files)
  {
    touched := x in tasks && tasks[x].fileScope != [] && tasks[x].files != [];
    if touched {
      tasks[x].files := [];
    }
  }

  /** Both dicts, task by task. */
  method ClearTasks(rootTasks: map<string, Task>, regroupTasks: map<string, Task>, x: string) returns (touched: bool)
    requires Separate(rootTasks, regroupTasks)
    modifies rootTasks.Values`files, regroupTasks.Values`files
    ensures touched <==>
              || (x in rootTasks && rootTasks[x].fileScope != [] && old(rootTasks[x].files) != [])
              || (x in regroupTasks && regroupTasks[x].fileScope != [] && old(regroupTasks[x].files) != [])
    ensures forall k :: k in rootTasks ==>
              rootTasks[k].files == if k == x && rootTasks[k].fileScope != [] then [] else old(rootTasks[k].files)
    ensures forall k :: k in regroupTasks ==>
              regroupTasks[k].files == if k == x && regroupTasks[k].fileScope != [] then [] else old(regroupTasks[k].files)
  {
    var inRoot := ClearFiles(rootTasks, x);
    var inRegroup := ClearFiles(regroupTasks, x);
    touched := inRoot || inRegroup;
  }

  lemma ClearsFiles(tasks: map<string, Task>, before: map<string, seq<string>>, x: string)
    requires before.Keys == tasks.Keys
    requires forall k :: k in tasks ==> tasks[k].files == if k == x && tasks[k].fileScope != [] then [] else before[k]
    ensures FilesOf(tasks) == Cleared(tasks, before, {x})
  {
  }

  method ClearBoth(rootTasks: map<string, Task>, regroupTasks: map<string, Task>, x: string) returns (touched: bool)
    requires Separate(rootTasks, regroupTasks)
    modifies rootTasks.Values`files, regroupTasks.Values`files
    ensures touched <==>
              CarriesLegacy(rootTasks, old(FilesOf(rootTasks)), x) || CarriesLegacy(regroupTasks, old(FilesOf(regroupTasks)), x)
    ensures FilesOf(rootTasks) == Cleared(rootTasks, old(FilesOf(rootTasks)), {x})
    ensures FilesOf(regroupTasks) == Cleared(regroupTasks, old(FilesOf(regroupTasks)), {x})
  {
    ghost var before, regroupBefore := FilesOf(rootTasks), FilesOf(regroupTasks);
    touched := ClearTasks(rootTasks, regroupTasks, x);
    ClearsFiles(rootTasks, before, x);
    ClearsFiles(regroupTasks, regroupBefore, x);
  }

  /** The ids changed so far. */
  ghost predicate ChangedOf(rootTasks: map<string, Task>, rootFiles: map<string, seq<string>>, regroupTasks: map<string, Task>,
                            regroupFiles: map<string, seq<string>>, ids: set<string>, changed: set<string>)
    requires rootFiles.Keys == rootTasks.Keys && regroupFiles.Keys == regroupTasks.Keys
  {
    forall x :: x in changed <==>
      x in ids && (CarriesLegacy(rootTasks, rootFiles, x) || CarriesLegacy(regroupTasks, regroupFiles, x))
  }

  lemma ChangedMore(rootTasks: map<string, Task>, rootFiles: map<string, seq<string>>, regroupTasks: map<string, Task>,
                    regroupFiles: map<string, seq<string>>, ids: set<string>, changed: set<string>, x: string, touched: bool)
    requires rootFiles.Keys == rootTasks.Keys && regroupFiles.Keys == regroupTasks.Keys
    requires ChangedOf(rootTasks, rootFiles, regroupTasks, regroupFiles, ids, changed)
    requires touched <==> CarriesLegacy(rootTasks, Cleared(rootTasks, rootFiles, ids), x)
                          || CarriesLegacy(regroupTasks, Cleared(regroupTasks, regroupFiles, ids), x)
    ensures ChangedOf(rootTasks, rootFiles, regroupTasks, regroupFiles, ids + {x}, if touched then changed + {x} else changed)
  {
    ClearedMore(rootTasks, rootFiles, ids, x);
    ClearedMore(regroupTasks, regroupFiles, ids, x);
  }

  method ClearIds(rootTasks: map<string, Task>, regroupTasks: map<string, Task>, ids: seq<string>) returns (changed: set<string>)
    requires Separate(rootTasks, regroupTasks)
    modifies rootTasks.Values`files, regroupTasks.Values`files
    ensures FilesOf(rootTasks) == Cleared(rootTasks, old(FilesOf(rootTasks)), ToSet(ids))
    ensures FilesOf(regroupTasks) == Cleared(regroupTasks, old(FilesOf(regroupTasks)), ToSet(ids))
    ensures ChangedOf(rootTasks, old(FilesOf(rootTasks)), regroupTasks, old(FilesOf(regroupTasks)), ToSet(ids), changed)
  {
    changed := {};
    ghost var rootFiles, regroupFiles := FilesOf(rootTasks), FilesOf(regroupTasks);
    ghost var done: set<string> := {};
    for i := 0 to |ids|
      invariant done == ToSet(ids[..i])
      invariant FilesOf(rootTasks) == Cleared(rootTasks, rootFiles, done)
      invariant FilesOf(regroupTasks) == Cleared(regroupTasks, regroupFiles, done)
      invariant ChangedOf(rootTasks, rootFiles, regroupTasks, regroupFiles, done, changed)
    {
      assert ToSet(ids[..i + 1]) == ToSet(ids[..i]) + {ids[i]};
      hide *;
      ClearedMore(rootTasks, rootFiles, done, ids[i]);
      ClearedMore(regroupTasks, regroupFiles, done, ids[i]);
      var touched := ClearBoth(rootTasks, regroupTasks, ids[i]);
      ChangedMore(rootTasks, rootFiles, regroupTasks, regroupFiles, done, changed, ids[i], touched);
      if touched {
        changed := changed + {ids[i]};
      }
      done := done + {ids[i]};
    }
    assert ids[..|ids|] == ids;
  }

  /** The ids the groups in range list. */
  ghost function ListedIds(order: Order, range: Range): (ids: set<string>)
    ensures forall x :: x in ids <==> ListedInRange(order, x, range)
  {
    forall x | ListedInRange(order, x, range) ensures x in Tally(order) {
      InTally(order, x);
    }
    set x | x in Tally(order) && ListedInRange(order, x, range)
  }

  /** `_normalize_legacy_files_for_group_range`: every indexed task of an in-range group that has
      a file scope loses its legacy file list, and no other task does. */
  method NormalizeLegacyFiles(rootTasks: map<string, Task>, regroupTasks: map<string, Task>, order: Order, range: Range)
    returns (changed: set<string>)
    requires Separate(rootTasks, regroupTasks)
    modifies rootTasks.Values`files, regroupTasks.Values`files
    ensures FilesOf(rootTasks) == Cleared(rootTasks, old(FilesOf(rootTasks)), ListedIds(order, range))
    ensures FilesOf(regroupTasks) == Cleared(regroupTasks, old(FilesOf(regroupTasks)), ListedIds(order, range))
    ensures ChangedOf(rootTasks, old(FilesOf(rootTasks)), regroupTasks, old(FilesOf(regroupTasks)), ListedIds(order, range), changed)
  {
    var ids := IdsInRange(order, range);
    assert ToSet(ids) == ListedIds(order, range);
    hide *;
    changed := ClearIds(rootTasks, regroupTasks, ids);
  }

  method IdsInRange(order: Order, range: Range) returns (ids: seq<string>)
    ensures forall x :: x in ids <==> ListedInRange(order, x, range)
  {
    ids := [];
    for k := 0 to |order|
      invariant forall x :: x in ids <==> ListedInRange(order[..k], x, range)
    {
      forall x {
        ListedSnoc(order[..k], order[k], x, range);
      }
      assert order[..k + 1] == order[..k] + [order[k]];
      if range.first <= range.offset + k <= range.last {
        ids := ids + order[k];
      }
    }
    assert order[..|order|] == order;
  }
}

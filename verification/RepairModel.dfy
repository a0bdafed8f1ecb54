/** The linked structures the repair rewrites: tasks (shared by reference between a DAG and
    its id index), DAGs, id indexes, reviews, repositories and blockers. */
module RepairModel {
  import opened Text
  import opened Wrappers
  import opened Orders

  class Task {
    const id: string
    const name: Option<string>
    const repoId: string
    const dependencies: seq<string>
    const fileScope: seq<string>  // the path of every file-scope entry
    var files: seq<string>        // the legacy file list
    var repoPath: string

    constructor (id: string, name: Option<string>, repoId: string, dependencies: seq<string>, fileScope: seq<string>,
                 files: seq<string>, repoPath: string)
      ensures this.id == id && this.name == name && this.repoId == repoId
      ensures this.dependencies == dependencies && this.fileScope == fileScope
      ensures this.files == files && this.repoPath == repoPath
    {
      this.id, this.name, this.repoId := id, name, repoId;
      this.dependencies, this.fileScope := dependencies, fileScope;
      this.files, this.repoPath := files, repoPath;
    }

    /** `_task_has_repo_identity`. */
    predicate HasIdentity()
      reads this
    {
      Strip(repoId) != "" || Strip(repoPath) != ""
    }

    /** `_task_path_examples`, as a set. */
    function Paths(): set<string>
      reads this`files
    {
      PathSet(fileScope + files)
    }
  }

  function PathSet(paths: seq<string>): set<string> {
    set p | p in paths && Strip(p) != "" :: Strip(p)
  }

  class Dag {
    var tasks: seq<Task>
    var order: Order

    constructor (tasks: seq<Task>, order: Order)
      ensures this.tasks == tasks && this.order == order
    {
      this.tasks, this.order := tasks, order;
    }
  }

  class TaskIndex {
    var byId: map<string, Task>

    constructor (byId: map<string, Task>)
      ensures this.byId == byId
    {
      this.byId := byId;
    }

    /** Pops an id and adds tasks under theirs, as a split does to each index. */
    method Replace(id: string, added: seq<Task>)
      modifies this`byId
      ensures byId == IndexAll(old(byId) - {id}, added)
    {
      byId := byId - {id};
      for i := 0 to |added|
        invariant byId == IndexAll(old(byId) - {id}, added[..i])
      {
        assert added[..i + 1][..i] == added[..i];
        byId := byId[added[i].id := added[i]];
      }
      assert added[..|added|] == added;
    }
  }

  /** A reviewed replacement task of a cross-repo split. */
  datatype SplitSpec = SplitSpec(taskId: string, repoPath: string, paths: seq<string>, name: string)

  datatype Review = Review(
    taskId: string,
    repoPath: string,
    override: bool,
    splitTasks: seq<SplitSpec>,
    target: Option<int>,
    blocker: bool,
    reviewerId: string,
    evidencePaths: seq<string>,
    confidence: real)

  datatype Repo = Repo(workspaceRelativePath: string, repoPath: string, claimedTaskIds: set<string>)

  datatype Blocker = Blocker(code: string, taskId: string)

  // ---------------------------------------------------------------- repo paths

  predicate IsSlash(c: char) {
    c == '/'
  }

  /** `_normalize_repo_path`. */
  function NormalizeRepoPath(value: string): (r: string)
  {
    var text := Trim(ReplaceChar(Strip(value), '\\', '/'), IsSlash);
    if text == "" || text == "." || text[0] == '~' then ""
    else if ':' in Split(text, '/')[0] then ""
    else if exists part :: part in Split(text, '/') && part in {"", ".", ".."} then ""
    else text
  }

  function RepoPathOf(repo: Repo): string {
    var path := NormalizeRepoPath(repo.workspaceRelativePath);
    if path != "" then path else NormalizeRepoPath(repo.repoPath)
  }

  /** `_known_repo_paths`. */
  function KnownRepoPaths(repos: seq<Repo>): (r: set<string>)
    ensures "" !in r
  {
    set i | 0 <= i < |repos| && RepoPathOf(repos[i]) != "" :: RepoPathOf(repos[i])
  }

  predicate PathInRepo(path: string, repoPath: string) {
    Within(PathText(path), repoPath)
  }

  /** A path with forward slashes, without spaces and slashes around it. */
  function PathText(path: string): string {
    Trim(Strip(ReplaceChar(path, '\\', '/')), IsSlash)
  }

  predicate Within(text: string, repoPath: string) {
    text == repoPath || repoPath + "/" <= text
  }

  /** A text lies within a repo path exactly if its parts begin with those of the repo path. */
  lemma {:induction false} WithinByParts(text: string, repoPath: string)
    ensures Within(text, repoPath) <==> Split(repoPath, '/') <= Split(text, '/')
  {
    hide Split;
    if repoPath == "" {
      PartsOf(repoPath, '/');
      PartsOf(text, '/');
      PrefixByHead([], Split(text, '/')[1..], "", Split(text, '/')[0]);
    } else if text != "" && text[0] == repoPath[0] {
      WithinByParts(text[1..], repoPath[1..]);
      WithinTail(text, repoPath);
      SameHead(text, repoPath);
    } else {
      OtherHead(text, repoPath);
    }
  }

  lemma WithinTail(text: string, repoPath: string)
    requires text != "" && repoPath != "" && text[0] == repoPath[0]
    ensures Within(text, repoPath) <==> Within(text[1..], repoPath[1..])
  {
    assert text == [text[0]] + text[1..] && repoPath == [repoPath[0]] + repoPath[1..];
    assert repoPath + "/" == [repoPath[0]] + (repoPath[1..] + "/");
  }

  /** The first part is empty, or starts with the text; the other parts are those of the rest. */
  lemma PartsOf(s: string, sep: char)
    ensures s == "" ==> Split(s, sep) == [""]
    ensures s != "" && s[0] == sep ==> Split(s, sep) == [""] + Split(s[1..], sep)
    ensures s != "" && s[0] != sep ==> Split(s, sep) == [[s[0]] + Split(s[1..], sep)[0]] + Split(s[1..], sep)[1..]
    ensures Split(s, sep) == [Split(s, sep)[0]] + Split(s, sep)[1..]
  {
  }

  lemma PrefixByHead(b: seq<string>, a: seq<string>, y: string, x: string)
    ensures [y] + b <= [x] + a <==> y == x && b <= a
  {
    assert ([y] + b)[0] == y && ([y] + b)[1..] == b && ([x] + a)[0] == x && ([x] + a)[1..] == a;
  }

  lemma SameHead(s: string, t: string)
    requires s != "" && t != "" && s[0] == t[0]
    ensures Split(t, '/') <= Split(s, '/') <==> Split(t[1..], '/') <= Split(s[1..], '/')
  {
    hide Split;
    var a, b := Split(s[1..], '/'), Split(t[1..], '/');
    PartsOf(s, '/');
    PartsOf(t, '/');
    if s[0] == '/' {
      PrefixByHead(b, a, "", "");
    } else {
      PartsOf(s[1..], '/');
      PartsOf(t[1..], '/');
      PrefixByHead(b[1..], a[1..], b[0], a[0]);
      PrefixByHead(b[1..], a[1..], [s[0]] + b[0], [s[0]] + a[0]);
      assert ([s[0]] + a[0])[1..] == a[0] && ([s[0]] + b[0])[1..] == b[0];
    }
  }

  lemma OtherHead(s: string, t: string)
    requires t != "" && (s == "" || s[0] != t[0])
    ensures !(Split(t, '/') <= Split(s, '/')) && !Within(s, t)
  {
    hide Split;
    PartsOf(s, '/');
    PartsOf(t, '/');
    PrefixByHead(Split(t, '/')[1..], Split(s, '/')[1..], Split(t, '/')[0], Split(s, '/')[0]);
    assert (t + "/")[0] == t[0];
  }

  /** What a repo path may be: relative, without a drive, a home or a step up or aside. */
  ghost predicate GoodPath(t: string) {
    && t != "" && '\\' !in t && t[0] != '~' && ':' !in Split(t, '/')[0]
    && forall part :: part in Split(t, '/') ==> part !in {"", ".", ".."}
  }

  lemma {:induction false} LastIsEmpty(s: string)
    requires s != "" && s[|s| - 1] == '/'
    ensures |Split(s, '/')| > 1 && Split(s, '/')[|Split(s, '/')| - 1] == ""
  {
    hide Split;
    PartsOf(s, '/');
    if |s| > 1 {
      LastIsEmpty(s[1..]);
    } else {
      PartsOf(s[1..], '/');
    }
  }

  lemma GoodEnds(t: string)
    requires GoodPath(t)
    ensures t[0] != '/' && t[|t| - 1] != '/' && t != "."
  {
    PartsOf(t, '/');
    var parts := Split(t, '/');
    assert parts[0] in parts && parts[|parts| - 1] in parts;
    if t[|t| - 1] == '/' {
      LastIsEmpty(t);
    }
    PartsOf(t[1..], '/');
    assert "."[1..] == "" && "."[0] == '.';
  }

  /** A good path is what is left of any value that spells it, with either slash, between slashes
      and within spaces. */
  lemma NormalizeIs(value: string, before: string, t: string, after: string)
    requires ReplaceChar(Strip(value), '\\', '/') == before + t + after && GoodPath(t)
    requires AllDropped(before, IsSlash) && AllDropped(after, IsSlash)
    ensures NormalizeRepoPath(value) == t
  {
    GoodEnds(t);
    TrimIs(before, t, after, IsSlash);
  }

  /** And nothing else is: what is left, if anything, is a good path that the value spells. */
  lemma NormalizedIsGood(value: string) returns (before: string, after: string)
    requires NormalizeRepoPath(value) != ""
    ensures GoodPath(NormalizeRepoPath(value)) && AllDropped(before, IsSlash) && AllDropped(after, IsSlash)
    ensures ReplaceChar(Strip(value), '\\', '/') == before + NormalizeRepoPath(value) + after
  {
    var text := ReplaceChar(Strip(value), '\\', '/');
    before, after := TrimTakesOff(text, IsSlash);
    var t := NormalizeRepoPath(value);
    forall i | 0 <= i < |t| ensures t[i] != '\\' {
      assert t[i] == text[|before| + i];
    }
  }

  /** The repositories whose path prefixes some path of the task. */
  function MatchingRepoPaths(paths: set<string>, repos: seq<Repo>): set<string> {
    set i, p | 0 <= i < |repos| && p in paths && RepoPathOf(repos[i]) != "" && PathInRepo(p, RepoPathOf(repos[i]))
      :: RepoPathOf(repos[i])
  }

  /** A registry path of one space between two slashes is accepted as a known repo path: only
      the outer text is stripped before the slashes come off. */
  lemma BlankRepoPathIsKnown()
    ensures NormalizeRepoPath("/ /") == " "
    ensures " " in KnownRepoPaths([Repo("/ /", "", {})])
  {
    assert Strip("/ /") == "/ /";
    assert ReplaceChar("/ /", '\\', '/') == "/ /";
    var slash := IsSlash;
    assert TrimLeft("/ /", slash) == " /" by {
      assert "/ /"[1..] == " /";
      assert TrimLeft("/ /"[1..], slash) == " /";
    }
    assert " /"[..1] == " ";
    assert TrimRight(" /", slash) == TrimRight(" ", slash) == " ";
    assert Split(" ", '/') == [" "] by {
      assert " "[1..] == "";
    }
    var repos := [Repo("/ /", "", {})];
    assert RepoPathOf(repos[0]) == " ";
  }

  // ---------------------------------------------------------------- the id index

  /** The id under which a task is indexed. */
  function Key(task: Task): string {
    Strip(task.id)
  }

  /** `_tasks_by_id`: nameless tasks are skipped, the last of equal ids wins. */
  function TasksById(tasks: seq<Task>): map<string, Task> {
    if tasks == [] then map[]
    else
      var last := tasks[|tasks| - 1];
      var rest := TasksById(tasks[..|tasks| - 1]);
      if Key(last) == "" then rest else rest[Key(last) := last]
  }

  lemma {:induction false} IndexedTasks(tasks: seq<Task>)
    ensures forall k :: k in TasksById(tasks) ==> TasksById(tasks)[k] in tasks && Key(TasksById(tasks)[k]) == k && k != ""
    ensures forall t :: t in tasks && Key(t) != "" ==> Key(t) in TasksById(tasks)
  {
    if tasks != [] {
      IndexedTasks(tasks[..|tasks| - 1]);
      assert tasks == tasks[..|tasks| - 1] + [tasks[|tasks| - 1]];
    }
  }

  /** The last of the tasks under an id is the one indexed. */
  lemma {:induction false} IndexedLast(tasks: seq<Task>, i: nat)
    requires i < |tasks| && Key(tasks[i]) != "" && forall j :: i < j < |tasks| ==> Key(tasks[j]) != Key(tasks[i])
    ensures Key(tasks[i]) in TasksById(tasks) && TasksById(tasks)[Key(tasks[i])] == tasks[i]
  {
    hide Key;
    var n := |tasks| - 1;
    if i < n {
      assert tasks[..n][i] == tasks[i];
      IndexedLast(tasks[..n], i);
    }
  }

  /** Adding split tasks to an index, one by one. */
  function IndexAll(byId: map<string, Task>, added: seq<Task>): map<string, Task> {
    if added == [] then byId
    else
      var last := added[|added| - 1];
      IndexAll(byId, added[..|added| - 1])[last.id := last]
  }

  ghost predicate DistinctIds(tasks: seq<Task>) {
    forall i, j :: 0 <= i < j < |tasks| ==> tasks[i].id != tasks[j].id
  }

  lemma {:induction false} IndexAllAt(byId: map<string, Task>, added: seq<Task>)
    requires DistinctIds(added)
    ensures var r := IndexAll(byId, added);
      && (forall k :: k in r <==> k in byId || exists t :: t in added && t.id == k)
      && (forall i :: 0 <= i < |added| ==> added[i].id in r && r[added[i].id] == added[i])
      && (forall k :: k in byId && (forall t :: t in added ==> t.id != k) ==> r[k] == byId[k])
  {
    if added != [] {
      var n := |added| - 1;
      IndexAllAt(byId, added[..n]);
      assert added == added[..n] + [added[n]];
      var r := IndexAll(byId, added);
      forall i | 0 <= i < |added| ensures added[i].id in r && r[added[i].id] == added[i] {
        if i < n {
          assert added[..n][i] == added[i];
        }
      }
      forall k | k in r ensures k in byId || exists t :: t in added && t.id == k {
        if k != added[n].id && k !in byId {
          var t :| t in added[..n] && t.id == k;
          assert t in added;
        }
      }
    }
  }

  function ReplaceTask(tasks: seq<Task>, id: string, splits: seq<Task>): seq<Task> {
    if tasks == [] then []
    else
      var last := tasks[|tasks| - 1];
      ReplaceTask(tasks[..|tasks| - 1], id, splits) + if last.id == id then splits else [last]
  }

  lemma {:induction false} ReplaceTaskConcat(a: seq<Task>, b: seq<Task>, id: string, splits: seq<Task>)
    ensures ReplaceTask(a + b, id, splits) == ReplaceTask(a, id, splits) + ReplaceTask(b, id, splits)
  {
    if b == [] {
      assert a + b == a;
    } else {
      var n := |b| - 1;
      assert a + b == (a + b[..n]) + [b[n]] && b == b[..n] + [b[n]];
      ReplaceTaskConcat(a, b[..n], id, splits);
      ReplaceTaskSnoc(a + b[..n], b[n], id, splits);
      ReplaceTaskSnoc(b[..n], b[n], id, splits);
      hide ReplaceTask;
    }
  }

  lemma {:induction false} ReplaceNoTask(tasks: seq<Task>, id: string, splits: seq<Task>)
    requires forall t :: t in tasks ==> t.id != id
    ensures ReplaceTask(tasks, id, splits) == tasks
  {
    if tasks != [] {
      ReplaceNoTask(tasks[..|tasks| - 1], id, splits);
    }
  }

  /** The split tasks stand where their original stood, and every other task stays in its place. */
  lemma TasksStandInPlace(tasks: seq<Task>, i: nat, id: string, splits: seq<Task>)
    requires i < |tasks| && tasks[i].id == id && forall j :: 0 <= j < |tasks| && j != i ==> tasks[j].id != id
    ensures ReplaceTask(tasks, id, splits) == tasks[..i] + splits + tasks[i + 1..]
  {
    var none: seq<Task> := [];
    assert tasks == tasks[..i] + [tasks[i]] + tasks[i + 1..] && [tasks[i]][..0] == none;
    ReplaceTaskConcat(tasks[..i] + [tasks[i]], tasks[i + 1..], id, splits);
    ReplaceTaskConcat(tasks[..i], [tasks[i]], id, splits);
    ReplaceNoTask(tasks[..i], id, splits);
    ReplaceNoTask(tasks[i + 1..], id, splits);
  }

  lemma {:induction false} InReplacedTasks(tasks: seq<Task>, id: string, splits: seq<Task>, t: Task)
    ensures t in ReplaceTask(tasks, id, splits)
       <==> (t in tasks && t.id != id) || (t in splits && exists u :: u in tasks && u.id == id)
  {
    if tasks != [] {
      var n := |tasks| - 1;
      assert tasks == tasks[..n] + [tasks[n]];
      InReplacedTasks(tasks[..n], id, splits, t);
      if u :| u in tasks[..n] && u.id == id {
        assert u in tasks;
      }
      assert tasks[n] in tasks;
    }
  }

  lemma {:induction false} IndexConcat(a: seq<Task>, b: seq<Task>)
    requires forall t :: t in b ==> Trimmed(t.id) && t.id != ""
    ensures TasksById(a + b) == IndexAll(TasksById(a), b)
  {
    if b == [] {
      assert a + b == a;
    } else {
      var n := |b| - 1;
      assert (a + b)[..|a + b| - 1] == a + b[..n];
      IndexConcat(a, b[..n]);
    }
  }

  lemma AddAgain(byId: map<string, Task>, added: seq<Task>)
    requires DistinctIds(added)
    ensures IndexAll(IndexAll(byId, added), added) == IndexAll(byId, added)
  {
    IndexAllAt(byId, added);
    IndexAllAt(IndexAll(byId, added), added);
  }

  lemma AddCommutes(byId: map<string, Task>, added: seq<Task>, k: string, t: Task)
    requires DistinctIds(added) && forall u :: u in added ==> u.id != k
    ensures IndexAll(byId, added)[k := t] == IndexAll(byId[k := t], added)
  {
    IndexAllAt(byId, added);
    IndexAllAt(byId[k := t], added);
  }

  lemma TasksByIdSnoc(tasks: seq<Task>, t: Task)
    ensures TasksById(tasks + [t]) == if Key(t) == "" then TasksById(tasks) else TasksById(tasks)[Key(t) := t]
  {
    assert (tasks + [t])[..|tasks|] == tasks;
  }

  /** Every task indexed under the id is spelled like it. */
  ghost predicate SpelledAs(tasks: seq<Task>, id: string) {
    forall t :: t in tasks && Key(t) == id ==> t.id == id
  }

  /** Split tasks that can be added to an index: named, stripped, pairwise different, not indexed yet. */
  ghost predicate NewTasks(splits: seq<Task>, byId: map<string, Task>) {
    DistinctIds(splits) && forall t :: t in splits ==> Trimmed(t.id) && t.id != "" && t.id !in byId
  }

  /** Coherence of a split: re-indexing the rewritten task list gives the index that was kept
      by popping the original and adding the splits. */
  lemma {:induction false} ReindexAfterSplit(tasks: seq<Task>, id: string, splits: seq<Task>)
    requires SpelledAs(tasks, id) && Trimmed(id) && id != ""
    requires NewTasks(splits, TasksById(tasks))
    ensures TasksById(ReplaceTask(tasks, id, splits))
         == if id in TasksById(tasks) then IndexAll(TasksById(tasks) - {id}, splits) else TasksById(tasks)
  {
    if tasks != [] {
      var n := |tasks| - 1;
      assert tasks == tasks[..n] + [tasks[n]];
      assert tasks[n] in tasks;
      TasksByIdSnoc(tasks[..n], tasks[n]);
      ReindexAfterSplit(tasks[..n], id, splits);
      ReindexStep(tasks[..n], tasks[n], id, splits);
    }
  }

  lemma ReindexStep(tasks: seq<Task>, last: Task, id: string, splits: seq<Task>)
    requires (Key(last) == id <==> last.id == id) && id != ""
    requires NewTasks(splits, TasksById(tasks + [last]))
    requires TasksById(ReplaceTask(tasks, id, splits))
          == if id in TasksById(tasks) then IndexAll(TasksById(tasks) - {id}, splits) else TasksById(tasks)
    ensures TasksById(ReplaceTask(tasks + [last], id, splits))
         == if id in TasksById(tasks + [last]) then IndexAll(TasksById(tasks + [last]) - {id}, splits)
            else TasksById(tasks + [last])
  {
    ReplaceTaskSnoc(tasks, last, id, splits);
    TasksByIdSnoc(tasks, last);
    if last.id == id {
      IndexConcat(ReplaceTask(tasks, id, splits), splits);
      StepAtTheSplit(TasksById(tasks), TasksById(ReplaceTask(tasks, id, splits)), id, last, splits);
    } else {
      TasksByIdSnoc(ReplaceTask(tasks, id, splits), last);
      if Key(last) != "" {
        StepElsewhere(TasksById(tasks), TasksById(ReplaceTask(tasks, id, splits)), id, Key(last), last, splits);
      }
    }
  }

  /** Rewriting a list leaves the index entries of all other ids alone, whatever is spelled how. */
  lemma {:induction false} ReindexElsewhere(tasks: seq<Task>, id: string, splits: seq<Task>, x: string)
    requires x != Strip(id) && forall t :: t in splits ==> Key(t) != x
    ensures x in TasksById(ReplaceTask(tasks, id, splits)) <==> x in TasksById(tasks)
    ensures x in TasksById(tasks) ==> TasksById(ReplaceTask(tasks, id, splits))[x] == TasksById(tasks)[x]
  {
    if tasks != [] {
      var n := |tasks| - 1;
      assert tasks == tasks[..n] + [tasks[n]];
      ReindexElsewhere(tasks[..n], id, splits, x);
      ReplaceTaskSnoc(tasks[..n], tasks[n], id, splits);
      TasksByIdSnoc(tasks[..n], tasks[n]);
      if tasks[n].id == id {
        AddedElsewhere(ReplaceTask(tasks[..n], id, splits), splits, x);
      } else {
        TasksByIdSnoc(ReplaceTask(tasks[..n], id, splits), tasks[n]);
      }
    }
  }

  lemma {:induction false} AddedElsewhere(tasks: seq<Task>, added: seq<Task>, x: string)
    requires forall t :: t in added ==> Key(t) != x
    ensures x in TasksById(tasks + added) <==> x in TasksById(tasks)
    ensures x in TasksById(tasks) ==> TasksById(tasks + added)[x] == TasksById(tasks)[x]
  {
    if added == [] {
      assert tasks + added == tasks;
    } else {
      var n := |added| - 1;
      AddedElsewhere(tasks, added[..n], x);
      assert tasks + added == (tasks + added[..n]) + [added[n]];
      assert added[n] in added;
      AddedOneElsewhere(tasks + added[..n], added[n], x);
    }
  }

  lemma AddedOneElsewhere(tasks: seq<Task>, t: Task, x: string)
    requires Key(t) != x
    ensures x in TasksById(tasks + [t]) <==> x in TasksById(tasks)
    ensures x in TasksById(tasks) ==> TasksById(tasks + [t])[x] == TasksById(tasks)[x]
  {
    TasksByIdSnoc(tasks, t);
  }

  /** The kept index matches the re-indexed list after a split if and only if the split task is
      spelled like the id it is indexed under. */
  lemma CoherentSplitIff(tasks: seq<Task>, task: Task, splits: seq<Task>)
    requires task in tasks && Key(task) != "" && NewTasks(splits, TasksById(tasks))
    requires forall t :: t in tasks && Key(t) == Key(task) ==> t.id == task.id
    ensures TasksById(ReplaceTask(tasks, task.id, splits)) == IndexAll(TasksById(tasks) - {task.id}, splits)
       <==> Trimmed(task.id)
  {
    IndexedTasks(tasks);
    if Trimmed(task.id) {
      ReindexAfterSplit(tasks, task.id, splits);
    } else {
      PaddedSplitForgets(tasks, task, splits);
      StaysIndexed(TasksById(tasks), task.id, splits, Key(task));
    }
  }

  lemma {:induction false} StaysIndexed(byId: map<string, Task>, id: string, added: seq<Task>, x: string)
    requires x in byId && x != id
    ensures x in IndexAll(byId - {id}, added)
  {
    if added != [] {
      StaysIndexed(byId, id, added[..|added| - 1], x);
    }
  }

  lemma PaddedSplitForgets(tasks: seq<Task>, task: Task, splits: seq<Task>)
    requires forall t :: t in tasks && Key(t) == Key(task) ==> t.id == task.id
    requires Key(task) in TasksById(tasks) && NewTasks(splits, TasksById(tasks))
    ensures Key(task) !in TasksById(ReplaceTask(tasks, task.id, splits))
  {
    var k, after := Key(task), ReplaceTask(tasks, task.id, splits);
    IndexedTasks(after);
    if k in TasksById(after) {
      var t := TasksById(after)[k];
      InReplacedTasks(tasks, task.id, splits, t);
    }
  }

  lemma ReplaceTaskSnoc(tasks: seq<Task>, last: Task, id: string, splits: seq<Task>)
    ensures ReplaceTask(tasks + [last], id, splits)
         == ReplaceTask(tasks, id, splits) + if last.id == id then splits else [last]
  {
    assert (tasks + [last])[..|tasks|] == tasks;
  }

  lemma StepAtTheSplit(m: map<string, Task>, r: map<string, Task>, id: string, last: Task, splits: seq<Task>)
    requires DistinctIds(splits)
    requires r == if id in m then IndexAll(m - {id}, splits) else m
    ensures IndexAll(r, splits) == IndexAll(m[id := last] - {id}, splits)
  {
    assert m[id := last] - {id} == m - {id};
    if id in m {
      AddAgain(m - {id}, splits);
    } else {
      assert m - {id} == m;
    }
  }

  lemma StepElsewhere(m: map<string, Task>, r: map<string, Task>, id: string, k: string, last: Task, splits: seq<Task>)
    requires DistinctIds(splits) && k != id && forall t :: t in splits ==> t.id != k
    requires r == if id in m then IndexAll(m - {id}, splits) else m
    ensures r[k := last] == if id in m then IndexAll(m[k := last] - {id}, splits) else m[k := last]
  {
    if id in m {
      AddCommutes(m - {id}, splits, k, last);
      assert m[k := last] - {id} == (m - {id})[k := last];
    }
  }
}

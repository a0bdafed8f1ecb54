/** Inputs on which the repair does not keep what it is meant to keep. Each is an accepted split
    of a task over the paths "x" and "y" into "B" and "C", or a plan that fails its own rescan. */
module RepairExamples {
  import opened Text
  import opened Wrappers
  import opened Orders
  import opened RepairModel
  import opened TaskSplits
  import opened GroupMoves
  import opened RegroupOverlay
  import opened BulkRepair
  import opened RepairBook
  import opened RepairRun
  import opened RepairJob
  import opened RepairCourse
  import opened RepairCopies
  import opened RepairPlan

  // ---------------------------------------------------------------- an acceptable split

  const INTO_TWO := [SplitSpec("B", "r", ["x"], ""), SplitSpec("C", "r", ["y"], "")]

  ghost predicate OverTwoPaths(task: Task)
    reads task
  {
    task.fileScope == ["x", "y"] && task.files == []
  }

  lemma IntoTwoPaths(task: Task)
    requires OverTwoPaths(task)
    ensures task.Paths() == {"x", "y"} == SelectedPaths(INTO_TWO)
  {
    var paths, specs := ["x", "y"], INTO_TWO;
    assert Strip("x") == "x" && Strip("y") == "y";
    hide Strip;
    assert task.fileScope + task.files == paths && paths[0] == "x" && paths[1] == "y";
    assert "x" in specs[0].paths && "y" in specs[1].paths;
  }

  lemma IntoTwoIds()
    ensures SplitIds(INTO_TWO) == ["B", "C"] && SplitId(INTO_TWO[0]) == "B" && SplitId(INTO_TWO[1]) == "C"
  {
    assert Strip("B") == "B" && Strip("C") == "C";
    hide Strip;
  }

  lemma IntoTwoIsUsable(existing: set<string>, known: set<string>)
    requires NormalizeRepoPath("r") in known && "B" !in existing && "C" !in existing
    ensures AllUsable(INTO_TWO, |INTO_TWO|, existing, known, {"x", "y"})
  {
    hide Strip, NormalizeRepoPath, SplitId;
    IntoTwoIds();
    assert SpecUsable(INTO_TWO, 0, existing, known, {"x", "y"});
    assert SpecUsable(INTO_TWO, 1, existing, known, {"x", "y"});
  }

  lemma IntoTwoIsAcceptable(tasks: seq<Task>, task: Task, existing: set<string>, known: set<string>)
    requires !HasDownstream(tasks, task.id) && OverTwoPaths(task)
    requires NormalizeRepoPath("r") in known && "B" !in existing && "C" !in existing
    ensures Acceptable(tasks, task, INTO_TWO, existing, known)
  {
    hide NormalizeRepoPath, AllUsable, HasDownstream;
    IntoTwoPaths(task);
    IntoTwoIsUsable(existing, known);
  }

  // ---------------------------------------------------------------- a dependency that dangles

  /** A nameless task depends on the one that is split: it is not asked, and its dependency dangles. */
  method NamelessDependentDangles() returns (root: Dag, blockers: seq<Blocker>)
    ensures blockers == []
    ensures exists t :: t in root.tasks && "A" in t.dependencies && !Defines(root.tasks, "A")
  {
    hide Strip, NormalizeRepoPath, Acceptable, AreSplitsOf, SplitIds, SplitRepoPaths, ReplaceTask, ReplaceInOrder, IndexAll;
    var task := new Task("A", None, "", [], ["x", "y"], [], "");
    var nameless := new Task("", None, "r", ["A"], [], [], "");
    root := new Dag([task, nameless], [["A"]]);
    var overlay := new Dag([], []);
    var rootIndex := new TaskIndex(map["A" := task]);
    var regroupIndex := new TaskIndex(map[]);
    var known := {NormalizeRepoPath("r")};
    ghost var before := root.tasks;
    NamelessIsNotAsked(task, nameless, before, known);
    assert rootIndex.byId.Keys + regroupIndex.byId.Keys == {"A"};
    var created, repoPaths;
    ghost var splits;
    blockers, created, repoPaths, splits :=
      ApplyReviewedTaskSplit(root, overlay, rootIndex, regroupIndex, task, INTO_TWO, known);
    NamelessStays(task, nameless, before, splits, known);
  }

  lemma NamelessIsNotAsked(task: Task, nameless: Task, tasks: seq<Task>, known: set<string>)
    requires tasks == [task, nameless] && OverTwoPaths(task) && task.id == "A" && task.dependencies == []
    requires nameless.id == "" && known == {NormalizeRepoPath("r")}
    ensures Acceptable(tasks, task, INTO_TWO, {"A"}, known) && Defines(tasks, "A")
  {
    hide NormalizeRepoPath;
    assert tasks[0] == task;
    IntoTwoIsAcceptable(tasks, task, {"A"}, known);
  }

  lemma NamelessStays(task: Task, nameless: Task, tasks: seq<Task>, splits: seq<Task>, known: set<string>)
    requires tasks == [task, nameless] && task.id == "A" && nameless.id == "" && nameless.dependencies == ["A"]
    requires OverTwoPaths(task) && known == {NormalizeRepoPath("r")} && AreSplitsOf(splits, task, INTO_TWO)
    ensures nameless in ReplaceTask(tasks, "A", splits) && !Defines(ReplaceTask(tasks, "A", splits), "A")
  {
    hide AllUsable, AreSplitsOf, NormalizeRepoPath;
    IntoTwoPaths(task);
    IntoTwoIsUsable({"A"}, known);
    assert tasks[0] == task && tasks[1] == nameless;
    InReplacedTasks(tasks, "A", splits, nameless);
    SplitKeepsDefinitions(tasks, task, INTO_TWO, splits, {"A"}, known, "A");
  }

  // ---------------------------------------------------------------- an id that is listed twice

  /** "B" is listed but has no task: a split may be called "B", and then "B" is listed twice. The
      orders agree before, and the split goes through. */
  method UndefinedIdIsListedTwice() returns (root: Dag, overlay: Dag, blockers: seq<Blocker>)
    ensures Agree([["Z"], ["A"], ["B"]], [["A"], ["B"]], 1)
    ensures blockers == [] && root.order == [["Z"], ["B", "C"], ["B"]] && overlay.order == [["B", "C"], ["B"]]
    ensures !DupFree(overlay.order)
  {
    hide Strip, NormalizeRepoPath, Acceptable, AreSplitsOf, SplitIds, SplitRepoPaths, ReplaceTask, ReplaceInOrder, IndexAll, Tally;
    var task := new Task("A", None, "", [], ["x", "y"], [], "");
    root := new Dag([task], [["Z"], ["A"], ["B"]]);
    overlay := new Dag([], [["A"], ["B"]]);
    var rootIndex := new TaskIndex(map["A" := task]);
    var regroupIndex := new TaskIndex(map[]);
    var known := {NormalizeRepoPath("r")};
    AloneIsAcceptable(root.tasks, task, {"A"}, known);
    assert rootIndex.byId.Keys + regroupIndex.byId.Keys == {"A"};
    var created, repoPaths;
    ghost var splits;
    blockers, created, repoPaths, splits :=
      ApplyReviewedTaskSplit(root, overlay, rootIndex, regroupIndex, task, INTO_TWO, known);
    OrdersOfTheExample();
  }

  lemma AloneIsAcceptable(tasks: seq<Task>, task: Task, existing: set<string>, known: set<string>)
    requires tasks == [task] && OverTwoPaths(task) && task.dependencies == []
    requires NormalizeRepoPath("r") in known && "B" !in existing && "C" !in existing
    ensures Acceptable(tasks, task, INTO_TWO, existing, known) && Defines(tasks, task.id)
  {
    hide NormalizeRepoPath, Strip;
    assert tasks[0] == task;
    IntoTwoIsAcceptable(tasks, task, existing, known);
  }

  lemma OrdersOfTheExample()
    ensures Agree([["Z"], ["A"], ["B"]], [["A"], ["B"]], 1)
    ensures ReplaceInOrder([["A"], ["B"]], "A", SplitIds(INTO_TWO)) == [["B", "C"], ["B"]]
    ensures ReplaceInOrder([["Z"], ["A"], ["B"]], "A", SplitIds(INTO_TWO)) == [["Z"], ["B", "C"], ["B"]]
    ensures !DupFree([["B", "C"], ["B"]])
  {
    IntoTwoIds();
    hide Strip, SplitIds, SplitId, Tally, DupFree;
    OrdersAgree();
    GroupsOfTheExample();
    SplitCanDuplicate();
  }

  lemma GroupsOfTheExample()
    ensures ReplaceInGroup(["A"], "A", ["B", "C"]) == ["B", "C"]
    ensures ReplaceInGroup(["B"], "A", ["B", "C"]) == ["B"]
    ensures ReplaceInGroup(["Z"], "A", ["B", "C"]) == ["Z"]
  {
    ReplaceAbsentInGroup(["B"], "A", ["B", "C"]);
    ReplaceAbsentInGroup(["Z"], "A", ["B", "C"]);
    assert ["A"][..0] == [];
  }

  lemma OrdersAgree()
    ensures Agree([["Z"], ["A"], ["B"]], [["A"], ["B"]], 1)
  {
    var root, derived := [["Z"], ["A"], ["B"]], [["A"], ["B"]];
    assert root[1..] == derived && root[..1] == [["Z"]] && derived[..1] == [["A"]];
    TallySplitAt(root, 1);
    TallyOne(["Z"]);
    TallyOne(["A"]);
    assert multiset(["Z"]) == multiset{"Z"};
    assert Tally(derived) == multiset{"A", "B"};
    AllDiffer();
  }

  lemma AllDiffer()
    ensures forall x :: multiset{"A", "B"}[x] <= 1
    ensures forall x :: (multiset{"Z"} + multiset{"A", "B"})[x] <= 1
  {
    assert "A"[0] != "B"[0] && "A"[0] != "Z"[0] && "B"[0] != "Z"[0];
  }

  // ---------------------------------------------------------------- a split that the rescan undoes

  /** The root task " A " is split; the overlay's own "A" is spelled differently, stays, and is
      reported again by the rescan. */
  method PaddedSplitFailsRescan() returns (blockers: seq<Blocker>, missing: seq<Missing>)
    ensures blockers == [] && missing == [Missing(1, "A")]
  {
    hide Strip, NormalizeRepoPath, Acceptable, AreSplitsOf, SplitIds, SplitRepoPaths, ReplaceTask, ReplaceInOrder, IndexAll, ScanOf;
    var task := new Task(" A ", None, "", [], ["x", "y"], [], "");
    var other := new Task("A", None, "", [], ["x", "y"], [], "");
    var root := new Dag([task], [["Z"], ["A"]]);
    var overlay := new Dag([other], [["A"]]);
    var rootIndex := new TaskIndex(map["A" := task]);
    var regroupIndex := new TaskIndex(map["A" := other]);
    var known := {NormalizeRepoPath("r")};
    AloneIsAcceptable(root.tasks, task, {"A"}, known);
    assert rootIndex.byId.Keys + regroupIndex.byId.Keys == {"A"};
    var created, repoPaths;
    ghost var splits;
    blockers, created, repoPaths, splits :=
      ApplyReviewedTaskSplit(root, overlay, rootIndex, regroupIndex, task, INTO_TWO, known);
    PaddedIsReported(root, overlay, task, other, splits);
    missing := ScanLists(root, overlay, Range(1, 1, 1));
  }

  lemma PaddedIsReported(root: Dag, overlay: Dag, task: Task, other: Task, splits: seq<Task>)
    requires task.id == " A " && other.id == "A" && other.repoId == "" && other.repoPath == ""
    requires AreSplitsOf(splits, task, INTO_TWO)
    requires root.tasks == ReplaceTask([task], " A ", splits) && overlay.tasks == ReplaceTask([other], " A ", splits)
    requires overlay.order == ReplaceInOrder([["A"]], " A ", SplitIds(INTO_TWO))
    ensures ScanOf(LedgerOfLists(root, overlay), Range(1, 1, 1)) == [Missing(1, "A")]
  {
    PaddedIsGone(root.tasks, task, splits);
    OtherStays(overlay.tasks, other, splits);
    OtherIsListed(overlay.order, SplitIds(INTO_TWO));
    OneReported(LedgerOfLists(root, overlay));
  }

  lemma SplitsAreOthers(task: Task, splits: seq<Task>)
    requires AreSplitsOf(splits, task, INTO_TWO)
    ensures forall t :: t in splits ==> Key(t) != "A"
  {
    assert Strip("B") == "B" && Strip("C") == "C";
    IntoTwoIds();
    hide Strip, SplitId, NormalizeRepoPath, SplitName, Keep;
    forall t | t in splits ensures Key(t) != "A" {
      var k :| 0 <= k < |splits| && splits[k] == t;
      assert IsSplitOf(splits[k], task, INTO_TWO[k]);
      assert k == 0 || k == 1;
    }
  }

  lemma PaddedIsGone(tasks: seq<Task>, task: Task, splits: seq<Task>)
    requires task.id == " A " && AreSplitsOf(splits, task, INTO_TWO) && tasks == ReplaceTask([task], " A ", splits)
    ensures "A" !in TasksById(tasks)
  {
    SplitsAreOthers(task, splits);
    forall t | t in tasks ensures Key(t) != "A" {
      InReplacedTasks([task], " A ", splits, t);
    }
    IndexedTasks(tasks);
  }

  lemma OtherStays(tasks: seq<Task>, other: Task, splits: seq<Task>)
    requires other.id == "A" && tasks == ReplaceTask([other], " A ", splits)
    ensures TasksById(tasks) == map["A" := other]
  {
    var none: seq<Task> := [];
    assert none + [other] == [other];
    ReplaceTaskSnoc(none, other, " A ", splits);
    assert |"A"| != |" A "|;
    TasksByIdSnoc(none, other);
    assert Strip("A") == "A";
  }

  lemma OtherIsListed(order: Order, created: seq<string>)
    requires order == ReplaceInOrder([["A"]], " A ", created)
    ensures order == [["A"]]
  {
    ReplaceAbsentInGroup(["A"], " A ", created);
  }

  lemma OneReported(l: Ledger)
    requires Full(l) && l.now.regroupOrder == [["A"]] && LacksBy(l, "A")
    ensures ScanOf(l, Range(1, 1, 1)) == [Missing(1, "A")]
  {
    var none: Order := [];
    var lacking := LackingBy(l);
    assert none + [["A"]] == [["A"]] && ["A"][..0] == [];
    MissingsSnoc([["A"]], 0, lacking, Range(1, 1, 1));
    assert [["A"]][..1] == [["A"]] && [["A"]][..0] == none;
    assert MissingIn(["A"], lacking, 1) == [Missing(1, "A")];
  }

  // ---------------------------------------------------------------- a blank path

  const SLASHES := Repo("/ /", "", {"A"})

  lemma SlashesAreBlank()
    ensures RepoPathOf(SLASHES) == " " && KnownRepoPaths([SLASHES]) == {" "} && IsBlank(" ")
  {
    BlankRepoPathIsKnown();
    assert RepoPathOf(SLASHES) == " ";
    hide NormalizeRepoPath, RepoPathOf, Strip;
    var repos := [SLASHES];
    assert repos[0] == SLASHES;
    assert Strip(" ") == "" by {
      BlankStripsAway();
    }
  }

  lemma BlankStripsAway()
    ensures Strip(" ") == ""
  {
    assert TrimLeft("", IsSpace) == "";
    assert " "[1..] == "";
    assert TrimLeft(" ", IsSpace) == "";
  }

  lemma BlankIsDecided(scope: set<string>)
    ensures Decide("A", scope, None, [SLASHES], [SLASHES]) == Assign(" ", false)
  {
    SlashesAreBlank();
    hide NormalizeRepoPath, RepoPathOf, Strip, PathInRepo;
    var matching := MatchingRepoPaths(scope, [SLASHES]);
    assert matching <= {" "};
    if " " in matching {
      assert matching == {" "};
    } else {
      assert matching == {};
    }
  }

  lemma BlankIsAssigned(l: Ledger, task: Task)
    requires Full(l) && l.now.rootById == map["A" := task] && l.now.regroupOrder == [["A"]] && LacksBy(l, "A")
    ensures DecisionsOn(l, Range(1, 1, 1), [], map[1 := [SLASHES]], [SLASHES]) == [Assign(" ", false)]
  {
    hide Decide, PathSet, IsBlank, RepoPathOf;
    OneReported(l);
    var scopes := Scopes(l.now.rootById, l.rootFiles);
    assert "A" in l.now.rootById && "A" in scopes;
    BlankIsDecided(scopes["A"]);
    assert Claiming([SLASHES], "A") == [SLASHES];
    assert ItemVerdict(scopes, scopes, Missing(1, "A"), [], map[1 := [SLASHES]], [SLASHES]) == Assign(" ", false);
  }

  lemma NothingMixed(order: Order)
    ensures !SomeMixed(order, AllClaims([], []))
  {
  }

  /** A task whose only claim has the path "/ /" is given a blank path, which the rescan reports. */
  method BlankPathFailsRescan() returns (plan: Plan)
    ensures plan.RescanFailed?
  {
    hide RescanAsDecided, PlannedAsDecided, ReadyIsSound, NoLegacy, Strip, DecisionsOn, SomeMixed, RepoPathOf;
    var task := new Task("A", None, "", [], ["x"], [], "");
    var payload := new Dag([task], [["Z"], ["A"]]);
    var dag := new Dag([], [["A"]]);
    var overlay := new Regroup(dag, [], [], [], map[]);
    ghost var before := LedgerOfLists(payload, dag);
    BlankPathPayload(payload, dag, task);
    NothingMixed([["A"]]);
    plan := BuildBulkRepairPlan(payload, overlay, Range(1, 1, 1), [], map[1 := [SLASHES]], [SLASHES], false);
    PlanOnBlankPath(plan, before);
  }

  lemma BlankPathPayload(payload: Dag, dag: Dag, task: Task)
    requires payload.tasks == [task] && task.id == "A" && task.repoId == "" && task.repoPath == "" && dag.tasks == []
    requires dag.order == [["A"]]
    ensures DecisionsOn(LedgerOfLists(payload, dag), Range(1, 1, 1), [], map[1 := [SLASHES]], [SLASHES]) == [Assign(" ", false)]
  {
    var none: seq<Task> := [];
    assert none + [task] == [task];
    TasksByIdSnoc(none, task);
    assert Strip("A") == "A";
    hide Strip, RepoPathOf, DecisionsOn;
    assert TasksById(payload.tasks) == map["A" := task];
    BlankIsAssigned(LedgerOfLists(payload, dag), task);
  }

  lemma PlanOnBlankPath(plan: Plan, before: Ledger)
    requires Full(before) && before.now.regroupOrder == [["A"]]
    requires DecisionsOn(before, Range(1, 1, 1), [], map[1 := [SLASHES]], [SLASHES]) == [Assign(" ", false)]
    requires RescanAsDecided(plan, before, Range(1, 1, 1), [], map[1 := [SLASHES]], [SLASHES])
    requires PlannedAsDecided(plan, before, Range(1, 1, 1), [], [Assign(" ", false)], AllClaims([], []))
    ensures plan.RescanFailed?
  {
    var ds := [Assign(" ", false)];
    SlashesAreBlank();
    NothingMixed([["A"]]);
    OnceListed();
    hide Strip, RepoPathOf, DecisionsOn, ScanOf, Tally, SomeMixed, AllClaims;
    assert ds[0] in ds;
    assert DecidesBlank(ds[0]);
  }

  lemma OnceListed()
    ensures DupFree([["A"]])
  {
    TallyOne(["A"]);
  }
}

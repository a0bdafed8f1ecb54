/** The whole bulk repair plan. */
module RepairPlan {
  import opened Orders
  import opened RepairModel
  import opened GroupMoves
  import opened RegroupOverlay
  import opened BulkRepair
  import opened RepairBook
  import opened RepairRun
  import opened RepairJob
  import opened RepairCourse
  import opened RepairLoop
  import opened ReviewRecords
  import opened LegacyFiles
  import opened RepairCopies
  import opened RepairResult
  import opened ItemDecisions

  // ---------------------------------------------------------------- the loop and the moves

  /** The reviewed moves: they rewrite the two orders and nothing else. */
  method MoveGroups(root: Dag, regroup: Dag, reviews: seq<Review>, range: Range)
    returns (blockers: seq<Blocker>, moved: seq<string>, affected: set<int>)
    requires root != regroup && range.first >= 0
    modifies root`order, regroup`order
    ensures var end := Run(StartOrders(old(root.order), old(regroup.order)), reviews, range);
      && blockers == end.blockers && moved == end.moved
      && MovedFrom(old(LedgerOfLists(root, regroup)), LedgerOfLists(root, regroup), end)
  {
    blockers, moved, affected := ApplyReviewedGroupMoves(root, regroup, reviews, range);
    ListStays(root.tasks);
    ListStays(regroup.tasks);
  }

  lemma IndexWithin(tasks: seq<Task>, owned: set<Task>)
    requires forall t :: t in tasks ==> t in owned
    ensures TasksById(tasks).Values <= owned
  {
    IndexedTasks(tasks);
  }

  /** The repair loop and the moves, on fresh copies of the two payload DAGs. */
  method RepairAndMove(payload: Dag, overlay: Dag, range: Range, reviews: seq<Review>, registries: map<int, seq<Repo>>,
                       seedRepos: seq<Repo>)
    returns (root: Dag, regroup: Dag, p: Progress, moved: seq<string>, blockers: seq<Blocker>)
    requires range.first >= 0 && UniqueIds(reviews)
    ensures fresh(root) && fresh(regroup) && root != regroup
    ensures fresh(TasksById(root.tasks).Values) && fresh(TasksById(regroup.tasks).Values)
    ensures Ran(old(LedgerOfLists(payload, overlay)), range, reviews, registries, seedRepos, p, moved, blockers,
                LedgerOfLists(root, regroup))
  {
    hide Sound, Plain, Exact, OnCopies, Coherent, Ran, Behind;
    ghost var before := LedgerOfLists(payload, overlay);
    var rootIndex, regroupIndex;
    ghost var j;
    root, regroup, rootIndex, regroupIndex, p, j := RunRepair(payload, overlay, range, reviews, registries, seedRepos);
    ghost var owned := AllTasks(root, regroup, rootIndex, regroupIndex);
    IndexWithin(root.tasks, owned);
    IndexWithin(regroup.tasks, owned);
    ghost var l, mid := LedgerOf(root, regroup, rootIndex, regroupIndex), LedgerOfLists(root, regroup);
    if Coherent(l.now) {
      HeldBehind(root, regroup, rootIndex, regroupIndex);
    }
    var moveBlockers, affected;
    moveBlockers, moved, affected := MoveGroups(root, regroup, reviews, range);
    blockers := p.blockers + moveBlockers;
    RunIsSound(j, before, range, reviews, registries, seedRepos, p, l, mid, LedgerOfLists(root, regroup),
               Run(StartOrders(l.now.rootOrder, l.now.regroupOrder), reviews, range));
  }

  // ---------------------------------------------------------------- legacy files

  /** The ids whose tasks lose their legacy lists. */
  ghost function Clearing(order: Order, range: Range, enabled: bool): set<string> {
    if enabled then ListedIds(order, range) else {}
  }

  method ClearRange(root: Dag, regroup: Dag, range: Range) returns (cleared: set<string>)
    modifies TasksById(root.tasks).Values`files, TasksById(regroup.tasks).Values`files
    ensures PathsOf(TasksById(root.tasks)) == old(PathsOf(TasksById(root.tasks)))
    ensures PathsOf(TasksById(regroup.tasks)) == old(PathsOf(TasksById(regroup.tasks)))
    ensures FilesOf(TasksById(root.tasks))
         == Cleared(TasksById(root.tasks), old(FilesOf(TasksById(root.tasks))), ListedIds(regroup.order, range))
    ensures FilesOf(TasksById(regroup.tasks))
         == Cleared(TasksById(regroup.tasks), old(FilesOf(TasksById(regroup.tasks))), ListedIds(regroup.order, range))
    ensures ChangedOf(TasksById(root.tasks), old(FilesOf(TasksById(root.tasks))), TasksById(regroup.tasks),
                      old(FilesOf(TasksById(regroup.tasks))), ListedIds(regroup.order, range), cleared)
  {
    hide *;
    SeparateLists(root, regroup);
    cleared := NormalizeLegacyFiles(TasksById(root.tasks), TasksById(regroup.tasks), regroup.order, range);
    PathsStay(root.tasks);
    PathsStay(regroup.tasks);
  }

  lemma ClearedNone(tasks: map<string, Task>, files: map<string, seq<string>>)
    requires files.Keys == tasks.Keys
    ensures Cleared(tasks, files, {}) == files
  {
  }

  /** Clears legacy files on the final lists; orders and repo paths are not affected. */
  method ClearLegacyFiles(root: Dag, regroup: Dag, range: Range, enabled: bool) returns (cleared: set<string>)
    modifies TasksById(root.tasks).Values`files, TasksById(regroup.tasks).Values`files
    ensures LedgerOfLists(root, regroup) == old(LedgerOfLists(root, regroup)).(rootFiles := FilesOf(TasksById(root.tasks)))
    ensures FilesOf(TasksById(root.tasks))
         == Cleared(TasksById(root.tasks), old(FilesOf(TasksById(root.tasks))), Clearing(regroup.order, range, enabled))
    ensures FilesOf(TasksById(regroup.tasks))
         == Cleared(TasksById(regroup.tasks), old(FilesOf(TasksById(regroup.tasks))), Clearing(regroup.order, range, enabled))
    ensures ChangedOf(TasksById(root.tasks), old(FilesOf(TasksById(root.tasks))), TasksById(regroup.tasks),
                      old(FilesOf(TasksById(regroup.tasks))), Clearing(regroup.order, range, enabled), cleared)
  {
    hide Cleared, CarriesLegacy, TasksById;
    cleared := {};
    if enabled {
      cleared := ClearRange(root, regroup, range);
    } else {
      ClearedNone(TasksById(root.tasks), FilesOf(TasksById(root.tasks)));
      ClearedNone(TasksById(regroup.tasks), FilesOf(TasksById(regroup.tasks)));
    }
  }

  lemma SeparateLists(root: Dag, regroup: Dag)
    ensures Separate(TasksById(root.tasks), TasksById(regroup.tasks))
  {
    IndexedTasks(root.tasks);
    IndexedTasks(regroup.tasks);
    KeyedAreSeparate(TasksById(root.tasks), TasksById(regroup.tasks));
  }

  // ---------------------------------------------------------------- finishing the plan

  datatype Plan =
    | Blocked(blockers: seq<Blocker>)
    | RescanFailed(missing: seq<Missing>)
    | Ready(root: Dag, regroup: Regroup, progress: Progress, moved: seq<string>, cleared: set<string>)

  /** The scan reports nothing exactly when the range is clear. */
  lemma NothingFoundIff(l: Ledger, range: Range)
    requires Full(l)
    ensures ScanOf(l, range) == [] <==> Clear(l, range)
  {
    var items := ScanOf(l, range);
    forall x ensures Found(items, x) <==> ListedInRange(l.now.regroupOrder, x, range) && LacksBy(l, x) {
      ScanFinds(l, range, x);
    }
    if items != [] {
      assert Found(items, items[0].taskId);
    }
  }

  /** Some derived group holds tasks of two hard barriers. */
  ghost predicate SomeMixed(derived: Order, claims: seq<Claim>) {
    exists k :: 0 <= k < |derived| && Mixed(derived[k], claims)
  }

  /** Resync, mapping and barrier check of the overlay. */
  method FinishOverlay(root: Dag, regroup: Dag, overlay: Regroup, offset: int) returns (updated: Regroup, approved: bool)
    ensures updated.dag == regroup
    ensures updated.originalOrder == if 0 <= offset <= |root.order| then root.order[offset..] else overlay.originalOrder
    ensures MappingCorrect(updated.mapping, updated.originalOrder, regroup.order, offset)
    ensures approved <==> !SomeMixed(regroup.order, AllClaims(overlay.barriers, overlay.speedIndex))
    ensures LedgerOfLists(root, regroup) == old(LedgerOfLists(root, regroup))
    ensures FilesOf(TasksById(regroup.tasks)) == old(FilesOf(TasksById(regroup.tasks)))
  {
    hide Mixed, MappingCorrect, AllClaims, TasksById;
    updated := new Regroup(regroup, overlay.barriers, overlay.speedIndex, overlay.originalOrder, overlay.mapping);
    updated.SyncOriginalOrder(root, offset);
    updated.RecomputeMapping(offset);
    var violations;
    approved, violations := updated.ValidateHardBarriers(offset);
    ListStays(root.tasks);
    ListStays(regroup.tasks);
  }

  lemma FilesDoNotMatter(l: Ledger, l': Ledger, range: Range)
    requires Full(l) && Full(l') && l' == l.(rootFiles := l'.rootFiles)
    ensures ScanOf(l', range) == ScanOf(l, range) && (Clear(l', range) <==> Clear(l, range))
  {
    assert forall x :: LacksBy(l', x) <==> LacksBy(l, x);
    assert LackingBy(l') == LackingBy(l);
  }

  /** Everything after the moves: legacy files, resync, mapping, barriers, rescan. */
  method FinishPlan(root: Dag, regroup: Dag, overlay: Regroup, range: Range, p: Progress, moved: seq<string>,
                    normalizeLegacyFiles: bool, sofar: seq<Blocker>)
    returns (plan: Plan)
    modifies TasksById(root.tasks).Values`files, TasksById(regroup.tasks).Values`files
    ensures plan.Blocked? <==> sofar != [] || SomeMixed(regroup.order, AllClaims(overlay.barriers, overlay.speedIndex))
    ensures plan.Blocked? ==> plan.blockers != []
    ensures plan.RescanFailed? <==> !plan.Blocked? && !Clear(old(LedgerOfLists(root, regroup)), range)
    ensures plan.RescanFailed? ==> plan.missing == ScanOf(old(LedgerOfLists(root, regroup)), range)
    ensures plan.Ready? ==>
              && plan.root == root && plan.regroup.dag == regroup && plan.progress == p && plan.moved == moved
              && plan.regroup.originalOrder == (if 0 <= range.offset <= |root.order| then root.order[range.offset..] else overlay.originalOrder)
              && MappingCorrect(plan.regroup.mapping, plan.regroup.originalOrder, regroup.order, range.offset)
    ensures LedgerOfLists(root, regroup) == old(LedgerOfLists(root, regroup)).(rootFiles := FilesOf(TasksById(root.tasks)))
    ensures FilesOf(TasksById(root.tasks))
         == Cleared(TasksById(root.tasks), old(FilesOf(TasksById(root.tasks))), Clearing(regroup.order, range, normalizeLegacyFiles))
    ensures FilesOf(TasksById(regroup.tasks))
         == Cleared(TasksById(regroup.tasks), old(FilesOf(TasksById(regroup.tasks))), Clearing(regroup.order, range, normalizeLegacyFiles))
    ensures plan.Ready? ==>
              ChangedOf(TasksById(root.tasks), old(FilesOf(TasksById(root.tasks))), TasksById(regroup.tasks),
                        old(FilesOf(TasksById(regroup.tasks))), Clearing(regroup.order, range, normalizeLegacyFiles), plan.cleared)
  {
    hide Clear, Cleared, ChangedOf, MappingCorrect, SomeMixed, Clearing, TasksById;
    ghost var before := LedgerOfLists(root, regroup);
    var cleared := ClearLegacyFiles(root, regroup, range, normalizeLegacyFiles);
    FilesDoNotMatter(before, LedgerOfLists(root, regroup), range);
    var updated, approved := FinishOverlay(root, regroup, overlay, range.offset);
    var blockers := sofar + if approved then [] else [Blocker("dag_regroup_barrier_violation", "")];
    if blockers != [] {
      return Blocked(blockers);
    }
    var missing := ScanLists(root, regroup, range);
    NothingFoundIff(before, range);
    if missing != [] {
      return RescanFailed(missing);
    }
    return Ready(root, updated, p, moved, cleared);
  }

  // ---------------------------------------------------------------- what a plan guarantees

  /** Whether the rescan fails, when the tasks to be split are spelled like their ids: never if no
      known repo path is blank; and for an overlay that lists no id twice, exactly if some
      decision gives a blank repo path. */
  ghost predicate RescanAsDecided(plan: Plan, before: Ledger, range: Range, reviews: seq<Review>, registries: map<int, seq<Repo>>,
                                  seedRepos: seq<Repo>)
    requires Full(before)
  {
    var ds := DecisionsOn(before, range, reviews, registries, seedRepos);
    SplitsSpelled(before.now.rootTasks, ScanOf(before, range), ds) ==>
      && (NoBlankKnown(seedRepos) ==> !plan.RescanFailed?)
      && (DupFree(before.now.regroupOrder) ==>
           (plan.RescanFailed? <==> !plan.Blocked? && exists d :: d in ds && DecidesBlank(d)))
  }

  /** What every ready plan has. */
  ghost predicate ReadyIsSound(plan: Plan, before: Ledger, overlay: Regroup, range: Range, reviews: seq<Review>,
                               registries: map<int, seq<Repo>>, seedRepos: seq<Repo>)
    requires plan.Ready? && Full(before)
    reads plan.root, plan.regroup, plan.regroup.dag
    reads TasksById(plan.root.tasks).Values, TasksById(plan.regroup.dag.tasks).Values
  {
    var after, regroup := LedgerOfLists(plan.root, plan.regroup.dag), plan.regroup;
    && Clear(after, range)
    && MappingCorrect(regroup.mapping, regroup.originalOrder, regroup.dag.order, range.offset)
    && (0 <= range.offset <= |plan.root.order| ==> regroup.originalOrder == plan.root.order[range.offset..])
    && !SomeMixed(regroup.dag.order, AllClaims(overlay.barriers, overlay.speedIndex))
    && (SplitsSpelled(before.now.rootTasks, ScanOf(before, range), DecisionsOn(before, range, reviews, registries, seedRepos)) ==>
         Accomplished(before, range, reviews, registries, seedRepos, plan.progress, after))
  }

  /** No task in range carries a legacy file list beside its file scope. */
  ghost predicate NoLegacy(plan: Plan, range: Range)
    requires plan.Ready?
    reads plan.root, plan.regroup, plan.regroup.dag
    reads TasksById(plan.root.tasks).Values, TasksById(plan.regroup.dag.tasks).Values
  {
    var rootTasks, regroupTasks := TasksById(plan.root.tasks), TasksById(plan.regroup.dag.tasks);
    forall x :: ListedInRange(plan.regroup.dag.order, x, range) ==>
      !CarriesLegacy(rootTasks, FilesOf(rootTasks), x) && !CarriesLegacy(regroupTasks, FilesOf(regroupTasks), x)
  }

  /** Without splits, a plan is blocked exactly when some task's decision is a stop, a move is
      refused, or the moved order mixes hard barriers; and a ready plan has exactly the moved
      orders and the decided repo paths. */
  ghost predicate PlannedAsDecided(plan: Plan, before: Ledger, range: Range, reviews: seq<Review>, ds: seq<Decision>, claims: seq<Claim>)
    requires range.first >= 0 && Full(before) && |ds| == |ScanOf(before, range)|
    reads if plan.Ready? then {plan.root, plan.regroup.dag} else {}
  {
    SplitFree(ds) ==>
      var end := Run(StartOrders(before.now.rootOrder, before.now.regroupOrder), reviews, range);
      && (plan.Blocked? <==> (exists d :: d in ds && d.Stop?) || end.blockers != [] || SomeMixed(end.derived, claims))
      && (plan.Ready? ==>
           && plan.progress == Replay(ScanOf(before, range), ds) && plan.moved == end.moved
           && plan.root.order == end.root && plan.regroup.dag.order == end.derived)
  }

  /** With splits, on an overlay that lists no id twice: a plan is blocked exactly when some decision
      does not go through, a move is refused on the orders that the splits leave, or the moved
      order mixes hard barriers; and a ready plan has exactly those orders. */
  ghost predicate PlannedInFull(plan: Plan, before: Ledger, range: Range, reviews: seq<Review>, ds: seq<Decision>, known: set<string>,
                                claims: seq<Claim>)
    requires range.first >= 0 && Full(before) && |ds| == |ScanOf(before, range)|
    reads if plan.Ready? then {plan.root, plan.regroup.dag} else {}
  {
    var items := ScanOf(before, range);
    DupFree(before.now.regroupOrder) && SplitsSpelled(before.now.rootTasks, items, ds) && DependAlike(before.now.rootTasks, items, ds) ==>
      var end := Run(StartOrders(ReplayOrder(items, ds, before.now.rootOrder), ReplayOrder(items, ds, before.now.regroupOrder)),
                     reviews, range);
      && (plan.Blocked? <==> !AllGo(before, items, ds, known, |items|) || end.blockers != [] || SomeMixed(end.derived, claims))
      && (plan.Ready? ==> plan.moved == end.moved && plan.root.order == end.root && plan.regroup.dag.order == end.derived)
  }

  /** The plan, said of the raw reviews, registries and seed repositories. A ready plan has recorded
      exactly the repo paths that they give. When no task spans several repositories, the plan is
      blocked exactly when they leave some task unsettled, a move is refused, or the moved order
      mixes hard barriers. */
  ghost predicate PlannedAsReviewed(plan: Plan, before: Ledger, range: Range, reviews: seq<Review>, registries: map<int, seq<Repo>>,
                                    seedRepos: seq<Repo>, claims: seq<Claim>)
    requires range.first >= 0 && Full(before)
  {
    var items, ds := ScanOf(before, range), DecisionsOn(before, range, reviews, registries, seedRepos);
    var spanless := NothingSpans(before, items, seedRepos);
    && (plan.Ready? && (spanless || (DupFree(before.now.regroupOrder) && SplitsSpelled(before.now.rootTasks, items, ds))) ==>
         ResolvedAsReviewed(plan.progress.resolved, before, range, reviews, registries, seedRepos))
    && (spanless ==>
         var end := Run(StartOrders(before.now.rootOrder, before.now.regroupOrder), reviews, range);
         plan.Blocked? <==> || (exists item :: item in items && Unsettled(before, reviews, registries, seedRepos, item))
                            || end.blockers != [] || SomeMixed(end.derived, claims))
  }

  lemma FinishedAsReviewed(plan: Plan, before: Ledger, range: Range, reviews: seq<Review>, registries: map<int, seq<Repo>>,
                           seedRepos: seq<Repo>, claims: seq<Claim>)
    requires range.first >= 0 && Full(before) && UniqueIds(reviews)
    requires PlannedAsDecided(plan, before, range, reviews, DecisionsOn(before, range, reviews, registries, seedRepos), claims)
    requires plan.Ready? && DupFree(before.now.regroupOrder)
             && SplitsSpelled(before.now.rootTasks, ScanOf(before, range), DecisionsOn(before, range, reviews, registries, seedRepos)) ==>
               plan.progress == Replay(ScanOf(before, range), DecisionsOn(before, range, reviews, registries, seedRepos))
    ensures PlannedAsReviewed(plan, before, range, reviews, registries, seedRepos, claims)
  {
    ReplayAsReviewed(before, range, reviews, registries, seedRepos);
    StopsAsReviewed(before, range, reviews, registries, seedRepos);
    hide ResolvedAsReviewed, NothingSpans, Unsettled, SomeMixed, DupFree, SplitsSpelled, ScanOf, DecisionsOn, Run, Replay;
  }

  lemma FinishedInFull(plan: Plan, before: Ledger, mid: Ledger, range: Range, reviews: seq<Review>, ds: seq<Decision>, known: set<string>,
                       claims: seq<Claim>, p: Progress, moved: seq<string>, blockers: seq<Blocker>)
    requires range.first >= 0 && Full(before) && |ds| == |ScanOf(before, range)|
    requires RanInFull(before, range, reviews, ds, known, p, moved, blockers, mid)
    requires plan.Blocked? <==> blockers != [] || SomeMixed(mid.now.regroupOrder, claims)
    requires plan.Ready? ==>
               plan.moved == moved && plan.root.order == mid.now.rootOrder && plan.regroup.dag.order == mid.now.regroupOrder
    ensures PlannedInFull(plan, before, range, reviews, ds, known, claims)
  {
    hide Run, ReplayOrder, AllGo, SomeMixed, DupFree, SplitsSpelled, DependAlike, ScanOf;
  }

  lemma RescanDecided(plan: Plan, before: Ledger, mid: Ledger, range: Range, reviews: seq<Review>, registries: map<int, seq<Repo>>,
                      seedRepos: seq<Repo>, p: Progress, moved: seq<string>, blockers: seq<Blocker>)
    requires range.first >= 0 && Full(before) && Full(mid)
    requires Ran(before, range, reviews, registries, seedRepos, p, moved, blockers, mid)
    requires blockers != [] ==> plan.Blocked?
    requires plan.RescanFailed? <==> !plan.Blocked? && !Clear(mid, range)
    ensures RescanAsDecided(plan, before, range, reviews, registries, seedRepos)
  {
    hide Clear, Delivered, KeysFollow, OrdersFollow, SplitsSpelled, DecidesBlank, TargetsReached, DupFree, Agree, NoClash;
  }

  lemma FinishedAsDecided(plan: Plan, before: Ledger, mid: Ledger, range: Range, reviews: seq<Review>, ds: seq<Decision>,
                          claims: seq<Claim>, p: Progress, moved: seq<string>, blockers: seq<Blocker>)
    requires range.first >= 0 && Full(before) && |ds| == |ScanOf(before, range)| && forall d :: d in ds ==> (d.Stop? ==> d.blockers != [])
    requires RanAsDecided(before, range, reviews, ds, p, moved, blockers, mid)
    requires plan.Blocked? <==> blockers != [] || SomeMixed(mid.now.regroupOrder, claims)
    requires plan.Ready? ==>
               && plan.progress == p && plan.moved == moved
               && plan.root.order == mid.now.rootOrder && plan.regroup.dag.order == mid.now.regroupOrder
    ensures PlannedAsDecided(plan, before, range, reviews, ds, claims)
  {
    if SplitFree(ds) {
      ReplayBlockers(ScanOf(before, range), ds);
    }
  }

  lemma DeliveredStays(before: Ledger, range: Range, p: Progress, mid: Ledger, after: Ledger)
    requires after == mid.(rootFiles := after.rootFiles)
    ensures Delivered(before, p, mid) <==> Delivered(before, p, after)
    ensures KeysFollow(before, p, mid) <==> KeysFollow(before, p, after)
    ensures OrdersFollow(before, range, p, mid) <==> OrdersFollow(before, range, p, after)
  {
    hide Traded, Agree, NoClash;
  }

  /** A ready plan accomplishes what the run before it did. */
  lemma AccomplishedStays(before: Ledger, range: Range, reviews: seq<Review>, registries: map<int, seq<Repo>>, seedRepos: seq<Repo>,
                          p: Progress, mid: Ledger, after: Ledger)
    requires Full(before) && Full(mid) && Full(after) && after == mid.(rootFiles := after.rootFiles)
    requires Accomplished(before, range, reviews, registries, seedRepos, p, mid)
    ensures Accomplished(before, range, reviews, registries, seedRepos, p, after)
  {
    hide Clear, Delivered, KeysFollow, OrdersFollow, DecidesBlank, TargetsReached, DupFree, Agree, NoClash, Replay, DecisionsOn, ScanOf;
    FilesDoNotMatter(mid, after, range);
    DeliveredStays(before, range, p, mid, after);
  }

  lemma AccomplishedReplays(before: Ledger, range: Range, reviews: seq<Review>, registries: map<int, seq<Repo>>, seedRepos: seq<Repo>,
                            p: Progress, mid: Ledger)
    requires Full(before) && Full(mid) && Accomplished(before, range, reviews, registries, seedRepos, p, mid)
    ensures DupFree(before.now.regroupOrder) ==>
              p == Replay(ScanOf(before, range), DecisionsOn(before, range, reviews, registries, seedRepos))
  {
    hide DupFree, ScanOf, DecisionsOn, Clear, KeysFollow, OrdersFollow, Delivered;
  }

  lemma LegacyGone(tasks: map<string, Task>, files: map<string, seq<string>>, ids: set<string>, x: string)
    requires files.Keys == tasks.Keys && FilesOf(tasks) == Cleared(tasks, files, ids) && x in ids
    ensures !CarriesLegacy(tasks, FilesOf(tasks), x)
  {
  }

  lemma NoLegacyLeft(plan: Plan, range: Range, rootFiles: map<string, seq<string>>, regroupFiles: map<string, seq<string>>)
    requires plan.Ready?
    requires rootFiles.Keys == TasksById(plan.root.tasks).Keys && regroupFiles.Keys == TasksById(plan.regroup.dag.tasks).Keys
    requires FilesOf(TasksById(plan.root.tasks))
          == Cleared(TasksById(plan.root.tasks), rootFiles, ListedIds(plan.regroup.dag.order, range))
    requires FilesOf(TasksById(plan.regroup.dag.tasks))
          == Cleared(TasksById(plan.regroup.dag.tasks), regroupFiles, ListedIds(plan.regroup.dag.order, range))
    ensures NoLegacy(plan, range)
  {
    hide Cleared, CarriesLegacy;
    forall x | ListedInRange(plan.regroup.dag.order, x, range)
      ensures !CarriesLegacy(TasksById(plan.root.tasks), FilesOf(TasksById(plan.root.tasks)), x)
      ensures !CarriesLegacy(TasksById(plan.regroup.dag.tasks), FilesOf(TasksById(plan.regroup.dag.tasks)), x)
    {
      LegacyGone(TasksById(plan.root.tasks), rootFiles, ListedIds(plan.regroup.dag.order, range), x);
      LegacyGone(TasksById(plan.regroup.dag.tasks), regroupFiles, ListedIds(plan.regroup.dag.order, range), x);
    }
  }

  /** The plan for reviews that are in order. */
  method PlanRepairs(payload: Dag, overlay: Regroup, range: Range, reviews: seq<Review>, registries: map<int, seq<Repo>>,
                     seedRepos: seq<Repo>, normalizeLegacyFiles: bool)
    returns (plan: Plan)
    requires range.first >= 0 && UniqueIds(reviews)
    ensures plan.Blocked? ==> plan.blockers != []
    ensures RescanAsDecided(plan, old(LedgerOfLists(payload, overlay.dag)), range, reviews, registries, seedRepos)
    ensures plan.Ready? ==>
              ReadyIsSound(plan, old(LedgerOfLists(payload, overlay.dag)), overlay, range, reviews, registries, seedRepos)
    ensures plan.Ready? && normalizeLegacyFiles ==> NoLegacy(plan, range)
    ensures PlannedAsDecided(plan, old(LedgerOfLists(payload, overlay.dag)), range, reviews,
                             DecisionsOn(old(LedgerOfLists(payload, overlay.dag)), range, reviews, registries, seedRepos),
                             AllClaims(overlay.barriers, overlay.speedIndex))
    ensures PlannedInFull(plan, old(LedgerOfLists(payload, overlay.dag)), range, reviews,
                          DecisionsOn(old(LedgerOfLists(payload, overlay.dag)), range, reviews, registries, seedRepos),
                          KnownRepoPaths(seedRepos), AllClaims(overlay.barriers, overlay.speedIndex))
    ensures PlannedAsReviewed(plan, old(LedgerOfLists(payload, overlay.dag)), range, reviews, registries, seedRepos,
                              AllClaims(overlay.barriers, overlay.speedIndex))
  {
    hide Clear, Cleared, ChangedOf, MappingCorrect, SomeMixed, TasksById, Accomplished, RanAsDecided, PlannedAsDecided,
         RanInFull, PlannedInFull, PlannedAsReviewed, Replay,
         RescanAsDecided, NoLegacy, SplitsSpelled, DecisionsOn, ScanOf, AllClaims, UniqueIds;
    ghost var before := LedgerOfLists(payload, overlay.dag);
    var root, regroup, p, moved, blockers := RepairAndMove(payload, overlay.dag, range, reviews, registries, seedRepos);
    ghost var mid := LedgerOfLists(root, regroup);
    ghost var rootFiles, regroupFiles := FilesOf(TasksById(root.tasks)), FilesOf(TasksById(regroup.tasks));
    plan := FinishPlan(root, regroup, overlay, range, p, moved, normalizeLegacyFiles, blockers);
    RescanDecided(plan, before, mid, range, reviews, registries, seedRepos, p, moved, blockers);
    FinishedAsDecided(plan, before, mid, range, reviews, DecisionsOn(before, range, reviews, registries, seedRepos),
                      AllClaims(overlay.barriers, overlay.speedIndex), p, moved, blockers);
    FinishedInFull(plan, before, mid, range, reviews, DecisionsOn(before, range, reviews, registries, seedRepos),
                   KnownRepoPaths(seedRepos), AllClaims(overlay.barriers, overlay.speedIndex), p, moved, blockers);
    if plan.Ready? {
      FilesDoNotMatter(mid, LedgerOfLists(root, regroup), range);
      if Accomplished(before, range, reviews, registries, seedRepos, p, mid) {
        AccomplishedStays(before, range, reviews, registries, seedRepos, p, mid, LedgerOfLists(root, regroup));
        AccomplishedReplays(before, range, reviews, registries, seedRepos, p, mid);
      }
      if normalizeLegacyFiles {
        NoLegacyLeft(plan, range, rootFiles, regroupFiles);
      }
    }
    FinishedAsReviewed(plan, before, range, reviews, registries, seedRepos, AllClaims(overlay.barriers, overlay.speedIndex));
  }

  lemma BlockedIsNotRescanned(plan: Plan, before: Ledger, range: Range, reviews: seq<Review>, registries: map<int, seq<Repo>>,
                              seedRepos: seq<Repo>)
    requires plan.Blocked? && Full(before)
    ensures RescanAsDecided(plan, before, range, reviews, registries, seedRepos)
  {
  }

  function InputBlockers(range: Range, seedRepos: seq<Repo>): (r: seq<Blocker>)
    ensures r == [] <==> range.first <= range.last && seedRepos != []
  {
    (if range.last < range.first then [Blocker("invalid_group_range", "")] else [])
    + (if seedRepos == [] then [Blocker("missing_seed_workspace_authority_registry", "")] else [])
  }

  /** The review records, with the payloads as they were. */
  method TakeReviews(rawReviews: seq<Review>, ghost payload: Dag, ghost overlay: Dag) returns (reviews: seq<Review>, blockers: seq<Blocker>)
    ensures UniqueIds(reviews)
    ensures blockers == [] <==> Clean(KeyedRecords(rawReviews))
    ensures blockers == [] ==> reviews == KeyedRecords(rawReviews)
    ensures LedgerOfLists(payload, overlay) == old(LedgerOfLists(payload, overlay))
  {
    reviews, blockers := NormalizeReviews(rawReviews);
    ListStays(payload.tasks);
    ListStays(overlay.tasks);
  }

  /** `build_post_adoption_repo_identity_bulk_repair_plan`, once the artifacts are read and the
      adoption marker is checked (which fixes the first group to be the one after the boundary).

      A ready plan always passes its own rescan, has a mapping that matches its orders and no
      derived group with two hard barriers. When the tasks to be split are spelled like their
      ids, every root task that was not split is still defined as it was, with the repo path
      decided for it or else the one it had; the rescan of a plan that is not blocked fails, for
      an overlay that lists no id twice, exactly if some decision gives a blank repo path; and
      orders that agree come out agreeing, with exactly the split originals traded for the created
      splits, the sealed root groups untouched and every reviewed move done, exactly if no created
      id is one that they listed without a definition. Whether the plan is blocked and which orders
      a ready plan has are decided exactly, for any payload when nothing is to be split, and with
      splits when the overlay lists no id twice. */
  method BuildBulkRepairPlan(payload: Dag, overlay: Regroup, range: Range, rawReviews: seq<Review>, registries: map<int, seq<Repo>>,
                             seedRepos: seq<Repo>, normalizeLegacyFiles: bool)
    returns (plan: Plan)
    requires range.first >= 1
    ensures plan.Blocked? ==> plan.blockers != []
    ensures range.last < range.first || seedRepos == [] || !Clean(KeyedRecords(rawReviews)) ==> plan.Blocked?
    ensures RescanAsDecided(plan, old(LedgerOfLists(payload, overlay.dag)), range, KeyedRecords(rawReviews), registries, seedRepos)
    ensures plan.Ready? ==>
              ReadyIsSound(plan, old(LedgerOfLists(payload, overlay.dag)), overlay, range, KeyedRecords(rawReviews), registries, seedRepos)
    ensures plan.Ready? && normalizeLegacyFiles ==> NoLegacy(plan, range)
    ensures range.first <= range.last && seedRepos != [] && Clean(KeyedRecords(rawReviews)) ==>
              PlannedAsDecided(plan, old(LedgerOfLists(payload, overlay.dag)), range, KeyedRecords(rawReviews),
                               DecisionsOn(old(LedgerOfLists(payload, overlay.dag)), range, KeyedRecords(rawReviews), registries, seedRepos),
                               AllClaims(overlay.barriers, overlay.speedIndex))
    ensures range.first <= range.last && seedRepos != [] && Clean(KeyedRecords(rawReviews)) ==>
              PlannedInFull(plan, old(LedgerOfLists(payload, overlay.dag)), range, KeyedRecords(rawReviews),
                            DecisionsOn(old(LedgerOfLists(payload, overlay.dag)), range, KeyedRecords(rawReviews), registries, seedRepos),
                            KnownRepoPaths(seedRepos), AllClaims(overlay.barriers, overlay.speedIndex))
    ensures range.first <= range.last && seedRepos != [] && Clean(KeyedRecords(rawReviews)) ==>
              PlannedAsReviewed(plan, old(LedgerOfLists(payload, overlay.dag)), range, KeyedRecords(rawReviews), registries, seedRepos,
                                AllClaims(overlay.barriers, overlay.speedIndex))
  {
    hide *;
    var reviews, reviewBlockers := TakeReviews(rawReviews, payload, overlay.dag);
    var early := InputBlockers(range, seedRepos) + reviewBlockers;
    if early != [] {
      plan := Blocked(early);
      BlockedIsNotRescanned(plan, LedgerOfLists(payload, overlay.dag), range, KeyedRecords(rawReviews), registries, seedRepos);
      return;
    }
    plan := PlanRepairs(payload, overlay, range, reviews, registries, seedRepos, normalizeLegacyFiles);
  }
}

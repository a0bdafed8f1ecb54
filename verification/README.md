# Verified model of iriai-build-v2

This project models the parts of iriai-build-v2 that rewrite, count or agree on state, and proves what they keep.

- **The bulk repair of a feature's root DAG and its regroup overlay** (`Orders`, `RepairModel`, `TaskSplits`, `GroupMoves`, `RegroupOverlay`, `BulkRepair`, `RepairBook`, `RepairRun`, `RepairJob`, `ItemDecisions`, `RepairCourse`, `RepairLoop`, `ReviewRecords`, `LegacyFiles`, `RepairCopies`, `RepairResult`, `RepairPlan`, `RepairExamples`). Tasks, DAGs, id indexes and the overlay are objects that are changed in place: cross-repo tasks are split, repo paths assigned, tasks moved between groups, legacy file lists cleared, the original order resynced, the mapping recomputed, barriers validated and the range rescanned. The main result is `RepairPlan.BuildBulkRepairPlan`.
- **The bridge log** (`LogPipeline`, `BridgeLog`): the chunked reader, the capped lines, the bounded buffer and the cursor endpoint with its drop accounting. Beside it in the dashboard, the scanner over concatenated objects (`BraceScanner`) and the two computations of the active group (`GroupStatus`).
- **The snapshot outbox** (`SnapshotOutbox`): polls of any number of processes, interleaved between awaits, with failing inserts and versions that advance at any time.
- **The agent concurrency limiter** (`Limiter`): counters, lock and semaphore as a step machine over any number of callers, with cancellation at every suspension point, and the classes that implement its steps.
- **Release control** (`Adoption`, `Landing`, `Metrics`): the single-shot adoption marker, the landing gate, the test matrix and the metric verdict.
- **Texts that are hashed or clipped** (`JsonText`, `CanonicalJson`, `Digests`, `Utf8Clip`): the canonical JSON printer of RFC 8259 strings, integers, lists and objects with a reader that gives back what was printed, the digest payloads built with it, and UTF-8 clipping (RFC 3629).

Code that changes things step by step is a class or a method with loops here, proved against a function of its inputs or of the old state; the properties of that function are lemmas. `Text` holds the string operations of the language (`strip`, `split`, decimal text), `Wrappers` an option type.

## What the code does not keep

Where a property that the code or its documentation suggests is false of the code, the code is kept, the exact condition is proved and a concrete input shows the failure:

- A split id may equal an id that an order lists without a definition, because the check looks at the id indexes only; then it is listed twice. Orders that agree come out agreeing, with split originals traded for splits, exactly if this does not happen: `RepairExamples.UndefinedIdIsListedTwice`, `RepairPlan.BuildBulkRepairPlan`, `RepairResult.NoClashIff`, `RepairResult.ReviewsDoNotClash`.
- The registry path `/ /` normalizes to one space, a "known" repo path that leaves a task without an identity. When the tasks to be split are spelled like their ids and the overlay lists no id twice, the rescan of a plan that is not blocked fails exactly if some decision gives a blank path: `RepairModel.BlankRepoPathIsKnown`, `RepairExamples.BlankPathFailsRescan`, `RepairPlan.BuildBulkRepairPlan`.
- A root task whose id has surrounding spaces is indexed under the stripped id but split under the raw one; the index kept during the repair then differs from the index of the list, and the rescan may report the id again. The kept index is right exactly if the raw id is the stripped one: `RepairExamples.PaddedSplitFailsRescan`, `RepairModel.CoherentSplitIff`, `RepairBook.SplitCoherentIff`, `RepairBook.PaddedSplitLeaves`.
- A nameless task that depends on a split task does not stop the split, and its dependency dangles; no other dependency does: `RepairExamples.NamelessDependentDangles`, `TaskSplits.DanglingAfterSplitIff`.
- A carriage return at the end of a chunk is not stripped: `LogPipeline.ReturnIsCutOff`, `LogPipeline.ChunksDoNotMatterIff`.
- A process may cache a version that was never projected and never will be, exactly if the version advanced between the poll's two reads and no other poll inserted it or still holds it: `SnapshotOutbox.CacheCanHoldALostVersion`, `SnapshotOutbox.RecordLosesIff`.
- A checkpoint key with a leading zero, other digits or a newline at its end counts as complete in one of two computations only: `GroupStatus.LeadingZeroCountsToo`, `GroupStatus.BothActive`.
- A store that raises after it has stored the adoption marker leaves the feature adopted behind a refusal; the call made again finds the marker: `Adoption.AnswerIsExact`, `Adoption.RetryFinds`.
- Two strings with the same UTF-16 units print alike: `JsonText.PairsCollide`, `JsonText.QuoteIsExact`.
- A run with its first completed task can fail where a run with none passes: `Metrics.FirstTaskCanFail`, `Metrics.BetterPassesIff`.

## Model

| member | source | states |
|---|---|---|
| `Orders.ReplaceTaskIdInOrder` | src/iriai_build_v2/execution_control/adoption_migration.py:2423-2441 | the in-place rewrite of an order replaces exactly the occurrences of the id by the ids of the splits, group by group |
| `Orders.ReplaceTally` | src/iriai_build_v2/execution_control/adoption_migration.py:2423-2441 | on an order that lists the id at most once, the id is traded for the split ids and no other id is lost, added or repeated |
| `Orders.InReplacedGroup` | src/iriai_build_v2/execution_control/adoption_migration.py:2423-2441 | for any group, what it lists after a split: its other ids, and the split ids exactly if it listed the original |
| `Orders.SplitKeepsDupFreeIff` | src/iriai_build_v2/execution_control/adoption_migration.py:2423-2441 | a split keeps a duplicate-free order duplicate-free if and only if the split ids are pairwise different and none but the original is listed already |
| `Orders.SplitsStandInPlace` | src/iriai_build_v2/execution_control/adoption_migration.py:2423-2441 | where the original stood in a group, the split ids stand in their order, and what was listed before and behind it still is |
| `Orders.FindTaskGroup` | src/iriai_build_v2/execution_control/adoption_migration.py:2061-2065 | the first group that lists the task, none exactly when no group does |
| `Orders.MoveTaskInOrder` | src/iriai_build_v2/execution_control/adoption_migration.py:2068-2079 | the array of groups after a move: the id removed from its group and appended to the target |
| `Orders.MoveConserves` | src/iriai_build_v2/execution_control/adoption_migration.py:2068-2079 | a move keeps every id's count, leaves the id in the target group only, at its end, takes it out of its place in the source group, and moves no other id |
| `Orders.WithoutAt` | src/iriai_build_v2/execution_control/adoption_migration.py:2074-2076 | a group without an id it lists once is the rest before and behind it |
| `RepairModel.TaskIndex.Replace` | src/iriai_build_v2/execution_control/adoption_migration.py:2347-2358 | the index after a split: the original popped, the splits stored under their ids |
| `RepairModel.IndexedTasks` | src/iriai_build_v2/execution_control/adoption_migration.py:2456-2470 | an index holds every named task's id, and each entry is a task of the list under its own stripped id |
| `RepairModel.IndexedLast` | src/iriai_build_v2/execution_control/adoption_migration.py:2456-2470 | of tasks with the same stripped id the last one is indexed |
| `RepairModel.TasksStandInPlace` | src/iriai_build_v2/execution_control/adoption_migration.py:2400-2420 | where the original stood in a task list, the splits stand in their order, and the tasks before and behind it are as they were |
| `RepairModel.NormalizeIs` | src/iriai_build_v2/execution_control/adoption_migration.py:2505-2514 | a good repo path (relative, no drive, no home, no empty, dot or dot-dot part) is what any value that spells it comes to: with either slash, between slashes and inside spaces |
| `RepairModel.NormalizedIsGood` | src/iriai_build_v2/execution_control/adoption_migration.py:2505-2514 | and whatever a value comes to, if anything, is a good path that the value spells |
| `RepairModel.WithinByParts` | src/iriai_build_v2/execution_control/adoption_migration.py:1905-1907 | a path lies within a repo path exactly if its parts begin with those of the repo path |
| `RepairModel.ReindexAfterSplit` | src/iriai_build_v2/execution_control/adoption_migration.py:2347-2358 | when the root tasks under the id are spelled like it, re-indexing the rewritten task list gives exactly the index that was kept up to date by pop and add |
| `RepairModel.CoherentSplitIff` | src/iriai_build_v2/execution_control/adoption_migration.py:2347-2358 | the kept index is the index of the rewritten list if and only if the split task's raw id is the stripped id it is indexed under |
| `RepairModel.BlankRepoPathIsKnown` | src/iriai_build_v2/execution_control/adoption_migration.py:2505-2514 | the path `/ /` of a registry entry becomes one space and counts as a known repo path |
| `TaskSplits.DownstreamDependencies` | src/iriai_build_v2/execution_control/adoption_migration.py:2367-2375 | exactly the named tasks that depend on the id, in ascending order |
| `TaskSplits.CopyTaskForSplit` | src/iriai_build_v2/execution_control/adoption_migration.py:2378-2397 | a new task with the stripped id, its own name or the original's with the repo, the normalized repo path and exactly the selected paths of both path lists |
| `TaskSplits.KeptInPlace` | src/iriai_build_v2/execution_control/adoption_migration.py:2378-2397 | a split keeps exactly the selected paths, each where it stood |
| `TaskSplits.ReplaceTaskWithSplits` | src/iriai_build_v2/execution_control/adoption_migration.py:2400-2420 | task list and order after the rewrite; found exactly when the list defined the task |
| `TaskSplits.SpecBlockerIff` | src/iriai_build_v2/execution_control/adoption_migration.py:2283-2324 | a spec is accepted after the specs before it exactly when its id is fresh, its repo known and its paths are non-empty and within the task's |
| `TaskSplits.BuildSplits` | src/iriai_build_v2/execution_control/adoption_migration.py:2274-2338 | no blocker exactly when every spec is usable and the selected paths cover the task's; then the splits are those of the specs |
| `TaskSplits.CheckSplit` | src/iriai_build_v2/execution_control/adoption_migration.py:2250-2345 | no blocker exactly when the review is acceptable: no dependents, usable specs, exact coverage |
| `TaskSplits.CarryOutSplit` | src/iriai_build_v2/execution_control/adoption_migration.py:2347-2358 | both lists, both orders and both indexes rewritten; found exactly when the root DAG defines the task |
| `TaskSplits.ApplyReviewedTaskSplit` | src/iriai_build_v2/execution_control/adoption_migration.py:2239-2364 | all-or-nothing: an unacceptable split is reported and changes nothing; an acceptable one rewrites both DAGs and both indexes, and is reported as blocked exactly when the root DAG does not define the task |
| `TaskSplits.PathsAreSelected` | src/iriai_build_v2/execution_control/adoption_migration.py:2309-2324 | a task without any path can never be split |
| `TaskSplits.SplitIsSound` | src/iriai_build_v2/execution_control/adoption_migration.py:2378-2397 | each split of an accepted review has a fresh non-empty id, a known repo, at least one path and exactly the reviewed paths |
| `TaskSplits.SplitCoversPaths` | src/iriai_build_v2/execution_control/adoption_migration.py:2331-2338 | the splits' paths together are the original's, exactly |
| `TaskSplits.SplitIdsDistinct` | src/iriai_build_v2/execution_control/adoption_migration.py:2279-2300 | accepted splits have pairwise different ids, none of them in use |
| `TaskSplits.SplitKeepsDefinitions` | src/iriai_build_v2/execution_control/adoption_migration.py:2400-2420 | an accepted split removes the definition of its task and of no other id |
| `TaskSplits.DanglingAfterSplitIff` | src/iriai_build_v2/execution_control/adoption_migration.py:2250-2272 | a dependency on a defined task dangles after an accepted split exactly if it names the split task, and only a nameless task can hold such a dependency |
| `GroupMoves.DecisionOn` | src/iriai_build_v2/execution_control/adoption_migration.py:1977-2028 | a record is refused exactly if it asks for a move whose evidence, source or target is not usable, with the code of the first such condition; a move is carried out from the first group that lists the task to another group in range; an ignored target is where the task is already |
| `GroupMoves.CarryOut` | src/iriai_build_v2/execution_control/adoption_migration.py:2029-2032 | one accepted move on both working orders: from the found group to the target, in the root order only if the task and the target group are there |
| `GroupMoves.ApplyReviewedMove` | src/iriai_build_v2/execution_control/adoption_migration.py:1977-2035 | one record, edited in place, is one step of the specification on both orders, blockers, moved ids and affected groups |
| `GroupMoves.ApplyReviewedGroupMoves` | src/iriai_build_v2/execution_control/adoption_migration.py:1960-2044 | the whole in-place pass is the run of the specification over all records |
| `GroupMoves.RootGroupAfterOffset` | src/iriai_build_v2/execution_control/adoption_migration.py:2030-2032 | while the orders agree, a task of the derived order is found in the root order at or after the offset |
| `GroupMoves.MovesConserve` | src/iriai_build_v2/execution_control/adoption_migration.py:1960-2044 | over any list of records, refused ones included: no id lost or repeated in either order, the orders keep agreeing, sealed root groups and derived groups outside the range are the same lists |
| `GroupMoves.MovesPlace` | src/iriai_build_v2/execution_control/adoption_migration.py:1960-2044 | after an unblocked list of moves every reviewed task is in its target derived group and in no other |
| `GroupMoves.MovesAreExact` | src/iriai_build_v2/execution_control/adoption_migration.py:1960-2044 | every move that can be made on the orders as they are at the start ends with the task in its target group only, in the derived order and, if it has such a group, in the root order; and no other id changes its groups, whatever the order of the records |
| `GroupMoves.MovesAreReported` | src/iriai_build_v2/execution_control/adoption_migration.py:1969-2044 | the moved ids are those of exactly these records, in their order, the affected groups are those they left and came to, and a record is blocked exactly if it asks for a move that cannot be made, with the code of the first condition it misses |
| `GroupMoves.MovesKeepListed` | src/iriai_build_v2/execution_control/adoption_migration.py:1988-2016 | moves bring no task into the repaired range and take none out of it, whatever the orders are |
| `RegroupOverlay.Regroup.SyncOriginalOrder` | src/iriai_build_v2/execution_control/adoption_migration.py:2444-2453 | the original order becomes the root order from the offset on, when the offset is within it |
| `RegroupOverlay.IndexOriginalGroups` | src/iriai_build_v2/execution_control/adoption_migration.py:2093-2101 | the last group that lists each named task |
| `RegroupOverlay.Regroup.RecomputeMapping` | src/iriai_build_v2/execution_control/adoption_migration.py:2082-2126 | a key for exactly the original groups; each list strictly ascending and naming exactly the derived groups with a task of that group |
| `RegroupOverlay.MappingListsIntersections` | src/iriai_build_v2/execution_control/adoption_migration.py:2082-2126 | on a duplicate-free original order, derived group d is listed under original group g exactly when a named task lies in both |
| `RegroupOverlay.MappingListsLast` | src/iriai_build_v2/execution_control/adoption_migration.py:2082-2126 | on any original order, derived group d is listed under original group g exactly when a named task of d has g for the last original group that lists it |
| `RegroupOverlay.MappingCovers` | src/iriai_build_v2/execution_control/adoption_migration.py:2082-2126 | when both orders hold the same ids, every named task of a derived group is accounted for under its original group |
| `RegroupOverlay.ClaimTasks` | src/iriai_build_v2/execution_control/adoption_migration.py:2177-2180 | first claim wins while the tasks of one barrier are added |
| `RegroupOverlay.ClaimFromSpeedIndex` | src/iriai_build_v2/execution_control/adoption_migration.py:2182-2187 | first claim wins while the speed index is added after the barriers |
| `RegroupOverlay.Regroup.BarrierByTask` | src/iriai_build_v2/execution_control/adoption_migration.py:2159-2188 | a task has the barrier of the first hard barrier record with an id that lists it, or else of the first entry of the speed index that names one for it, and no other task has one |
| `RegroupOverlay.HeldMeans` | src/iriai_build_v2/execution_control/adoption_migration.py:2159-2188 | the first claim on a task, over all sources, is that of its first hard barrier record or else of its first speed entry |
| `RegroupOverlay.Regroup.ValidateHardBarriers` | src/iriai_build_v2/execution_control/adoption_migration.py:2129-2156 | approves exactly when no derived group holds two tasks with different hard barriers; reported are the first 20 such groups |
| `RegroupOverlay.MixedGroupsExact` | src/iriai_build_v2/execution_control/adoption_migration.py:2138-2150 | the groups to be reported are exactly the mixed ones, in ascending order |
| `BulkRepair.ScanGroups` | src/iriai_build_v2/execution_control/adoption_migration.py:2527-2562 | the in-place scan reports the lacking tasks of the groups in range, in order |
| `BulkRepair.ScanIsExact` | src/iriai_build_v2/execution_control/adoption_migration.py:2527-2562 | an item is reported exactly when its group is in range and lists the task and the task lacks an identity (the root definition decides, the overlay's only if the root has none) |
| `BulkRepair.ReportedIds` | src/iriai_build_v2/execution_control/adoption_migration.py:2527-2562 | an id is reported exactly when a group in range lists it and it lacks an identity |
| `BulkRepair.ScanTally` | src/iriai_build_v2/execution_control/adoption_migration.py:2527-2562 | no id is reported more often than the order lists it |
| `BulkRepair.ScanInOrder` | src/iriai_build_v2/execution_control/adoption_migration.py:2527-2562 | the items come group by group, and within a group in its order |
| `RepairBook.SplitKeepsCoherent` | src/iriai_build_v2/execution_control/adoption_migration.py:2347-2358 | a split of a task spelled like its id keeps both indexes coherent with their task lists |
| `RepairBook.SplitCoherentIff` | src/iriai_build_v2/execution_control/adoption_migration.py:2347-2358 | after an accepted split the kept root index is that of the root list if and only if the task's raw id is stripped |
| `RepairBook.PaddedSplitLeaves` | src/iriai_build_v2/execution_control/adoption_migration.py:2347-2358 | what the split of a padded task leaves under its stripped id: nothing in the root list, in the overlay list exactly the tasks spelled differently, and the orders still list it |
| `RepairBook.SplitKeepsTrade` | src/iriai_build_v2/execution_control/adoption_migration.py:2423-2441 | one more split with unlisted ids keeps agreement, group counts and sealed groups, and trades the id for its splits in both orders |
| `RepairRun.RepairBySplit` | src/iriai_build_v2/execution_control/adoption_migration.py:1103-1134 | the split branch goes through exactly when the review is acceptable and the root DAG defines the task; then lists, orders, indexes and repo paths change as the split says and nothing else does |
| `RepairRun.SetTaskRepoPath` | src/iriai_build_v2/execution_control/adoption_migration.py:2517-2524 | one index: the task under the id gets the path, every other task keeps its own |
| `RepairRun.RepairByPath` | src/iriai_build_v2/execution_control/adoption_migration.py:1180-1181 | both indexed tasks get the path and no other task does |
| `RepairRun.Decide` | src/iriai_build_v2/execution_control/adoption_migration.py:1093-1178 | a stop always carries a blocker, an assigned path is a known repo path, a split is the review's |
| `RepairRun.RepairTask` | src/iriai_build_v2/execution_control/adoption_migration.py:1093-1189 | one task: the outcome is exactly the one decided, and a split goes through exactly when it can |
| `RepairRun.RepairOne` | src/iriai_build_v2/execution_control/adoption_migration.py:1083-1189 | one id, the working copy first and the payload's task otherwise: what is decided from the scopes is what happens; a round whose decision is no split leaves lists, indexes and legacy files alone |
| `RepairJob.ReplayBlockers` | src/iriai_build_v2/execution_control/adoption_migration.py:1081-1189 | a loop whose decisions all come out as expected reports no blocker exactly when no decision is a stop |
| `RepairJob.ReplayMade` | src/iriai_build_v2/execution_control/adoption_migration.py:1081-1189 | the ids it creates are exactly those its split decisions name |
| `RepairJob.ReplayIs` | src/iriai_build_v2/execution_control/adoption_migration.py:1081-1189 | its blockers are those of the stops, the ids gone are those of the splits, and the affected groups are those of all other items |
| `RepairJob.DecidedBefore` | src/iriai_build_v2/execution_control/adoption_migration.py:1082-1102 | the decision on an item during the loop is the one taken on the payload before it, unless its task is a split created meanwhile |
| `RepairJob.AssignedKeeps` | src/iriai_build_v2/execution_control/adoption_migration.py:1180-1189 | an assignment keeps what holds of the loop: unsplit tasks still there, repo paths as decided or as before, only pending or blank-pathed ids lacking |
| `RepairJob.SplitKeeps` | src/iriai_build_v2/execution_control/adoption_migration.py:1103-1134 | a split of a task spelled like its id keeps the same |
| `RepairCourse.AssignedOnCourse` | src/iriai_build_v2/execution_control/adoption_migration.py:1180-1189 | with different items, an assignment keeps the loop on course: it has done what was decided, the items to come are as scanned, and exactly the blank-pathed ids lack |
| `RepairCourse.SplitOnCourse` | src/iriai_build_v2/execution_control/adoption_migration.py:1103-1134 | a split keeps the loop on course |
| `RepairCourse.SplitKeepsOrders` | src/iriai_build_v2/execution_control/adoption_migration.py:2400-2441 | while no created id clashes with an undefined listed one, agreeing orders trade split originals for splits |
| `RepairCourse.ClashBreaksTrade` | src/iriai_build_v2/execution_control/adoption_migration.py:2293-2300 | if a created id clashes, the orders cannot have traded: the id is listed twice |
| `RepairCourse.SplitKeepsDownstream` | src/iriai_build_v2/execution_control/adoption_migration.py:2250-2272 | a split changes nothing about which ids have named dependents, since the splits inherit the dependencies |
| `RepairCourse.PassesOnCourse` | src/iriai_build_v2/execution_control/adoption_migration.py:2250-2338 | whether a split passes its checks in the state of the loop is what can be said before the loop |
| `RepairLoop.RefusedIff` | src/iriai_build_v2/execution_control/adoption_migration.py:1093-1134 | on course, an item is refused exactly if its decision does not go through as said before the loop |
| `RepairLoop.Round` | src/iriai_build_v2/execution_control/adoption_migration.py:1082-1189 | one iteration, with the record of the item's own id, keeps all that is claimed of the loop, blockers or not |
| `RepairLoop.RepairAll` | src/iriai_build_v2/execution_control/adoption_migration.py:1081-1189 | the whole loop: without a blocker every task to be repaired is repaired or has a blank path and the state is as promised; it is blocked exactly if some decision does not go through; without splits its record is the one decided before it, blockers included, with the records looked up by id (`ItemDecisions.DecidedAsReviewed`) |
| `ItemDecisions.SpansIff` | src/iriai_build_v2/execution_control/adoption_migration.py:1094-1103 | a task is to be split exactly if its paths lie in two different repositories of the seed registry |
| `ItemDecisions.SpanningIsSplit` | src/iriai_build_v2/execution_control/adoption_migration.py:1103-1126 | then it is split by the specs of the record whose id is the task's own, and stops with a call for a split if there are none |
| `ItemDecisions.ChosenIsSupplied` | src/iriai_build_v2/execution_control/adoption_migration.py:1136-1151 | otherwise the path is that of the task's own record if it overrides, else that of the only repository of the group's registry that claims the task, else that of its own record |
| `ItemDecisions.OthersAreAssigned` | src/iriai_build_v2/execution_control/adoption_migration.py:1136-1178 | it is assigned exactly if it is known and, when a record gives it, that record's evidence is usable; the stop says whether there was no path, more than one claim, or no usable one |
| `ItemDecisions.DecidedAsReviewed` | src/iriai_build_v2/execution_control/adoption_migration.py:1081-1189 | every decision of the loop settles its item exactly if the raw records, registries and seed repositories do, and gives the ids and paths that they give |
| `ItemDecisions.SplitRepoPathsIs` | src/iriai_build_v2/execution_control/adoption_migration.py:2359-2364 | a split records for each id the normalized path of its last spec |
| `ItemDecisions.ReplayResolved` | src/iriai_build_v2/execution_control/adoption_migration.py:1081-1189 | the resolved path of an id is the one given last |
| `ItemDecisions.ReplayAsReviewed` | src/iriai_build_v2/execution_control/adoption_migration.py:1081-1189 | so a loop that does what was decided resolves exactly the ids, each to exactly the path, that the raw records, registries and seed repositories give |
| `ItemDecisions.StopsAsReviewed` | src/iriai_build_v2/execution_control/adoption_migration.py:1081-1189 | and it stops somewhere exactly if some item is settled by none of them |
| `ReviewRecords.NormalizeReviews` | src/iriai_build_v2/execution_control/adoption_migration.py:1764-1806 | no blocker exactly when every record has an id of its own and no blocker; then all records are kept under their stripped ids |
| `ReviewRecords.IntakeIsExact` | src/iriai_build_v2/execution_control/adoption_migration.py:1764-1806 | for any records: those kept have ids of their own, and nothing is reported exactly when every record is kept and clean |
| `ReviewRecords.IntakeIs` | src/iriai_build_v2/execution_control/adoption_migration.py:1764-1806 | kept are exactly the first records of each id, and what is objected to each record: no id, an id that an earlier one has, or a blocker of its own |
| `LegacyFiles.NormalizeLegacyFiles` | src/iriai_build_v2/execution_control/adoption_migration.py:2191-2222 | exactly the tasks of in-range groups that have a file scope lose their legacy file list, and the ids reported are exactly those that had one |
| `RepairCopies.CopiedIndex` | src/iriai_build_v2/execution_control/adoption_migration.py:1049-1055 | the index of the copies has the keys of the original index and tasks with the same contents |
| `RepairCopies.ScanFinds` | src/iriai_build_v2/execution_control/adoption_migration.py:1035-1048 | the scan of a payload finds exactly the ids that a group in range lists and that lack an identity |
| `RepairCopies.ScannedAreDistinct` | src/iriai_build_v2/execution_control/adoption_migration.py:1035-1048 | an overlay that lists no id twice is scanned into different items |
| `RepairCopies.ScanLists` | src/iriai_build_v2/execution_control/adoption_migration.py:1270-1285 | a scan of freshly indexed task lists, before the loop and after it, and what it leaves alone |
| `RepairCopies.SetUp` | src/iriai_build_v2/execution_control/adoption_migration.py:1035-1055 | scan, copies and indexes start the loop with all that is claimed of it, and its decisions are those on the payload |
| `RepairCopies.RunRepair` | src/iriai_build_v2/execution_control/adoption_migration.py:1035-1189 | scan, copies and loop on any payload: what is claimed of the loop holds at its end |
| `RepairResult.ListsLack` | src/iriai_build_v2/execution_control/adoption_migration.py:1270-1285 | for ids the overlay lists, the final task lists and the kept indexes agree on who lacks an identity |
| `RepairResult.CourseClears` | src/iriai_build_v2/execution_control/adoption_migration.py:1081-1189 | after a loop on course the range is clear exactly if no decision gave a blank repo path |
| `RepairResult.CourseKeys` | src/iriai_build_v2/execution_control/adoption_migration.py:2347-2358 | after it the root list defines exactly the ids it defined, split originals traded for splits; both lists together do so when the overlay's ids are stripped |
| `RepairResult.MovesKeepTrade` | src/iriai_build_v2/execution_control/adoption_migration.py:1191-1204 | the moves keep the trade of ids, the agreement and the sealed groups, and reach every target |
| `RepairResult.RunDelivers` | src/iriai_build_v2/execution_control/adoption_migration.py:1035-1204 | an unblocked run whose split tasks are spelled like their ids delivers all that is promised |
| `RepairResult.FullRuns` | src/iriai_build_v2/execution_control/adoption_migration.py:1035-1204 | splits included, on an overlay that lists no id twice: whether the loop is blocked and which orders the splits and moves leave, exactly |
| `RepairResult.NoClashIff` | src/iriai_build_v2/execution_control/adoption_migration.py:2293-2300 | no created id clashes exactly if no split decision names an id that is listed without a definition |
| `RepairResult.ReviewsDoNotClash` | src/iriai_build_v2/execution_control/adoption_migration.py:2293-2300 | it suffices that no review names such an id for a split |
| `RepairResult.TrimmedIsSpelled` | src/iriai_build_v2/execution_control/adoption_migration.py:2347-2358 | tasks with stripped ids are spelled like the ids they are indexed under |
| `RepairPlan.MoveGroups` | src/iriai_build_v2/execution_control/adoption_migration.py:1191-1204 | the moves of the plan are the run of the specification on both orders and change nothing else |
| `RepairPlan.RepairAndMove` | src/iriai_build_v2/execution_control/adoption_migration.py:1035-1204 | loop and moves on fresh copies: what every run guarantees, blocked or not, with splits or without |
| `RepairPlan.ClearLegacyFiles` | src/iriai_build_v2/execution_control/adoption_migration.py:1206-1222 | clears exactly the legacy lists of the range, if asked for, and touches neither orders nor repo paths |
| `RepairPlan.FinishOverlay` | src/iriai_build_v2/execution_control/adoption_migration.py:1223-1234 | resynced original order, a mapping that matches both orders, and approval exactly when no derived group mixes hard barriers |
| `RepairPlan.FinishPlan` | src/iriai_build_v2/execution_control/adoption_migration.py:1206-1299 | blocked exactly when something was blocked before or barriers are mixed; otherwise the rescan fails exactly when the range is not clear, and reports what a scan finds |
| `RepairPlan.FinishedAsReviewed` | src/iriai_build_v2/execution_control/adoption_migration.py:1035-1358 | the resolved paths and the blocking of a plan, said of the raw records, registries and seed repositories |
| `RepairPlan.PlanRepairs` | src/iriai_build_v2/execution_control/adoption_migration.py:1035-1358 | the plan for reviews that are in order: when it is blocked, when its rescan fails, and what it has when it is ready |
| `RepairPlan.BuildBulkRepairPlan` | src/iriai_build_v2/execution_control/adoption_migration.py:861-1358 | bad ranges, registries and reviews block. A ready plan has a clear range, a correct mapping, no mixed barriers and, if asked for, no legacy list left in the range. If the tasks to be split are spelled like their ids: every unsplit task is still defined as it was, repo paths are those decided or those there were; on an overlay that lists no id twice the rescan fails exactly if the plan is not blocked and some decision gives a blank repo path, and the record is the decided one; agreeing orders come out agreeing with originals traded for splits, sealed groups untouched and targets reached, exactly if no created id is one they listed without a definition. Whether the plan is blocked and which orders it has are decided exactly: on any payload without splits, and with splits on an overlay that lists no id twice, when root tasks that share a split id share their dependencies. Said of the raw inputs: the resolved paths of a ready plan are exactly those that the records, registries and seed repositories give its items; and where no item spans repositories, the plan is blocked exactly if they settle some item not at all, a move is refused or barriers are mixed |
| `RepairExamples.NamelessDependentDangles` | src/iriai_build_v2/execution_control/adoption_migration.py:2367-2375 | the failing input: a nameless task depends on the task that is split, the split goes through, and the dependency dangles |
| `RepairExamples.UndefinedIdIsListedTwice` | src/iriai_build_v2/execution_control/adoption_migration.py:2293-2300 | the failing input: on agreeing orders a split id equal to an id that is listed without a definition passes all checks and is listed twice |
| `RepairExamples.PaddedSplitFailsRescan` | src/iriai_build_v2/execution_control/adoption_migration.py:2347-2358 | the failing input: a root task spelled with spaces is split, the overlay's own task of that stripped id stays, and the rescan reports it |
| `RepairExamples.BlankPathFailsRescan` | src/iriai_build_v2/execution_control/adoption_migration.py:1270-1299 | the failing input: a sole workspace claim with the path `/ /` makes a plan that fails its own rescan |
| `LogPipeline.ChunksDoNotMatterIff` | dashboard.py:212-243 | the emitted lines do not depend on where the stream is cut if and only if no cut falls inside the carriage returns before a newline |
| `LogPipeline.ReturnIsCutOff` | dashboard.py:229-232 | the failing input: a carriage return and its newline in two chunks, whatever the cap |
| `LogPipeline.NoReturnsCleanCuts` | dashboard.py:229-232 | text without carriage returns can be cut anywhere |
| `LogPipeline.ReaderIsExact` | dashboard.py:212-265 | text in chunks cut anywhere but inside the returns before a newline is emitted as its newline-separated pieces without trailing returns and a non-empty last piece: a piece within the cap as it is, a longer one as its first characters, the note, and in it the digits of the number of the others |
| `LogPipeline.ShownIsExact` | dashboard.py:260-271 | a line longer than the cap is shown as its first cap characters, ` ... [truncated bridge log line by `, the digits of the number of the others and ` chars]`; any other line as it is |
| `LogPipeline.CutIsPieces` | dashboard.py:220-241 | one chunk read with a line open gives the pieces of the chunk between its newlines, all but the last without their trailing returns, the first one behind what was open |
| `LogPipeline.TwoChunks` | dashboard.py:220-241 | two chunks give as many lines and the same open line as the whole, and the same lines unless the cut splits the returns before a newline, which makes them longer |
| `LogPipeline.AllChunks` | dashboard.py:212-243 | the same for any number of chunks |
| `LogPipeline.WholeIsPieces` | dashboard.py:221-239 | one pass over a text gives its pieces, each closed one without trailing returns |
| `LogPipeline.PiecesAreSplit` | dashboard.py:221-239 | the pieces are what splitting at newlines gives |
| `LogPipeline.ShownTellsLength` | dashboard.py:260-262 | a line's shown form determines its full length |
| `BridgeLog.BridgeManager.constructor` | dashboard.py:125-132 | an empty log with its buffer capacity |
| `BridgeLog.BridgeManager.AppendLine` | dashboard.py:267-277 | the history grows by the line, cut to the cap with the digits of the number of omitted characters unless it was cut before, the buffer keeps its newest lines, and the truncated count grows exactly for shortened lines or lines that mention a truncation |
| `BridgeLog.BridgeManager.AppendLogFragment` | dashboard.py:245-258 | pending text and omitted count stay those of the whole line read so far |
| `BridgeLog.BridgeManager.EmitLogLine` | dashboard.py:260-265 | the line emitted is the whole line cut to the cap, with the digits of the number of omitted characters |
| `BridgeLog.ShortenedIsCounted` | dashboard.py:260-273 | every shortened line carries the phrase by which the appender counts it |
| `BridgeLog.BridgeManager.ReadChunk` | dashboard.py:220-239 | one chunk appends exactly its completed lines |
| `BridgeLog.BridgeManager.ReadOutput` | dashboard.py:212-243 | the whole reader appends exactly the emitted lines of its chunks and then the exit note, each cut to the cap with the digits of the number of omitted characters |
| `BridgeLog.BridgeManager.BridgeLogs` | dashboard.py:4300-4325 | the response is the newest lines after the cursor that buffer and response cap allow, and received plus dropped is exactly the distance to the cursor |
| `BridgeLog.PollOnce` | dashboard-ui/src/components/Terminal.tsx:25-38 | one poll of the terminal is one poll step of the run model, its display cut to the newest 5000 lines included |
| `BridgeLog.NothingUnaccounted` | dashboard-ui/src/components/Terminal.tsx:25-38 | over any run of appends and polls from cursor zero, lines received plus lines reported dropped is the cursor, the received lines stand at increasing places of the history, and the newest 5000 of them are shown |
| `BridgeLog.PromptPollsMissNothing` | dashboard.py:4300-4325 | if every poll comes before buffer and response cap are exceeded, the terminal has received the whole history up to its cursor |
| `BraceScanner.ParseFixAttempts` | dashboard.py:1332-1353 | the loop keeps exactly the usable ones of the candidates that the scanner finds, in order |
| `BraceScanner.UsableConcat` | dashboard.py:1345-1350 | what is kept of candidates one after another is what is kept of each, in order |
| `BraceScanner.UsableOne` | dashboard.py:1345-1350 | one candidate is kept exactly if it parses as an attempt |
| `BraceScanner.FindsWholeObjects` | dashboard.py:1338-1352 | on any prefix of balanced objects separated by text without braces, the candidates are exactly the objects wholly within the prefix, in order |
| `BraceScanner.FindsAllObjects` | dashboard.py:1338-1352 | on the whole text every object is found |
| `GroupStatus.GroupStatuses` | dashboard.py:776-916 | every group is complete exactly when its key is there, active when it is the first that is not, pending otherwise, the appended enhancement group included |
| `GroupStatus.OneActiveAtMost` | dashboard.py:776-916 | at most one group is active, and none exactly when all are complete |
| `GroupStatus.ActiveGroupIndex` | dashboard.py:2075-2089 | the first index that no checkpoint key gives, none if all are given; keys with any digits of the pattern's class, and with a newline at the end, give an index too |
| `GroupStatus.BothActive` | dashboard.py:2075-2089 | both computations name the same group if and only if no other spelling of the first missing key is among the keys |
| `GroupStatus.LeadingZeroCountsToo` | dashboard.py:2076-2080 | the failing input: with a zero-padded key the group list has group 0 active and the index search finds no group left |
| `GroupStatus.GroupKeyReads` | dashboard.py:780-781 | the key of a group reads back as its index |
| `GroupStatus.GroupOfKeyIff` | dashboard.py:2076-2080 | a key reads as a group exactly if it is the prefix and digits of the class, with a newline at its end or none, and then as the value of the digits |
| `SnapshotOutbox.EventIdIsInjective` | src/iriai_build_v2/public_dashboard.py:656-669 | different features or versions never share an event id |
| `SnapshotOutbox.EventIdReads` | src/iriai_build_v2/public_dashboard.py:656-669 | the text behind an event id reads as the feature, the version and the event type, one quoted string a line |
| `SnapshotOutbox.StepKeeps` | src/iriai_build_v2/public_dashboard.py:705-752 | every step of any poll in any process keeps the protocol invariant |
| `SnapshotOutbox.AtMostOneRow` | src/iriai_build_v2/public_dashboard.py:278-308 | in every run no version of a feature is inserted twice, inserted versions existed, and the event id is in the table exactly when that version was inserted |
| `SnapshotOutbox.CachedCurrentHasRow` | dashboard.py:1578-1591 | in every run, a process that has the current version cached implies that version's row was inserted |
| `SnapshotOutbox.UndisturbedPollInserts` | src/iriai_build_v2/public_dashboard.py:672-752 | a poll that neither fails nor sees the version change ends with the row inserted, whatever other polls and processes do |
| `SnapshotOutbox.CachedPollSkips` | src/iriai_build_v2/public_dashboard.py:705-733 | if the process has the current version cached when a poll asks, and the version does not advance before the poll reads it again, the poll never reads the snapshot, never inserts and is never about to |
| `SnapshotOutbox.PollReadsIff` | src/iriai_build_v2/public_dashboard.py:705-733 | a poll that does not fail and is not overtaken comes to read the snapshot if and only if its process had no version or another one cached when it asked |
| `SnapshotOutbox.PollInsertsWhatItRead` | src/iriai_build_v2/public_dashboard.py:734-752 | a poll inserts the version that was current when it read the snapshot, at the end of the table, unless the table has it |
| `SnapshotOutbox.OnlyInsertsInsert` | src/iriai_build_v2/public_dashboard.py:278-308 | no other step adds a row |
| `SnapshotOutbox.RecordLosesIff` | dashboard.py:1578-1591 | a poll records a version without a row only if the version advanced between its two reads, and the version is then lost exactly if no poll inserted it or still holds it |
| `SnapshotOutbox.CacheCanHoldALostVersion` | dashboard.py:1578-1591 | the cache is not a record of projected versions: a run after which a process has a version cached whose row never appears in any continuation |
| `Utf8Clip.DecodeEncode` | src/iriai_build_v2/public_dashboard.py:519-524 | decoding undoes encoding (RFC 3629, section 3) |
| `Utf8Clip.EncodedForm` | src/iriai_build_v2/public_dashboard.py:520-520 | the encoding has the forms of section 3 of RFC 3629: the least number of bytes, told by the first one, the others between 0x80 and 0xBF |
| `Utf8Clip.DecodeClipped` | src/iriai_build_v2/public_dashboard.py:523-523 | decoding the first bytes of an encoded text while ignoring errors gives its first whole code points |
| `Utf8Clip.FittingIsLongest` | src/iriai_build_v2/public_dashboard.py:523-523 | that many code points fit, one more would not, and at most three bytes of the limit go unused |
| `Utf8Clip.BoundedTextIsExact` | src/iriai_build_v2/public_dashboard.py:519-524 | text that fits is kept; any other text becomes the longest prefix of whole code points that fits and a note with the digits of its byte length, for negative limits too |
| `JsonText.IntReads` | src/iriai_build_v2/execution_control/completeness.py:451-451 | an integer's text, followed by anything but a digit, reads as the integer |
| `JsonText.FromUtf16Inverts` | src/iriai_build_v2/execution_control/completeness.py:451-451 | decoding UTF-16 undoes encoding, unless a surrogate pair was held as two code points |
| `JsonText.QuoteReads` | src/iriai_build_v2/execution_control/completeness.py:451-451 | a quoted string reads, by the escapes of section 7 of RFC 8259, as its UTF-16 units, and so as itself unless it holds a surrogate pair as two code points |
| `JsonText.QuoteIsExact` | src/iriai_build_v2/execution_control/completeness.py:451-451 | two strings print alike exactly when their UTF-16 units agree, so exactly when they are equal if neither holds a surrogate pair as two code points |
| `JsonText.EscapeIsShortest` | src/iriai_build_v2/execution_control/completeness.py:451-451 | no printable ASCII text reads as a unit in fewer characters than its escape, and none in as many but the escape itself, save for the case of its hexadecimal digits |
| `JsonText.EscapedIsShortest` | src/iriai_build_v2/execution_control/completeness.py:451-451 | so none reads as a string in fewer characters than its quoted text, which is printable ASCII |
| `JsonText.PairsCollide` | src/iriai_build_v2/execution_control/completeness.py:451-451 | the failing input: a surrogate pair held as two code points prints like the code point it encodes |
| `JsonText.ValueReads` | src/iriai_build_v2/execution_control/completeness.py:451-451 | a printed value, followed by anything, reads back as it is, fields in the order they were printed |
| `JsonText.Unambiguous` | src/iriai_build_v2/execution_control/completeness.py:451-451 | a printed value followed by anything can be read in one way only |
| `JsonText.PartsRead` | src/iriai_build_v2/public_dashboard.py:81-83 | the text of a tuple of strings reads back, one quoted string a line, as the tuple |
| `JsonText.PartsTextIsExact` | src/iriai_build_v2/public_dashboard.py:81-83 | two tuples of strings give the same idempotency text exactly when they are equal |
| `CanonicalJson.BeforeIff` | src/iriai_build_v2/execution_control/completeness.py:451-451 | a key comes before another exactly if at the first place where they differ it has the smaller code point or ends |
| `CanonicalJson.SortedIsUnique` | src/iriai_build_v2/execution_control/completeness.py:451-451 | sorted fields are determined by what each key holds |
| `CanonicalJson.CanonKeepsMeaning` | src/iriai_build_v2/execution_control/completeness.py:451-451 | sorting the fields at every level changes no value |
| `CanonicalJson.CanonIsSorted` | src/iriai_build_v2/execution_control/completeness.py:451-451 | and leaves the keys of every object in ascending order |
| `CanonicalJson.SameMeaningSameCanon` | src/iriai_build_v2/execution_control/completeness.py:523-533 | values that mean the same have one canonical form, in whatever order their keys were inserted |
| `CanonicalJson.CanonicalTextReads` | src/iriai_build_v2/execution_control/completeness.py:437-451 | the canonical text is JSON text without white space that reads as a value of the same meaning, with the keys of every object in ascending order |
| `CanonicalJson.CanonicalTextIsExact` | src/iriai_build_v2/execution_control/completeness.py:437-451 | the canonical text of two values is the same exactly when they mean the same |
| `Digests.CompletenessTextIsExact` | src/iriai_build_v2/execution_control/completeness.py:497-575 | two completeness records are digested from the same text exactly when all seven fields agree, page by page, integer and string source ids apart |
| `Digests.CompletenessTextReads` | src/iriai_build_v2/execution_control/completeness.py:497-575 | the text digested for a record reads as an object, keys in ascending order, with the seven values of the record under their names and no other, its pages as objects with their nine values under their names |
| `Digests.PageFromMeaning` | src/iriai_build_v2/execution_control/completeness.py:484-494 | a page's nine-key projection determines the page |
| `Digests.PayloadTextIsExact` | src/iriai_build_v2/execution_control/commit_provenance.py:651-701 | the payload text ignores the digest field and the order of keys, and nothing else |
| `Digests.PayloadTextReads` | src/iriai_build_v2/execution_control/commit_provenance.py:651-701 | the payload text reads as an object with the fields of the payload but `payload_sha256`, in ascending order |
| `Digests.DigestIsStable` | src/iriai_build_v2/execution_control/commit_provenance.py:651-701 | storing the digest in the payload leaves the text it was computed from unchanged, so recomputing after a load gives the stored value |
| `Limiter.StepKeeps` | src/iriai_build_v2/agent_concurrency.py:33-99 | every segment between suspension points keeps the invariant |
| `Limiter.CountersAreExact` | src/iriai_build_v2/agent_concurrency.py:33-99 | in every run, with any cancellations: active counts the callers in the body and never exceeds the maximum, queued counts the callers waiting, and active, free permits and permits on their way add up to the maximum; active plus free is the maximum exactly when none is on its way |
| `Limiter.AllDone` | src/iriai_build_v2/agent_concurrency.py:76-99 | when all callers have finished both counters are zero and every permit is back |
| `Limiter.NoLostWakeup` | src/iriai_build_v2/agent_concurrency.py:57-59 | a caller waits without a permit on its way to anybody only while the body is full |
| `Limiter.SomebodyMoves` | src/iriai_build_v2/agent_concurrency.py:57-99 | while anyone is inside or waiting, some caller can resume or leave |
| `Limiter.CanDrain` | src/iriai_build_v2/agent_concurrency.py:33-99 | from every reachable state the callers can all finish without anyone being cancelled |
| `Limiter.NoOvertaking` | src/iriai_build_v2/agent_concurrency.py:57-59 | once queued behind another caller, nobody is served while that one still waits |
| `Limiter.NoBarging` | src/iriai_build_v2/agent_concurrency.py:57-59 | nor is anyone who calls while another waits for a permit served before that one |
| `Limiter.EveryCallerIsServed` | src/iriai_build_v2/agent_concurrency.py:33-99 | nobody is turned away: in every run a caller that was not cancelled while it waited is in the body until it leaves, or still queued for it; and one that was cancelled while it waited never comes into the body |
| `Limiter.WakeAllKeeps` | src/iriai_build_v2/agent_concurrency.py:57-59 | handing out free permits keeps their number and the order of the queue, and leaves nobody waiting if some stay free |
| `Limiter.Semaphore.TryAcquire` | src/iriai_build_v2/agent_concurrency.py:57-59 | takes a permit at once exactly when one is free and nobody uncancelled queues, else joins the queue's end |
| `Limiter.Semaphore.FinishAcquire` | src/iriai_build_v2/agent_concurrency.py:57-59 | the waiter leaves the queue with its permit, or cancelled with any granted permit passed on |
| `Limiter.Semaphore.Release` | src/iriai_build_v2/agent_concurrency.py:92-92 | the permit goes to the first waiter that still waits |
| `Limiter.AgentConcurrencyLimiter.EnterSegment` | src/iriai_build_v2/agent_concurrency.py:41-66 | from the call to the wait, or into the body: the step of the model on lock, counters and semaphore, with the lock free at the end |
| `Limiter.AgentConcurrencyLimiter.ResumeSegment` | src/iriai_build_v2/agent_concurrency.py:58-83 | a waiting caller comes back into the body or out with its cancellation: the step of the model, with the lock free at the end |
| `Limiter.AgentConcurrencyLimiter.LeaveSegment` | src/iriai_build_v2/agent_concurrency.py:79-99 | the body ends normally or with any exception: the step of the model, with the lock free at the end |
| `Limiter.AgentConcurrencyLimiter.CancelSegment` | src/iriai_build_v2/agent_concurrency.py:57-58 | cancelling a waiting caller changes its future only |
| `Limiter.NewLimiter` | src/iriai_build_v2/agent_concurrency.py:15-23 | a maximum below one is refused; otherwise all permits are free and both counters zero |
| `Adoption.OneCall` | src/iriai_build_v2/execution_control/adoption.py:311-428 | one call changes at most the marker of its own feature, from none to a record that reads back as the one it wrote, and adds one write for it; every other marker reads as before |
| `Adoption.NothingIsOverwritten` | src/iriai_build_v2/execution_control/adoption.py:311-428 | what a call stores, it stores under the key of its own feature, where there was nothing or an empty body |
| `Adoption.MarkerMeans` | src/iriai_build_v2/execution_control/adoption.py:386-428 | a feature has no marker exactly if there is no body or an empty one under its key, and has a record for marker exactly if the body is the serialized form of an acceptable record |
| `Adoption.RefusalIsExact` | src/iriai_build_v2/execution_control/adoption.py:274-309 | refusals against the landing record, each exactly under its condition and in the source's order |
| `Adoption.AnswerIsExact` | src/iriai_build_v2/execution_control/adoption.py:311-383 | a call succeeds exactly when it writes the marker undisturbed or finds it; a corrupt marker, another adoption, an invalid record and a failing store are reported exactly under their conditions |
| `Adoption.RetryFinds` | src/iriai_build_v2/execution_control/adoption.py:311-383 | a call refused although its marker was stored succeeds when it is made again |
| `Adoption.Adopt` | src/iriai_build_v2/execution_control/adoption.py:211-383 | leaves a marker exactly when it comes to write and the store keeps it, even if the store then raises, and changes nothing otherwise |
| `Adoption.Guard` | src/iriai_build_v2/execution_control/adoption.py:464-547 | with the flag enabled it passes exactly when the body under the feature's key can be read and is the serialized form of an acceptable record; without the flag it passes and asks for nothing; a malformed flag or blank feature fails |
| `Adoption.AdoptAll` | src/iriai_build_v2/execution_control/adoption.py:211-383 | a sequence of calls is the run of the specification over the store |
| `Adoption.MarkerIsForGood` | src/iriai_build_v2/execution_control/adoption.py:311-351 | once a feature has a marker, no sequence of calls changes it or writes it again |
| `Adoption.NothingIsEverOverwritten` | src/iriai_build_v2/execution_control/adoption.py:311-351 | a stored body that holds anything is never overwritten by any sequence of calls |
| `Adoption.WrittenAtMostOnce` | src/iriai_build_v2/execution_control/adoption.py:311-383 | from an empty store a marker is written at most once in any sequence of calls, and then it stays readable |
| `Adoption.MarkersStandUnderGo` | src/iriai_build_v2/execution_control/adoption.py:276-383 | every marker was written by one of the calls, for the same commit and artifact up to surrounding whitespace, under a record with every required gate passed and nothing in the way |
| `Landing.EvaluateGoRequires` | src/iriai_build_v2/execution_control/atomic_landing.py:654-712 | the blockers are exactly what stands in the way, and it passes exactly when everything a go requires is there |
| `Landing.Validate` | src/iriai_build_v2/execution_control/atomic_landing.py:617-652 | a record is accepted exactly when its ids are non-blank and passed or go is claimed only if everything required is there, and passed only with go |
| `Landing.GateResultsMap` | src/iriai_build_v2/execution_control/atomic_landing.py:349-363 | exactly the required gates: the status of the entry of the gate that no later entry of the gate follows, missing if no entry has the gate |
| `Landing.MarkPassed` | src/iriai_build_v2/execution_control/atomic_landing.py:349-652 | a record filled from an evidence surface can be marked passed exactly when for each required gate the entry that no later entry of the gate follows passed, every other signal is present, no forbidden control or blocker is listed and the decision is go |
| `Landing.AllRequiredGroupsPassed` | src/iriai_build_v2/execution_control/atomic_landing.py:467-484 | passes exactly when the last row of every required group is passed and fresh |
| `Landing.LastRowIs` | src/iriai_build_v2/execution_control/atomic_landing.py:467-484 | the row of a group is the one that no later row of the group follows, none if no row has the group |
| `Landing.MissingOrFailingGroups` | src/iriai_build_v2/execution_control/atomic_landing.py:486-507 | exactly the offending required groups, each with its first offence, as texts in ascending order |
| `Landing.MatrixAgrees` | src/iriai_build_v2/execution_control/atomic_landing.py:467-507 | for any rows the matrix passes exactly when nobody is reported |
| `Metrics.EvaluateMetricsSuccess` | src/iriai_build_v2/execution_control/atomic_landing.py:1177-1289 | the reasons are exactly the conditions that fail, and it passes exactly when none does |
| `Metrics.VerdictMeans` | src/iriai_build_v2/execution_control/atomic_landing.py:1062-1289 | the verdict said of the counters, without a division: retries at most a quarter of the tasks or, by cross-multiplication, four fifths of the baseline rate; commit failures at most a twentieth where the baseline has next to none, else three quarters of its rate; stale projections at most one or half the baseline; the seven drag classes together at most 0.7 of the baseline hours; throughput at least 95 for 100; memory and storage less than a tenth more; and no regression, escalation or alias failure |
| `Metrics.BetterKeepsPassing` | src/iriai_build_v2/execution_control/atomic_landing.py:1062-1289 | with tasks done before and hours and weights positive, better counters never turn a passing verdict into a failing one |
| `Metrics.BetterPassesIff` | src/iriai_build_v2/execution_control/atomic_landing.py:1147-1174 | with the two zero denominators allowed, a better run passes if and only if its throughput is measured or none is asked for and, when no task was done before, its own ratios are within bounds |
| `Metrics.FirstTaskCanFail` | src/iriai_build_v2/execution_control/atomic_landing.py:1147-1158 | the failing input: doing one task instead of none makes a retry count into a ratio over its threshold |
| `Metrics.PlainConditionsKept` | src/iriai_build_v2/execution_control/atomic_landing.py:1161-1174 | regressions, drag and plain counters can only improve |
| `Metrics.ThroughputKept` | src/iriai_build_v2/execution_control/atomic_landing.py:1062-1144 | adjusted throughput over the tasks' weight and wall-clock can only rise |
| `Text.DecimalRoundTrip` | src/iriai_build_v2/public_dashboard.py:524-524 | an integer's decimal text is digits without a leading zero, behind a minus sign if it is negative, and reads back as the integer |
| `Text.TrimTakesOff` | src/iriai_build_v2/execution_control/adoption_migration.py:2505-2514 | stripping takes off only characters to be stripped |
| `Text.TrimIs` | src/iriai_build_v2/execution_control/adoption_migration.py:2505-2514 | and leaves the one text between them that neither begins nor ends with one |

## Left out

- BuildBulkRepairPlan: on an overlay that lists an id twice, a failing rescan and the effect of splits on the record are bounded (no known blank path, no failing rescan; every clause on tasks and repo paths holds) but not decided exactly.
- BuildBulkRepairPlan: starts after the artifacts are read and the adoption marker is checked; those checks (which fix the first group to be the one after the boundary) and their blockers are not part of it.
- NothingUnaccounted: polls do not overlap.
- Workspace registries of the groups are a parameter of the plan, not rebuilt from the tasks; the registry projections of affected groups and the review, audit, rollback and marker texts of a plan are not built.
- The plan's lists of changed, deterministic, reviewed and required ids are not modelled; split originals, created splits, moved ids, cleared ids, repo paths and affected groups of the loop are.
- Blocker messages and details are left out; a blocker is its code and task id.
- Task lists that are not lists and tasks that are not objects are not modelled. File paths with surrounding spaces are, but the results on a split's paths ask for paths without them.
- Split tasks do not inherit the barriers of their original, as in the code; nothing is promised about them.
- Normalizing a repo path twice is not the same as once; nothing is promised about it.
- Subscribers of the log, standard error output, subprocess control, byte decoding and the removal of terminal colour codes before the reader loop are not modelled.
- The body of a scanned object is opaque: whether it parses as an attempt is a parameter.
- The enhancement backlog's own parsing is a flag; labels, summaries, timeline text and durations of groups are not modelled.
- SHA-256 is not modelled: the results are about the texts that are hashed.
- Floating point numbers, booleans and null values print as in the code's records only; JSON numbers are integers, and the reader of JSON text knows neither white space nor fractions and exponents, of which canonical text has none.
- Numbers in the metrics are reals; rounding is not modelled.
- Delivery and deletion of outbox rows, transactions that hold a poll's connection open, and the pass-through wrapper of the outbox are not modelled; versions of a feature do not recur.
- A limiter without a maximum passes every call through and has no state; log messages and waiting times are not modelled. The event loop runs one segment at a time.
- Overlapping adoption calls can both find no marker and both write; the results are about calls one after the other.
- The adoption record's fields that no check reads (baseline, notes, disposition) are carried as one opaque part or dropped.
- The dashboard's HTTP routes, database access, tunnels and caches, and the public text scrubbing are input, output or display.

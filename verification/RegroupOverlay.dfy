/** The active regroup overlay: resync of the original order, the original-to-new group
    mapping, and the hard-barrier check. */
module RegroupOverlay {
  import opened Text
  import opened Orders
  import opened RepairModel

  /** A barrier record: `title` is the first non-empty of its id, barrier_id, name and kind. */
  datatype Barrier = Barrier(hard: bool, title: string, taskIds: seq<string>)

  datatype SpeedEntry = SpeedEntry(taskId: string, barrier: string)

  class Regroup {
    const dag: Dag
    const barriers: seq<Barrier>
    const speedIndex: seq<SpeedEntry>
    var originalOrder: Order
    var mapping: map<int, seq<int>>

    constructor (dag: Dag, barriers: seq<Barrier>, speedIndex: seq<SpeedEntry>, originalOrder: Order, mapping: map<int, seq<int>>)
      ensures this.dag == dag && this.barriers == barriers && this.speedIndex == speedIndex
      ensures this.originalOrder == originalOrder && this.mapping == mapping
    {
      this.dag, this.barriers, this.speedIndex := dag, barriers, speedIndex;
      this.originalOrder, this.mapping := originalOrder, mapping;
    }

    /** `_sync_regroup_original_order`. */
    method SyncOriginalOrder(root: Dag, offset: int)
      modifies this`originalOrder
      ensures originalOrder == if 0 <= offset <= |root.order| then root.order[offset..] else old(originalOrder)
    {
      if 0 <= offset <= |root.order| {
        originalOrder := root.order[offset..];
      }
    }

    /** `_recompute_regroup_original_to_new_mapping`. */
    method RecomputeMapping(offset: int)
      modifies this`mapping
      ensures MappingCorrect(mapping, originalOrder, dag.order, offset)
    {
      var groupByTask := IndexOriginalGroups(originalOrder, offset);
      var buckets := EmptyBuckets(originalOrder, offset);
      buckets := FillBuckets(buckets, groupByTask, originalOrder, dag.order, offset);
      mapping := SortBuckets(buckets, originalOrder, dag.order, offset);
    }

    /** `_regroup_hard_barrier_by_task_from_projection`: the first source to claim a task wins. */
    method BarrierByTask() returns (barrierOf: map<string, string>)
      ensures FirstClaims(barrierOf, AllClaims(barriers, speedIndex))
      ensures forall x, b :: HeldBy(barriers, speedIndex, x, b) <==> x in barrierOf && barrierOf[x] == b
    {
      barrierOf := map[];
      for i := 0 to |barriers|
        invariant FirstClaims(barrierOf, BarrierClaims(barriers[..i]))
      {
        assert barriers[..i + 1][..i] == barriers[..i];
        var id := BarrierId(barriers[i], i);
        if barriers[i].hard && id != "" {
          barrierOf := ClaimTasks(barrierOf, barriers[i].taskIds, id, BarrierClaims(barriers[..i]));
        } else {
          assert BarrierClaims(barriers[..i + 1]) == BarrierClaims(barriers[..i]);
        }
      }
      assert barriers[..|barriers|] == barriers;
      barrierOf := ClaimFromSpeedIndex(barrierOf, speedIndex, BarrierClaims(barriers));
      HeldMeans(barriers, speedIndex);
    }

    /** `_validate_regroup_hard_barriers`. */
    method ValidateHardBarriers(offset: int) returns (approved: bool, violations: seq<int>)
      ensures approved <==> forall k :: 0 <= k < |dag.order| ==> !Mixed(dag.order[k], AllClaims(barriers, speedIndex))
      ensures approved <==> forall k :: 0 <= k < |dag.order| ==> !MixesBarriers(dag.order[k], barriers, speedIndex)
      ensures violations == AtMostTwenty(MixedGroups(dag.order, AllClaims(barriers, speedIndex), offset))
    {
      hide Mixed, MixesBarriers, FirstClaims, AllClaims, HeldBy;
      var barrierOf := BarrierByTask();
      ghost var claims := AllClaims(barriers, speedIndex);
      violations := [];
      for k := 0 to |dag.order|
        invariant violations == MixedGroups(dag.order[..k], claims, offset)
      {
        assert dag.order[..k + 1][..k] == dag.order[..k];
        var mixed := IsMixed(dag.order[k], barrierOf, claims);
        if mixed {
          violations := violations + [offset + k];
        }
      }
      assert dag.order[..|dag.order|] == dag.order;
      NoneMixed(dag.order, claims, offset);
      forall k | 0 <= k < |dag.order| ensures Mixed(dag.order[k], claims) <==> MixesBarriers(dag.order[k], barriers, speedIndex) {
        MixedMeans(dag.order[k], barriers, speedIndex);
      }
      approved := violations == [];
      violations := AtMostTwenty(violations);
    }
  }

  // ---------------------------------------------------------------- the mapping

  /** The original group of each task; a task listed twice keeps its last group. */
  function OriginalGroups(original: Order, offset: int): map<string, int> {
    if original == [] then map[]
    else
      var n := |original| - 1;
      OriginalGroups(original[..n], offset) + map x | x in original[n] && x != "" :: offset + n
  }

  method IndexOriginalGroups(original: Order, offset: int) returns (groupByTask: map<string, int>)
    ensures groupByTask == OriginalGroups(original, offset)
  {
    groupByTask := map[];
    for i := 0 to |original|
      invariant groupByTask == OriginalGroups(original[..i], offset)
    {
      assert original[..i + 1][..i] == original[..i];
      groupByTask := IndexGroup(groupByTask, original[i], offset + i);
    }
    assert original[..|original|] == original;
  }

  /** The tasks of one group, over what was indexed before. */
  method IndexGroup(before: map<string, int>, group: Group, g: int) returns (groupByTask: map<string, int>)
    ensures groupByTask == before + map x | x in group && x != "" :: g
  {
    groupByTask := before;
    for j := 0 to |group|
      invariant groupByTask == before + map x | x in group[..j] && x != "" :: g
    {
      assert group[..j + 1] == group[..j] + [group[j]];
      if group[j] != "" {
        groupByTask := groupByTask[group[j] := g];
      }
    }
    assert group[..|group|] == group;
  }

  ghost predicate Ascending(s: seq<int>) {
    forall i, j :: 0 <= i < j < |s| ==> s[i] < s[j]
  }

  /** A task of the group has original group g. */
  ghost predicate Touches(group: Group, groupByTask: map<string, int>, g: int) {
    exists x :: x in group && x in groupByTask && groupByTask[x] == g
  }

  ghost predicate MappingCorrect(mapping: map<int, seq<int>>, original: Order, derived: Order, offset: int) {
    && (forall g :: g in mapping <==> 0 <= g - offset < |original|)
    && (forall g :: g in mapping ==> Ascending(mapping[g]))
    && (forall g, d :: g in mapping ==>
         (d in mapping[g] <==> 0 <= d - offset < |derived| && Touches(derived[d - offset], OriginalGroups(original, offset), g)))
  }

  /** The buckets after the first k derived groups and j tasks of the next. */
  ghost predicate BucketsHold(buckets: map<int, seq<int>>, groupByTask: map<string, int>, original: Order, derived: Order,
                              offset: int, k: nat, j: nat)
    requires k <= |derived| && (k < |derived| ==> j <= |derived[k]|)
  {
    && groupByTask == OriginalGroups(original, offset)
    && (forall g :: g in buckets <==> 0 <= g - offset < |original|)
    && (forall x :: x in groupByTask ==> groupByTask[x] in buckets)
    && (forall g :: g in buckets ==> Ascending(buckets[g]))
    && (forall g, d :: g in buckets ==>
         (d in buckets[g] <==>
           || (0 <= d - offset < k && Touches(derived[d - offset], groupByTask, g))
           || (k < |derived| && d == offset + k && Touches(derived[k][..j], groupByTask, g))))
  }

  method EmptyBuckets(original: Order, offset: int) returns (buckets: map<int, seq<int>>)
    ensures forall g :: g in buckets <==> 0 <= g - offset < |original|
    ensures forall g :: g in buckets ==> buckets[g] == []
  {
    buckets := map[];
    for i := 0 to |original|
      invariant forall g :: g in buckets <==> 0 <= g - offset < i
      invariant forall g :: g in buckets ==> buckets[g] == []
    {
      buckets := buckets[offset + i := []];
    }
  }

  /** Every derived group goes into the buckets of the original groups that its tasks come from. */
  method FillBuckets(empty: map<int, seq<int>>, groupByTask: map<string, int>, ghost original: Order, derived: Order, offset: int)
    returns (buckets: map<int, seq<int>>)
    requires groupByTask == OriginalGroups(original, offset)
    requires forall g :: g in empty <==> 0 <= g - offset < |original|
    requires forall g :: g in empty ==> empty[g] == []
    ensures BucketsHold(buckets, groupByTask, original, derived, offset, |derived|, 0)
  {
    buckets := empty;
    EmptyBucketsHold(buckets, original, derived, offset);
    for k := 0 to |derived|
      invariant BucketsHold(buckets, groupByTask, original, derived, offset, k, 0)
    {
      buckets := FillFrom(buckets, groupByTask, original, derived, offset, k);
    }
  }

  method FillFrom(before: map<int, seq<int>>, groupByTask: map<string, int>, ghost original: Order, derived: Order, offset: int, k: nat)
    returns (buckets: map<int, seq<int>>)
    requires k < |derived| && BucketsHold(before, groupByTask, original, derived, offset, k, 0)
    ensures BucketsHold(buckets, groupByTask, original, derived, offset, k + 1, 0)
  {
    buckets := before;
    for j := 0 to |derived[k]|
      invariant BucketsHold(buckets, groupByTask, original, derived, offset, k, j)
    {
      BucketStep(buckets, groupByTask, original, derived, offset, k, j);
      TasksHaveBuckets(buckets, groupByTask, original, derived, offset, k, j);
      hide BucketsHold;
      var task := derived[k][j];
      if task in groupByTask && offset + k !in buckets[groupByTask[task]] {
        buckets := buckets[groupByTask[task] := buckets[groupByTask[task]] + [offset + k]];
      }
    }
    NextGroup(buckets, groupByTask, original, derived, offset, k);
  }

  lemma TasksHaveBuckets(buckets: map<int, seq<int>>, groupByTask: map<string, int>, original: Order, derived: Order,
                         offset: int, k: nat, j: nat)
    requires k <= |derived| && (k < |derived| ==> j <= |derived[k]|)
    requires BucketsHold(buckets, groupByTask, original, derived, offset, k, j)
    ensures forall x :: x in groupByTask ==> groupByTask[x] in buckets
  {
  }

  lemma NextGroup(buckets: map<int, seq<int>>, groupByTask: map<string, int>, original: Order, derived: Order, offset: int, k: nat)
    requires k < |derived| && BucketsHold(buckets, groupByTask, original, derived, offset, k, |derived[k]|)
    ensures BucketsHold(buckets, groupByTask, original, derived, offset, k + 1, 0)
  {
    assert derived[k][..|derived[k]|] == derived[k];
  }

  method SortBuckets(buckets: map<int, seq<int>>, ghost original: Order, ghost derived: Order, ghost offset: int)
    returns (mapping: map<int, seq<int>>)
    requires BucketsHold(buckets, OriginalGroups(original, offset), original, derived, offset, |derived|, 0)
    ensures MappingCorrect(mapping, original, derived, offset)
  {
    forall g | g in buckets ensures Sorted(buckets[g]) == buckets[g] {
      SortedIsIdentity(buckets[g]);
    }
    mapping := map g | g in buckets :: Sorted(buckets[g]);
    assert mapping == buckets;
  }

  lemma EmptyBucketsHold(buckets: map<int, seq<int>>, original: Order, derived: Order, offset: int)
    requires forall g :: g in buckets <==> 0 <= g - offset < |original|
    requires forall g :: g in buckets ==> buckets[g] == []
    ensures BucketsHold(buckets, OriginalGroups(original, offset), original, derived, offset, 0, 0)
  {
    var groups := OriginalGroups(original, offset);
    forall x | x in groups ensures groups[x] in buckets {
      OriginalGroupsAt(original, offset, x);
    }
  }

  /** The bucket update for task j of derived group k. */
  function Bucketed(buckets: map<int, seq<int>>, groupByTask: map<string, int>, task: string, d: int): map<int, seq<int>>
    requires task in groupByTask ==> groupByTask[task] in buckets
  {
    if task in groupByTask && d !in buckets[groupByTask[task]] then
      buckets[groupByTask[task] := buckets[groupByTask[task]] + [d]]
    else buckets
  }

  /** Where a bucket goes on ascending: nothing in it is past the group at hand. */
  lemma AscendingMore(bucket: seq<int>, d: int)
    requires Ascending(bucket) && d !in bucket && forall e :: e in bucket ==> e <= d
    ensures Ascending(bucket + [d])
  {
    forall i | 0 <= i < |bucket| ensures bucket[i] < d {
      assert bucket[i] in bucket;
    }
  }

  lemma BucketStep(buckets: map<int, seq<int>>, groupByTask: map<string, int>, original: Order, derived: Order,
                   offset: int, k: nat, j: nat)
    requires k < |derived| && j < |derived[k]|
    requires BucketsHold(buckets, groupByTask, original, derived, offset, k, j)
    ensures BucketsHold(Bucketed(buckets, groupByTask, derived[k][j], offset + k), groupByTask, original, derived, offset, k, j + 1)
  {
    hide OriginalGroups;
    var task, d := derived[k][j], offset + k;
    assert derived[k][..j + 1] == derived[k][..j] + [task];
    if task in groupByTask && d !in buckets[groupByTask[task]] {
      var g := groupByTask[task];
      assert g in buckets && Ascending(buckets[g]);
      assert forall e :: e in buckets[g] ==> e <= d;
      AscendingMore(buckets[g], d);
    }
    forall g ensures Touches(derived[k][..j + 1], groupByTask, g)
                <==> Touches(derived[k][..j], groupByTask, g) || (task in groupByTask && groupByTask[task] == g)
    {
      TouchesSnoc(derived[k][..j], task, groupByTask, g);
    }
  }

  lemma TouchesSnoc(group: Group, task: string, groupByTask: map<string, int>, g: int)
    ensures Touches(group + [task], groupByTask, g)
       <==> Touches(group, groupByTask, g) || (task in groupByTask && groupByTask[task] == g)
  {
    if x :| x in group && x in groupByTask && groupByTask[x] == g {
      assert x in group + [task];
    }
    assert task in group + [task];
  }

  function Insert(x: int, s: seq<int>): seq<int> {
    if s == [] || x <= s[0] then [x] + s else [s[0]] + Insert(x, s[1..])
  }

  /** `sorted`. */
  function Sorted(s: seq<int>): seq<int> {
    if s == [] then [] else Insert(s[0], Sorted(s[1..]))
  }

  lemma {:induction false} SortedIsIdentity(s: seq<int>)
    requires Ascending(s)
    ensures Sorted(s) == s
  {
    if s != [] {
      SortedIsIdentity(s[1..]);
    }
  }

  /** The task is listed in the group and in no later one. */
  ghost predicate LastIn(original: Order, x: string, i: int) {
    0 <= i < |original| && x in original[i] && forall k :: i < k < |original| ==> x !in original[k]
  }

  lemma {:induction false} OriginalGroupsAt(original: Order, offset: int, x: string)
    ensures x in OriginalGroups(original, offset) <==> x != "" && x in Tally(original)
    ensures x in OriginalGroups(original, offset) ==> LastIn(original, x, OriginalGroups(original, offset)[x] - offset)
  {
    if original != [] {
      OriginalGroupsAt(original[..|original| - 1], offset, x);
    }
  }

  /** The mapping lists derived group d under original group g exactly when some named task of d
      has g for its last original group. */
  lemma MappingListsLast(mapping: map<int, seq<int>>, original: Order, derived: Order, offset: int, i: nat, d: int)
    requires MappingCorrect(mapping, original, derived, offset) && i < |original|
    ensures offset + i in mapping
    ensures d in mapping[offset + i]
       <==> 0 <= d - offset < |derived| && exists x :: x != "" && LastIn(original, x, i) && x in derived[d - offset]
  {
    var groups := OriginalGroups(original, offset);
    if 0 <= d - offset < |derived| {
      if x :| x in derived[d - offset] && x in groups && groups[x] == offset + i {
        OriginalGroupsAt(original, offset, x);
      }
      if x :| x != "" && LastIn(original, x, i) && x in derived[d - offset] {
        InTally(original, x);
        OriginalGroupsAt(original, offset, x);
        assert Touches(derived[d - offset], groups, offset + i);
      }
    }
  }

  /** For a duplicate-free original order, the mapping lists derived group d under original
      group g exactly when some named task lies in both. */
  lemma MappingListsIntersections(mapping: map<int, seq<int>>, original: Order, derived: Order, offset: int, i: nat, d: int)
    requires MappingCorrect(mapping, original, derived, offset) && DupFree(original)
    requires i < |original|
    ensures offset + i in mapping
    ensures d in mapping[offset + i]
       <==> 0 <= d - offset < |derived| && exists x :: x != "" && x in original[i] && x in derived[d - offset]
  {
    MappingListsLast(mapping, original, derived, offset, i, d);
    forall x | x in original[i] ensures LastIn(original, x, i) {
      forall k | i < k < |original| ensures x !in original[k] {
        if x in original[k] {
          OneGroupEach(original, x, i, k);
        }
      }
    }
  }

  /** When the two orders hold the same ids, every named task of a derived group is accounted
      for: its original group lists that derived group. */
  lemma MappingCovers(mapping: map<int, seq<int>>, original: Order, derived: Order, offset: int, k: nat, x: string)
    requires MappingCorrect(mapping, original, derived, offset)
    requires DupFree(original) && Tally(original) == Tally(derived)
    requires k < |derived| && x in derived[k] && x != ""
    ensures exists i :: 0 <= i < |original| && x in original[i] && offset + i in mapping && offset + k in mapping[offset + i]
  {
    InTally(derived, x);
    InTally(original, x);
    var i :| 0 <= i < |original| && x in original[i];
    MappingListsIntersections(mapping, original, derived, offset, i, offset + k);
  }

  // ---------------------------------------------------------------- barriers

  /** A task id and the barrier that claims it. */
  type Claim = (string, string)

  function ClaimsOn(ids: seq<string>, barrier: string): seq<Claim> {
    if ids == [] then []
    else
      var task := Strip(ids[|ids| - 1]);
      ClaimsOn(ids[..|ids| - 1], barrier) + if task != "" then [(task, barrier)] else []
  }

  /** The id a barrier record goes by; the position is the last resort. */
  function BarrierId(barrier: Barrier, position: nat): string {
    Strip(if barrier.title != "" then barrier.title else "barrier-" + Decimal(position))
  }

  function BarrierClaims(barriers: seq<Barrier>): seq<Claim> {
    if barriers == [] then []
    else
      var n := |barriers| - 1;
      var id := BarrierId(barriers[n], n);
      BarrierClaims(barriers[..n]) + if barriers[n].hard && id != "" then ClaimsOn(barriers[n].taskIds, id) else []
  }

  function SpeedClaims(entries: seq<SpeedEntry>): seq<Claim> {
    if entries == [] then []
    else
      var last := entries[|entries| - 1];
      SpeedClaims(entries[..|entries| - 1]) + if Strip(last.barrier) != "" then [(last.taskId, Strip(last.barrier))] else []
  }

  /** Every claim, in the order the sources are consulted: barriers, then the speed index. */
  function AllClaims(barriers: seq<Barrier>, speedIndex: seq<SpeedEntry>): seq<Claim> {
    BarrierClaims(barriers) + SpeedClaims(speedIndex)
  }

  /** The first claim on task x is by barrier b. */
  ghost predicate Holds(claims: seq<Claim>, x: string, b: string) {
    exists i :: 0 <= i < |claims| && claims[i] == (x, b) && forall j :: 0 <= j < i ==> claims[j].0 != x
  }

  ghost predicate FirstClaims(barrierOf: map<string, string>, claims: seq<Claim>) {
    forall x, b :: Holds(claims, x, b) <==> x in barrierOf && barrierOf[x] == b
  }

  ghost predicate Names(ids: seq<string>, x: string) {
    x != "" && exists i :: 0 <= i < |ids| && Strip(ids[i]) == x
  }

  /** The barrier record claims the task. */
  ghost predicate Claims(barriers: seq<Barrier>, i: int, x: string) {
    0 <= i < |barriers| && barriers[i].hard && BarrierId(barriers[i], i) != "" && Names(barriers[i].taskIds, x)
  }

  ghost predicate SpeedClaim(entries: seq<SpeedEntry>, i: int, x: string) {
    0 <= i < |entries| && entries[i].taskId == x && Strip(entries[i].barrier) != ""
  }

  ghost predicate FirstBarrier(barriers: seq<Barrier>, x: string, b: string) {
    exists i :: Claims(barriers, i, x) && b == BarrierId(barriers[i], i) && forall j :: 0 <= j < i ==> !Claims(barriers, j, x)
  }

  ghost predicate FirstSpeed(entries: seq<SpeedEntry>, x: string, b: string) {
    exists i :: SpeedClaim(entries, i, x) && b == Strip(entries[i].barrier) && forall j :: 0 <= j < i ==> !SpeedClaim(entries, j, x)
  }

  /** The task's barrier is that of the first record that claims it; the entries of the speed index
      count only if there is no such record. */
  ghost predicate HeldBy(barriers: seq<Barrier>, entries: seq<SpeedEntry>, x: string, b: string) {
    FirstBarrier(barriers, x, b) || ((forall i :: !Claims(barriers, i, x)) && FirstSpeed(entries, x, b))
  }

  ghost predicate Claimed(claims: seq<Claim>, x: string) {
    exists i :: 0 <= i < |claims| && claims[i].0 == x
  }

  lemma HoldsConcat(a: seq<Claim>, c: seq<Claim>, x: string, b: string)
    ensures Claimed(a + c, x) <==> Claimed(a, x) || Claimed(c, x)
    ensures Holds(a + c, x, b) <==> Holds(a, x, b) || (!Claimed(a, x) && Holds(c, x, b))
  {
    var all := a + c;
    assert forall i :: 0 <= i < |a| ==> all[i] == a[i];
    assert forall i :: 0 <= i < |c| ==> all[|a| + i] == c[i];
    assert forall i :: |a| <= i < |all| ==> all[i] == c[i - |a|];
  }

  lemma {:induction false} ClaimsOnMeans(ids: seq<string>, barrier: string, x: string, b: string)
    ensures Claimed(ClaimsOn(ids, barrier), x) <==> Names(ids, x)
    ensures Holds(ClaimsOn(ids, barrier), x, b) <==> b == barrier && Names(ids, x)
  {
    hide Holds, Claimed, Strip;
    if ids == [] {
      NoClaims(x, b);
    } else {
      var n := |ids| - 1;
      var task, before := Strip(ids[n]), ClaimsOn(ids[..n], barrier);
      ClaimsOnMeans(ids[..n], barrier, x, b);
      assert Names(ids, x) <==> Names(ids[..n], x) || (x != "" && task == x) by {
        assert forall i :: 0 <= i < n ==> ids[..n][i] == ids[i];
      }
      OneClaim(task, barrier, x, b);
      HoldsConcat(before, [(task, barrier)], x, b);
      assert before + [] == before;
    }
  }

  lemma NoClaims(x: string, b: string)
    ensures !Claimed([], x) && !Holds([], x, b)
  {
  }

  lemma OneClaim(task: string, barrier: string, x: string, b: string)
    ensures Claimed([(task, barrier)], x) <==> x == task
    ensures Holds([(task, barrier)], x, b) <==> x == task && b == barrier
  {
    assert [(task, barrier)][0] == (task, barrier);
  }

  lemma {:induction false} BarrierClaimsMean(barriers: seq<Barrier>, x: string, b: string)
    ensures Claimed(BarrierClaims(barriers), x) <==> exists i :: Claims(barriers, i, x)
    ensures Holds(BarrierClaims(barriers), x, b) <==> FirstBarrier(barriers, x, b)
  {
    hide Holds, Claimed, BarrierId, Names;
    if barriers == [] {
      NoClaims(x, b);
    } else {
      var n := |barriers| - 1;
      var id, before := BarrierId(barriers[n], n), BarrierClaims(barriers[..n]);
      BarrierClaimsMean(barriers[..n], x, b);
      FirstBarrierSnoc(barriers, x, b);
      ClaimsOnMeans(barriers[n].taskIds, id, x, b);
      HoldsConcat(before, ClaimsOn(barriers[n].taskIds, id), x, b);
      assert before + [] == before;
      hide FirstBarrier;
    }
  }

  lemma FirstBarrierSnoc(barriers: seq<Barrier>, x: string, b: string)
    requires barriers != []
    ensures var n := |barriers| - 1;
      && ((exists i :: Claims(barriers, i, x)) <==> (exists i :: Claims(barriers[..n], i, x)) || Claims(barriers, n, x))
      && (FirstBarrier(barriers, x, b) <==>
           || FirstBarrier(barriers[..n], x, b)
           || ((forall i :: !Claims(barriers[..n], i, x)) && Claims(barriers, n, x) && b == BarrierId(barriers[n], n)))
  {
    hide BarrierId, Names;
    var n := |barriers| - 1;
    assert forall i :: 0 <= i < n ==> (Claims(barriers[..n], i, x) <==> Claims(barriers, i, x));
    hide Claims;
  }

  lemma {:induction false} SpeedClaimsMean(entries: seq<SpeedEntry>, x: string, b: string)
    ensures Claimed(SpeedClaims(entries), x) <==> exists i :: SpeedClaim(entries, i, x)
    ensures Holds(SpeedClaims(entries), x, b) <==> FirstSpeed(entries, x, b)
  {
    hide Holds, Claimed, Strip;
    if entries == [] {
      NoClaims(x, b);
    } else {
      var n := |entries| - 1;
      var barrier, before := Strip(entries[n].barrier), SpeedClaims(entries[..n]);
      SpeedClaimsMean(entries[..n], x, b);
      FirstSpeedSnoc(entries, x, b);
      OneClaim(entries[n].taskId, barrier, x, b);
      HoldsConcat(before, [(entries[n].taskId, barrier)], x, b);
      assert before + [] == before;
      hide FirstSpeed;
    }
  }

  lemma FirstSpeedSnoc(entries: seq<SpeedEntry>, x: string, b: string)
    requires entries != []
    ensures var n := |entries| - 1;
      && ((exists i :: SpeedClaim(entries, i, x)) <==> (exists i :: SpeedClaim(entries[..n], i, x)) || SpeedClaim(entries, n, x))
      && (FirstSpeed(entries, x, b) <==>
           || FirstSpeed(entries[..n], x, b)
           || ((forall i :: !SpeedClaim(entries[..n], i, x)) && SpeedClaim(entries, n, x) && b == Strip(entries[n].barrier)))
  {
    hide Strip;
    var n := |entries| - 1;
    assert forall i :: 0 <= i < n ==> (SpeedClaim(entries[..n], i, x) <==> SpeedClaim(entries, i, x));
    hide SpeedClaim;
  }

  /** The first of all claims on a task is the one that holds it. */
  lemma HeldMeans(barriers: seq<Barrier>, entries: seq<SpeedEntry>)
    ensures forall x, b :: Holds(AllClaims(barriers, entries), x, b) <==> HeldBy(barriers, entries, x, b)
  {
    forall x, b ensures Holds(AllClaims(barriers, entries), x, b) <==> HeldBy(barriers, entries, x, b) {
      BarrierClaimsMean(barriers, x, b);
      SpeedClaimsMean(entries, x, b);
      HoldsConcat(BarrierClaims(barriers), SpeedClaims(entries), x, b);
      hide Claims, FirstBarrier, FirstSpeed, Holds, Claimed;
    }
  }

  /** Two tasks of the group are held by different hard barriers. */
  ghost predicate MixesBarriers(group: Group, barriers: seq<Barrier>, entries: seq<SpeedEntry>) {
    exists x, y, a, b :: x in group && y in group && HeldBy(barriers, entries, x, a) && HeldBy(barriers, entries, y, b) && a != b
  }

  lemma MixedMeans(group: Group, barriers: seq<Barrier>, entries: seq<SpeedEntry>)
    ensures Mixed(group, AllClaims(barriers, entries)) <==> MixesBarriers(group, barriers, entries)
  {
    HeldMeans(barriers, entries);
    hide Holds, HeldBy;
  }

  lemma {:induction false} ClaimedIffHeld(claims: seq<Claim>, x: string)
    ensures Claimed(claims, x) <==> exists b :: Holds(claims, x, b)
  {
    if i :| 0 <= i < |claims| && claims[i].0 == x {
      ClaimedIffHeld(claims[..i], x);
      if b :| Holds(claims[..i], x, b) {
        var k :| 0 <= k < i && claims[..i][k] == (x, b) && forall j :: 0 <= j < k ==> claims[..i][j].0 != x;
        assert claims[k] == (x, b) && forall j :: 0 <= j < k ==> claims[j] == claims[..i][j];
        assert Holds(claims, x, b);
      } else {
        assert forall j :: 0 <= j < i ==> claims[j] == claims[..i][j];
        assert Holds(claims, x, claims[i].1);
      }
    }
  }

  lemma HoldsSnoc(claims: seq<Claim>, task: string, barrier: string, x: string, b: string)
    ensures Holds(claims + [(task, barrier)], x, b)
       <==> Holds(claims, x, b) || (x == task && b == barrier && forall j :: 0 <= j < |claims| ==> claims[j].0 != x)
  {
    var all := claims + [(task, barrier)];
    if i :| 0 <= i < |all| && all[i] == (x, b) && forall j :: 0 <= j < i ==> all[j].0 != x {
      assert forall j :: 0 <= j < i ==> all[j] == claims[j];
    }
    if i :| 0 <= i < |claims| && claims[i] == (x, b) && forall j :: 0 <= j < i ==> claims[j].0 != x {
      assert all[i] == (x, b) && forall j :: 0 <= j < i ==> all[j] == claims[j];
    }
    if x == task && b == barrier && forall j :: 0 <= j < |claims| ==> claims[j].0 != x {
      assert all[|claims|] == (x, b) && forall j :: 0 <= j < |claims| ==> all[j] == claims[j];
    }
  }

  lemma AddClaim(barrierOf: map<string, string>, claims: seq<Claim>, task: string, barrier: string)
    requires FirstClaims(barrierOf, claims)
    ensures FirstClaims(if task in barrierOf then barrierOf else barrierOf[task := barrier], claims + [(task, barrier)])
  {
    ClaimedIffHeld(claims, task);
    assert task in barrierOf <==> exists b :: Holds(claims, task, b) by {
      if task in barrierOf {
        assert Holds(claims, task, barrierOf[task]);
      }
    }
    forall x, b {
      HoldsSnoc(claims, task, barrier, x, b);
    }
  }

  /** `setdefault` for every task a barrier lists. */
  method ClaimTasks(before: map<string, string>, ids: seq<string>, barrier: string, ghost claims: seq<Claim>)
    returns (barrierOf: map<string, string>)
    requires FirstClaims(before, claims)
    ensures FirstClaims(barrierOf, claims + ClaimsOn(ids, barrier))
  {
    barrierOf := before;
    assert claims + ClaimsOn(ids[..0], barrier) == claims;
    for j := 0 to |ids|
      invariant FirstClaims(barrierOf, claims + ClaimsOn(ids[..j], barrier))
    {
      ghost var now := claims + ClaimsOn(ids[..j], barrier);
      assert ids[..j + 1][..j] == ids[..j];
      var task := Strip(ids[j]);
      if task != "" {
        AddClaim(barrierOf, now, task, barrier);
        assert now + [(task, barrier)] == claims + ClaimsOn(ids[..j + 1], barrier);
        barrierOf := if task in barrierOf then barrierOf else barrierOf[task := barrier];
      } else {
        assert now == claims + ClaimsOn(ids[..j + 1], barrier);
      }
    }
    assert ids[..|ids|] == ids;
  }

  method ClaimFromSpeedIndex(before: map<string, string>, entries: seq<SpeedEntry>, ghost claims: seq<Claim>)
    returns (barrierOf: map<string, string>)
    requires FirstClaims(before, claims)
    ensures FirstClaims(barrierOf, claims + SpeedClaims(entries))
  {
    barrierOf := before;
    assert claims + SpeedClaims(entries[..0]) == claims;
    for j := 0 to |entries|
      invariant FirstClaims(barrierOf, claims + SpeedClaims(entries[..j]))
    {
      ghost var now := claims + SpeedClaims(entries[..j]);
      assert entries[..j + 1][..j] == entries[..j];
      var task, barrier := entries[j].taskId, Strip(entries[j].barrier);
      if barrier != "" {
        AddClaim(barrierOf, now, task, barrier);
        assert now + [(task, barrier)] == claims + SpeedClaims(entries[..j + 1]);
        barrierOf := if task in barrierOf then barrierOf else barrierOf[task := barrier];
      } else {
        assert now == claims + SpeedClaims(entries[..j + 1]);
      }
    }
    assert entries[..|entries|] == entries;
  }

  /** Two tasks of the group are held by different hard barriers. */
  ghost predicate Mixed(group: Group, claims: seq<Claim>) {
    exists x, y, a, b :: x in group && y in group && Holds(claims, x, a) && Holds(claims, y, b) && a != b
  }

  lemma MixedIffMany(group: Group, barrierOf: map<string, string>, claims: seq<Claim>, held: set<string>)
    requires FirstClaims(barrierOf, claims)
    requires held == set x | x in group && x in barrierOf :: barrierOf[x]
    ensures Mixed(group, claims) <==> |held| > 1
  {
    if |held| > 1 {
      var a :| a in held;
      assert |held - {a}| > 0;
      var b :| b in held - {a};
      var x :| x in group && x in barrierOf && barrierOf[x] == a;
      var y :| y in group && y in barrierOf && barrierOf[y] == b;
      assert Holds(claims, x, a) && Holds(claims, y, b);
    }
    if x, y, a, b :| x in group && y in group && Holds(claims, x, a) && Holds(claims, y, b) && a != b {
      AtLeastTwo(held, a, b);
    }
  }

  lemma AtLeastTwo(s: set<string>, a: string, b: string)
    requires a in s && b in s && a != b
    ensures |s| >= 2
  {
    assert |s| == |s - {a}| + 1;
    assert b in s - {a};
  }

  method IsMixed(group: Group, barrierOf: map<string, string>, ghost claims: seq<Claim>) returns (mixed: bool)
    requires FirstClaims(barrierOf, claims)
    ensures mixed <==> Mixed(group, claims)
  {
    var hardBarriers := set x | x in group && x in barrierOf :: barrierOf[x];
    MixedIffMany(group, barrierOf, claims, hardBarriers);
    mixed := |hardBarriers| > 1;
  }

  /** The numbers of the groups that mix hard barriers, in order. */
  ghost function MixedGroups(order: Order, claims: seq<Claim>, offset: int): seq<int> {
    if order == [] then []
    else
      var k := |order| - 1;
      MixedGroups(order[..k], claims, offset) + if Mixed(order[k], claims) then [offset + k] else []
  }

  function AtMostTwenty(groups: seq<int>): seq<int> {
    if |groups| > 20 then groups[..20] else groups
  }

  /** Exactly the mixed groups are among them, in ascending order. */
  lemma {:induction false} MixedGroupsExact(order: Order, claims: seq<Claim>, offset: int, g: int)
    ensures Ascending(MixedGroups(order, claims, offset))
    ensures g in MixedGroups(order, claims, offset) <==> 0 <= g - offset < |order| && Mixed(order[g - offset], claims)
  {
    hide Mixed;
    if order != [] {
      var k := |order| - 1;
      var all := MixedGroups(order[..k], claims, offset);
      MixedGroupsExact(order[..k], claims, offset, g);
      forall i | 0 <= i < |all| ensures all[i] < offset + k {
        MixedGroupsExact(order[..k], claims, offset, all[i]);
      }
    }
  }

  lemma NoneMixed(order: Order, claims: seq<Claim>, offset: int)
    ensures MixedGroups(order, claims, offset) == [] <==> forall k :: 0 <= k < |order| ==> !Mixed(order[k], claims)
  {
    hide Mixed;
    var all := MixedGroups(order, claims, offset);
    if all != [] {
      MixedGroupsExact(order, claims, offset, all[0]);
    }
    forall k | 0 <= k < |order| ensures Mixed(order[k], claims) <==> offset + k in all {
      MixedGroupsExact(order, claims, offset, offset + k);
    }
    hide MixedGroups;
  }
}

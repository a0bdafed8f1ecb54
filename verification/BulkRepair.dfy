/** The scan for tasks without a repo identity, before and after the repair. */
module BulkRepair {
  import opened Orders
  import opened RepairModel
  import opened GroupMoves

  // ---------------------------------------------------------------- scanning

  /** The task the scan looks at for an id (root DAG first) has no repo identity. */
  predicate Lacks(rootTasks: map<string, Task>, regroupTasks: map<string, Task>, x: string)
    reads rootTasks.Values, regroupTasks.Values
  {
    if x in rootTasks then !rootTasks[x].HasIdentity()
    else x in regroupTasks && !regroupTasks[x].HasIdentity()
  }

  datatype Missing = Missing(group: int, taskId: string)

  function MissingIds(items: seq<Missing>): (r: seq<string>)
    ensures |r| == |items| && forall i :: 0 <= i < |items| ==> r[i] == items[i].taskId
  {
    seq(|items|, i requires 0 <= i < |items| => items[i].taskId)
  }

  ghost function LackingIds(rootTasks: map<string, Task>, regroupTasks: map<string, Task>): (r: set<string>)
    reads rootTasks.Values, regroupTasks.Values
    ensures forall x :: x in r <==> Lacks(rootTasks, regroupTasks, x)
  {
    set x | x in rootTasks.Keys + regroupTasks.Keys && Lacks(rootTasks, regroupTasks, x)
  }

  /** The lacking tasks of one group, in the group's order. */
  function MissingIn(group: Group, lacking: set<string>, groupIdx: int): seq<Missing> {
    if group == [] then []
    else
      var last := group[|group| - 1];
      MissingIn(group[..|group| - 1], lacking, groupIdx) + if last in lacking then [Missing(groupIdx, last)] else []
  }

  /** What a scan of the repaired range reports, group by group. */
  function Missings(order: Order, lacking: set<string>, range: Range): seq<Missing> {
    if order == [] then []
    else
      var k := |order| - 1;
      Missings(order[..k], lacking, range)
      + MissingAt(order, k, lacking, range)
  }

  /** What the scan reports for the group at position k. */
  function MissingAt(order: Order, k: nat, lacking: set<string>, range: Range): seq<Missing>
    requires k < |order|
  {
    if range.first <= range.offset + k <= range.last then MissingIn(order[k], lacking, range.offset + k) else []
  }

  lemma MissingsSnoc(order: Order, k: nat, lacking: set<string>, range: Range)
    requires k < |order|
    ensures Missings(order[..k + 1], lacking, range) == Missings(order[..k], lacking, range) + MissingAt(order, k, lacking, range)
  {
    assert order[..k + 1][..k] == order[..k];
  }

  lemma MissingsUpTo(order: Order, k: nat, lacking: set<string>, range: Range, found: seq<Missing>)
    requires k < |order|
    requires found == if range.first <= range.offset + k <= range.last then MissingIn(order[k], lacking, range.offset + k) else []
    ensures Missings(order[..k + 1], lacking, range) == Missings(order[..k], lacking, range) + found
  {
    MissingsSnoc(order, k, lacking, range);
  }

  /** `_scan_post_boundary_missing_repo_identity`, limited to the repaired range. */
  method ScanGroups(rootTasks: map<string, Task>, regroupTasks: map<string, Task>, order: Order, range: Range)
    returns (items: seq<Missing>)
    ensures items == Missings(order, LackingIds(rootTasks, regroupTasks), range)
  {
    items := [];
    ghost var lacking := LackingIds(rootTasks, regroupTasks);
    for k := 0 to |order|
      invariant items == Missings(order[..k], lacking, range)
    {
      var group, found := order[k], [];
      if range.first <= range.offset + k <= range.last {
        for j := 0 to |group|
          invariant found == MissingIn(group[..j], lacking, range.offset + k)
        {
          assert group[..j + 1][..j] == group[..j];
          if Lacks(rootTasks, regroupTasks, group[j]) {
            found := found + [Missing(range.offset + k, group[j])];
          }
        }
        assert group[..|group|] == group;
      }
      hide Missings, MissingIn;
      MissingsUpTo(order, k, lacking, range, found);
      items := items + found;
    }
    assert order[..|order|] == order;
  }

  lemma {:induction false} MissingInExact(group: Group, lacking: set<string>, groupIdx: int, m: Missing)
    ensures m in MissingIn(group, lacking, groupIdx) <==> m.group == groupIdx && m.taskId in group && m.taskId in lacking
  {
    if group != [] {
      var n := |group| - 1;
      MissingInExact(group[..n], lacking, groupIdx, m);
      assert group == group[..n] + [group[n]];
    }
  }

  /** The group is in the range and lists the task, which lacks an identity. */
  ghost predicate Reported(m: Missing, order: Order, lacking: set<string>, range: Range) {
    && 0 <= m.group - range.offset < |order| && m.taskId in order[m.group - range.offset]
    && range.first <= m.group <= range.last && m.taskId in lacking
  }

  lemma ReportedSnoc(m: Missing, order: Order, k: nat, lacking: set<string>, range: Range)
    requires k < |order|
    ensures Reported(m, order[..k + 1], lacking, range)
       <==> Reported(m, order[..k], lacking, range) || m in MissingAt(order, k, lacking, range)
  {
    MissingInExact(order[k], lacking, range.offset + k, m);
  }

  lemma {:induction false} ScannedUpTo(order: Order, k: nat, lacking: set<string>, range: Range, m: Missing)
    requires k <= |order|
    ensures m in Missings(order[..k], lacking, range) <==> Reported(m, order[..k], lacking, range)
  {
    if k > 0 {
      ScannedUpTo(order, k - 1, lacking, range, m);
      ScannedNext(order, k - 1, lacking, range, m);
    }
  }

  lemma ScannedNext(order: Order, k: nat, lacking: set<string>, range: Range, m: Missing)
    requires k < |order|
    requires m in Missings(order[..k], lacking, range) <==> Reported(m, order[..k], lacking, range)
    ensures m in Missings(order[..k + 1], lacking, range) <==> Reported(m, order[..k + 1], lacking, range)
  {
    MissingsSnoc(order, k, lacking, range);
    ReportedSnoc(m, order, k, lacking, range);
  }

  /** The scan reports exactly the lacking tasks of the groups in range, each under a group that lists it. */
  lemma ScanIsExact(order: Order, lacking: set<string>, range: Range, m: Missing)
    ensures m in Missings(order, lacking, range) <==> Reported(m, order, lacking, range)
  {
    ScannedUpTo(order, |order|, lacking, range, m);
    assert order[..|order|] == order;
  }

  /** Two items of one group stand in the order of the group. */
  ghost predicate InGroupOrder(group: Group, x: string, y: string) {
    exists a, b :: 0 <= a < b < |group| && group[a] == x && group[b] == y
  }

  lemma {:induction false} MissingInOrder(group: Group, lacking: set<string>, groupIdx: int, i: nat, j: nat)
    requires i < j < |MissingIn(group, lacking, groupIdx)|
    ensures InGroupOrder(group, MissingIn(group, lacking, groupIdx)[i].taskId, MissingIn(group, lacking, groupIdx)[j].taskId)
  {
    var n := |group| - 1;
    var before, items := MissingIn(group[..n], lacking, groupIdx), MissingIn(group, lacking, groupIdx);
    if j < |before| {
      MissingInOrder(group[..n], lacking, groupIdx, i, j);
      var a, b :| 0 <= a < b < n && group[..n][a] == items[i].taskId && group[..n][b] == items[j].taskId;
      assert group[a] == items[i].taskId && group[b] == items[j].taskId;
    } else {
      MissingInExact(group[..n], lacking, groupIdx, items[i]);
      var a :| 0 <= a < n && group[..n][a] == items[i].taskId;
      assert group[a] == items[i].taskId && group[n] == items[j].taskId;
    }
  }

  ghost predicate InScanOrder(order: Order, range: Range, m: Missing, n: Missing) {
    && 0 <= m.group - range.offset < |order|
    && (m.group < n.group || (m.group == n.group && InGroupOrder(order[m.group - range.offset], m.taskId, n.taskId)))
  }

  lemma ScanStepInOrder(order: Order, k: nat, lacking: set<string>, range: Range, i: nat, j: nat)
    requires k < |order| && i < j < |Missings(order[..k], lacking, range) + MissingAt(order, k, lacking, range)|
    requires |Missings(order[..k], lacking, range)| <= j
    ensures var items := Missings(order[..k], lacking, range) + MissingAt(order, k, lacking, range);
      InScanOrder(order, range, items[i], items[j])
  {
    var before, more := Missings(order[..k], lacking, range), MissingAt(order, k, lacking, range);
    MissingInExact(order[k], lacking, range.offset + k, more[j - |before|]);
    if i < |before| {
      ScanIsExact(order[..k], lacking, range, before[i]);
    } else {
      MissingInExact(order[k], lacking, range.offset + k, more[i - |before|]);
      MissingInOrder(order[k], lacking, range.offset + k, i - |before|, j - |before|);
    }
  }

  /** The items come group by group, and within a group in its order. */
  lemma {:induction false} ScanInOrder(order: Order, lacking: set<string>, range: Range, i: nat, j: nat)
    requires i < j < |Missings(order, lacking, range)|
    ensures InScanOrder(order, range, Missings(order, lacking, range)[i], Missings(order, lacking, range)[j])
  {
    var k := |order| - 1;
    var before := Missings(order[..k], lacking, range);
    if j < |before| {
      ScanInOrder(order[..k], lacking, range, i, j);
      assert order[..k][before[i].group - range.offset] == order[before[i].group - range.offset];
    } else {
      ScanStepInOrder(order, k, lacking, range, i, j);
    }
  }

  lemma IdsConcat(a: seq<Missing>, b: seq<Missing>)
    ensures MissingIds(a + b) == MissingIds(a) + MissingIds(b)
  {
  }

  lemma {:induction false} MissingInTally(group: Group, lacking: set<string>, groupIdx: int)
    ensures multiset(MissingIds(MissingIn(group, lacking, groupIdx))) <= multiset(group)
  {
    if group != [] {
      var n := |group| - 1;
      MissingInTally(group[..n], lacking, groupIdx);
      assert group == group[..n] + [group[n]];
      var last := if group[n] in lacking then [Missing(groupIdx, group[n])] else [];
      IdsConcat(MissingIn(group[..n], lacking, groupIdx), last);
      assert MissingIds(last) == if group[n] in lacking then [group[n]] else [];
      AddBelow(multiset(MissingIds(MissingIn(group[..n], lacking, groupIdx))), multiset(MissingIds(last)),
               multiset(group[..n]), multiset{group[n]});
    }
  }

  /** No id is reported more often than the order lists it. */
  lemma {:induction false} ScanTally(order: Order, lacking: set<string>, range: Range)
    ensures multiset(MissingIds(Missings(order, lacking, range))) <= Tally(order)
  {
    if order != [] {
      var k := |order| - 1;
      ScanTally(order[..k], lacking, range);
      MissingInTally(order[k], lacking, range.offset + k);
      IdsConcat(Missings(order[..k], lacking, range), MissingAt(order, k, lacking, range));
      AddBelow(multiset(MissingIds(Missings(order[..k], lacking, range))), multiset(MissingIds(MissingAt(order, k, lacking, range))),
               Tally(order[..k]), multiset(order[k]));
    }
  }

  lemma AddBelow(a: multiset<string>, b: multiset<string>, c: multiset<string>, d: multiset<string>)
    requires a <= c && b <= d
    ensures a + b <= c + d
  {
  }

  lemma ReportedId(order: Order, lacking: set<string>, range: Range, m: Missing)
    requires Reported(m, order, lacking, range)
    ensures m.taskId in MissingIds(Missings(order, lacking, range))
  {
    var items := Missings(order, lacking, range);
    ScanIsExact(order, lacking, range, m);
    var i :| 0 <= i < |items| && items[i] == m;
    assert MissingIds(items)[i] == m.taskId;
  }

  /** An id is reported exactly when some group in range lists it and it lacks an identity. */
  lemma ReportedIds(order: Order, lacking: set<string>, range: Range, x: string)
    ensures x in MissingIds(Missings(order, lacking, range)) <==> ListedInRange(order, x, range) && x in lacking
  {
    var items := Missings(order, lacking, range);
    if x in MissingIds(items) {
      var i :| 0 <= i < |items| && items[i].taskId == x;
      ScanIsExact(order, lacking, range, items[i]);
      assert x in order[items[i].group - range.offset];
    }
    if ListedInRange(order, x, range) && x in lacking {
      var j :| 0 <= j < |order| && x in order[j] && range.first <= range.offset + j <= range.last;
      ReportedId(order, lacking, range, Missing(range.offset + j, x));
    }
  }

  lemma ListedSnoc(order: Order, group: Group, x: string, range: Range)
    ensures ListedInRange(order + [group], x, range)
       <==> ListedInRange(order, x, range) || (x in group && range.first <= range.offset + |order| <= range.last)
  {
    var more := order + [group];
    if j :| 0 <= j < |more| && x in more[j] && range.first <= range.offset + j <= range.last {
      assert j < |order| ==> x in order[j];
    }
    if j :| 0 <= j < |order| && x in order[j] && range.first <= range.offset + j <= range.last {
      assert x in more[j];
    }
    assert more[|order|] == group;
  }
}

/** Execution orders: lists of groups of task ids, and the three list edits the repair
    performs on them (replace an id by its splits, find a group, move an id). */
module Orders {
  import opened Wrappers

  type Group = seq<string>
  type Order = seq<Group>

  // ---------------------------------------------------------------- counting ids

  /** How often each id occurs in an order. */
  function Tally(order: Order): multiset<string> {
    if order == [] then multiset{}
    else Tally(order[..|order| - 1]) + multiset(order[|order| - 1])
  }

  ghost predicate DupFree(order: Order) {
    forall x :: Tally(order)[x] <= 1
  }

  lemma {:induction false} TallyConcat(a: Order, b: Order)
    ensures Tally(a + b) == Tally(a) + Tally(b)
  {
    if b == [] {
      assert a + b == a;
    } else {
      var n := |b| - 1;
      assert (a + b)[..|a + b| - 1] == a + b[..n];
      TallyConcat(a, b[..n]);
    }
  }

  lemma TallySplitAt(order: Order, k: nat)
    requires k <= |order|
    ensures Tally(order) == Tally(order[..k]) + Tally(order[k..])
  {
    assert order == order[..k] + order[k..];
    TallyConcat(order[..k], order[k..]);
  }

  lemma TallyOne(group: Group)
    ensures Tally([group]) == multiset(group)
  {
    assert [group][..0] == [];
  }

  /** An order split around one of its groups. */
  lemma TallyAround(order: Order, i: nat)
    requires i < |order|
    ensures Tally(order) == Tally(order[..i]) + multiset(order[i]) + Tally(order[i + 1..])
  {
    OrderAround(order, i);
    TallySpelledOut(order, order[..i], order[i], order[i + 1..]);
  }

  lemma TallySpelledOut(order: Order, a: Order, group: Group, b: Order)
    requires order == a + [group] + b
    ensures Tally(order) == Tally(a) + multiset(group) + Tally(b)
  {
    TallyConcat(a + [group], b);
    TallyConcat(a, [group]);
    TallyOne(group);
  }

  lemma TallyUpdate(order: Order, i: nat, group: Group)
    requires i < |order|
    ensures Tally(order[i := group]) + multiset(order[i]) == Tally(order) + multiset(group)
  {
    TallyAround(order, i);
    var order' := order[i := group];
    TallyAround(order', i);
    assert order'[..i] == order[..i] && order'[i + 1..] == order[i + 1..];
  }

  lemma {:induction false} InTally(order: Order, x: string)
    ensures x in Tally(order) <==> exists i :: 0 <= i < |order| && x in order[i]
  {
    if order != [] {
      var n := |order| - 1;
      InTally(order[..n], x);
      if i :| 0 <= i < |order| && x in order[i] {
        assert i == n || x in order[..n][i];
      }
      if i :| 0 <= i < n && x in order[..n][i] {
        assert x in order[i];
      }
    }
  }

  /** In a duplicate-free order an id lives in one group only. */
  lemma OneGroupEach(order: Order, x: string, i: nat, j: nat)
    requires DupFree(order)
    requires i < |order| && j < |order|
    requires x in order[i] && x in order[j]
    ensures i == j
  {
    if i < j {
      TwiceListed(order, x, i, j);
    } else if j < i {
      TwiceListed(order, x, j, i);
    }
  }

  lemma TwiceListed(order: Order, x: string, i: nat, j: nat)
    requires i < j < |order| && x in order[i] && x in order[j]
    ensures Tally(order)[x] >= 2
  {
    TallyAround(order, j);
    InTally(order[..j], x);
    assert x in order[..j][i];
  }

  // ---------------------------------------------------------------- replacing an id

  function ReplaceInGroup(group: Group, id: string, ids: seq<string>): Group {
    if group == [] then []
    else
      var last := group[|group| - 1];
      ReplaceInGroup(group[..|group| - 1], id, ids) + if last == id then ids else [last]
  }

  function ReplaceInOrder(order: Order, id: string, ids: seq<string>): (r: Order)
    ensures |r| == |order|
    ensures forall i :: 0 <= i < |order| ==> r[i] == ReplaceInGroup(order[i], id, ids)
  {
    seq(|order|, i requires 0 <= i < |order| => ReplaceInGroup(order[i], id, ids))
  }

  /** `_replace_task_id_in_order`. */
  method ReplaceTaskIdInOrder(order: Order, id: string, ids: seq<string>) returns (updated: Order)
    ensures updated == ReplaceInOrder(order, id, ids)
  {
    updated := [];
    for i := 0 to |order|
      invariant |updated| == i
      invariant forall k :: 0 <= k < i ==> updated[k] == ReplaceInGroup(order[k], id, ids)
    {
      var group: Group := [];
      for j := 0 to |order[i]|
        invariant group == ReplaceInGroup(order[i][..j], id, ids)
      {
        assert order[i][..j + 1][..j] == order[i][..j];
        var current := order[i][j];
        group := group + if current == id then ids else [current];
      }
      assert order[i][..|order[i]|] == order[i];
      updated := updated + [group];
    }
  }

  lemma {:induction false} ReplaceAbsentInGroup(group: Group, id: string, ids: seq<string>)
    requires id !in group
    ensures ReplaceInGroup(group, id, ids) == group
  {
    if group != [] {
      ReplaceAbsentInGroup(group[..|group| - 1], id, ids);
    }
  }

  lemma ReplaceAbsent(order: Order, id: string, ids: seq<string>)
    requires id !in Tally(order)
    ensures ReplaceInOrder(order, id, ids) == order
  {
    forall i | 0 <= i < |order| ensures ReplaceInOrder(order, id, ids)[i] == order[i] {
      InTally(order, id);
      ReplaceAbsentInGroup(order[i], id, ids);
    }
  }

  lemma ReplaceConcat(a: Order, b: Order, id: string, ids: seq<string>)
    ensures ReplaceInOrder(a + b, id, ids) == ReplaceInOrder(a, id, ids) + ReplaceInOrder(b, id, ids)
  {
  }

  lemma {:induction false} ReplaceGroupConcat(a: Group, b: Group, id: string, ids: seq<string>)
    ensures ReplaceInGroup(a + b, id, ids) == ReplaceInGroup(a, id, ids) + ReplaceInGroup(b, id, ids)
  {
    if b == [] {
      assert a + b == a;
    } else {
      var n := |b| - 1;
      assert (a + b)[..|a + b| - 1] == a + b[..n];
      ReplaceGroupConcat(a, b[..n], id, ids);
    }
  }

  /** The splits stand where their original stood, in their order, and all else stays in place. */
  lemma SplitsStandInPlace(group: Group, i: nat, id: string, ids: seq<string>)
    requires i < |group| && group[i] == id && id !in group[..i] && id !in group[i + 1..]
    ensures ReplaceInGroup(group, id, ids) == group[..i] + ids + group[i + 1..]
  {
    assert group == group[..i] + [id] + group[i + 1..] && [id][..0] == [];
    ReplaceGroupConcat(group[..i] + [id], group[i + 1..], id, ids);
    ReplaceGroupConcat(group[..i], [id], id, ids);
    ReplaceAbsentInGroup(group[..i], id, ids);
    ReplaceAbsentInGroup(group[i + 1..], id, ids);
  }

  /** Membership after a replacement, with no assumption on the order. */
  lemma {:induction false} InReplacedGroup(group: Group, id: string, ids: seq<string>, x: string)
    ensures x in ReplaceInGroup(group, id, ids) <==> (x in group && x != id) || (id in group && x in ids)
  {
    if group != [] {
      var n := |group| - 1;
      assert group == group[..n] + [group[n]];
      InReplacedGroup(group[..n], id, ids, x);
    }
  }

  /** What an order lists after a replacement, with no assumption on the order. */
  lemma ListedAfterReplace(order: Order, id: string, ids: seq<string>, x: string)
    ensures x in Tally(ReplaceInOrder(order, id, ids)) <==> (x in Tally(order) && x != id) || (id in Tally(order) && x in ids)
  {
    var after := ReplaceInOrder(order, id, ids);
    InTally(order, x);
    InTally(order, id);
    InTally(after, x);
    forall k | 0 <= k < |order| ensures x in after[k] <==> (x in order[k] && x != id) || (id in order[k] && x in ids) {
      InReplacedGroup(order[k], id, ids, x);
    }
    if x in Tally(order) && x != id {
      var k :| 0 <= k < |order| && x in order[k];
      assert x in after[k];
    }
    if id in Tally(order) && x in ids {
      var k :| 0 <= k < |order| && id in order[k];
      assert x in after[k];
    }
  }

  lemma {:induction false} ReplacedGroupTally(group: Group, id: string, ids: seq<string>)
    requires multiset(group)[id] == 1
    ensures multiset(ReplaceInGroup(group, id, ids)) == multiset(group) - multiset{id} + multiset(ids)
  {
    var n := |group| - 1;
    assert group == group[..n] + [group[n]];
    if group[n] == id {
      assert multiset(group[..n])[id] == 0;
      ReplaceAbsentInGroup(group[..n], id, ids);
    } else {
      ReplacedGroupTally(group[..n], id, ids);
    }
  }

  /** Conservation of a split on an order that names the task at most once: the task is
      traded for its splits and nothing else changes. */
  lemma ReplaceTally(order: Order, id: string, ids: seq<string>)
    requires Tally(order)[id] <= 1
    ensures Tally(ReplaceInOrder(order, id, ids))
         == if id in Tally(order) then Tally(order) - multiset{id} + multiset(ids) else Tally(order)
  {
    if id !in Tally(order) {
      ReplaceAbsent(order, id, ids);
    } else {
      InTally(order, id);
      var i :| 0 <= i < |order| && id in order[i];
      OrderAround(order, i);
      ReplaceTallyAround(order, order[..i], order[i], order[i + 1..], id, ids);
    }
  }

  lemma OrderAround(order: Order, i: nat)
    requires i < |order|
    ensures order == order[..i] + [order[i]] + order[i + 1..]
  {
  }

  lemma ReplaceTallyAround(order: Order, a: Order, group: Group, b: Order, id: string, ids: seq<string>)
    requires order == a + [group] + b
    requires id in group && Tally(order)[id] == 1
    ensures Tally(ReplaceInOrder(order, id, ids)) == Tally(order) - multiset{id} + multiset(ids)
  {
    TallySpelledOut(order, a, group, b);
    OnceInside(Tally(a), multiset(group), Tally(b), id);
    ReplacePieces(order, a, group, b, id, ids);
    ReplacedGroupTally(group, id, ids);
    TallySpelledOut(ReplaceInOrder(order, id, ids), a, ReplaceInGroup(group, id, ids), b);
    TradeInside(Tally(a), multiset(group), Tally(b), id, multiset(ids));
  }

  lemma OnceInside(a: multiset<string>, g: multiset<string>, b: multiset<string>, x: string)
    requires x in g && (a + g + b)[x] == 1
    ensures x !in a && x !in b && g[x] == 1
  {
  }

  lemma ReplacePieces(order: Order, a: Order, group: Group, b: Order, id: string, ids: seq<string>)
    requires order == a + [group] + b
    requires id !in Tally(a) && id !in Tally(b)
    ensures ReplaceInOrder(order, id, ids) == a + [ReplaceInGroup(group, id, ids)] + b
  {
    ReplaceAbsent(a, id, ids);
    ReplaceAbsent(b, id, ids);
    ReplaceConcat(a + [group], b, id, ids);
    ReplaceConcat(a, [group], id, ids);
    hide ReplaceInGroup, Tally;
    assert ReplaceInOrder([group], id, ids) == [ReplaceInGroup(group, id, ids)];
  }

  lemma TradeInside(a: multiset<string>, g: multiset<string>, b: multiset<string>, x: string, y: multiset<string>)
    requires x in g
    ensures a + (g - multiset{x} + y) + b == a + g + b - multiset{x} + y
  {
  }

  ghost predicate NoRepeats(ids: seq<string>) {
    forall x :: multiset(ids)[x] <= 1
  }

  /** Exactly when a split keeps a duplicate-free order duplicate-free: the split ids do not
      repeat, and none of them is already listed in the order (the split id check of the
      repair looks at the task indexes only, not at the orders). */
  lemma SplitKeepsDupFreeIff(order: Order, id: string, ids: seq<string>)
    requires DupFree(order) && id in Tally(order)
    ensures DupFree(ReplaceInOrder(order, id, ids))
       <==> NoRepeats(ids) && forall x :: x in ids && x != id ==> x !in Tally(order)
  {
    ReplaceTally(order, id, ids);
    var after := Tally(ReplaceInOrder(order, id, ids));
    forall x ensures after[x] == (if x == id then 0 else Tally(order)[x]) + multiset(ids)[x] {
      assert Tally(order)[x] <= 1;
    }
    if DupFree(ReplaceInOrder(order, id, ids)) {
      forall x ensures multiset(ids)[x] <= 1 {
        assert after[x] <= 1;
      }
      forall x | x in ids && x != id ensures x !in Tally(order) {
        assert after[x] <= 1;
        assert x in multiset(ids);
      }
    } else {
      var x :| after[x] > 1;
      if x != id && x in Tally(order) && multiset(ids)[x] == 1 {
        assert x in multiset(ids) && x in ids;
      }
    }
  }

  /** The input on which a split duplicates an id: "B" is listed but has no task definition,
      so a reviewed split may be called "B". */
  lemma SplitCanDuplicate()
    ensures DupFree([["A"], ["B"]])
    ensures !DupFree(ReplaceInOrder([["A"], ["B"]], "A", ["B", "C"]))
  {
    var order := [["A"], ["B"]];
    assert order[..1] == [["A"]];
    TallyOne(["A"]);
    assert Tally(order) == multiset{"A", "B"};
    SplitKeepsDupFreeIff(order, "A", ["B", "C"]);
    assert "B" in ["B", "C"];
  }

  // ---------------------------------------------------------------- finding and moving an id

  /** `_find_task_group`: the first group that lists the task. */
  method FindTaskGroup(order: Order, id: string) returns (r: Option<nat>)
    ensures r == GroupOf(order, id)
  {
    for i := 0 to |order|
      invariant forall k :: 0 <= k < i ==> id !in order[k]
    {
      if id in order[i] {
        GroupOfIsFirst(order, id, i);
        return Some(i);
      }
    }
    return None;
  }

  function GroupOf(order: Order, id: string): (r: Option<nat>)
    ensures r.Some? ==> r.value < |order| && id in order[r.value] && forall k :: 0 <= k < r.value ==> id !in order[k]
    ensures r.None? <==> forall k :: 0 <= k < |order| ==> id !in order[k]
  {
    if order == [] then None
    else
      var n := |order| - 1;
      match GroupOf(order[..n], id)
      case Some(i) => assert id in order[..n][i]; Some(i)
      case None => assert forall k :: 0 <= k < n ==> order[..n][k] == order[k]; if id in order[n] then Some(n) else None
  }

  lemma GroupOfIsFirst(order: Order, id: string, i: nat)
    requires i < |order| && id in order[i] && forall k :: 0 <= k < i ==> id !in order[k]
    ensures GroupOf(order, id) == Some(i)
  {
    var r := GroupOf(order, id);
    assert r.Some?;
    assert !(r.value < i) && !(i < r.value);
  }

  function Without(group: Group, id: string): (r: Group)
    ensures forall x :: x in r <==> x in group && x != id
    ensures id !in group ==> r == group
  {
    if group == [] then []
    else
      var last := group[|group| - 1];
      Without(group[..|group| - 1], id) + if last == id then [] else [last]
  }

  lemma {:induction false} WithoutConcat(a: Group, b: Group, id: string)
    ensures Without(a + b, id) == Without(a, id) + Without(b, id)
  {
    if b == [] {
      assert a + b == a;
    } else {
      var n := |b| - 1;
      assert (a + b)[..|a + b| - 1] == a + b[..n];
      WithoutConcat(a, b[..n], id);
    }
  }

  lemma WithoutAround(a: Group, id: string, b: Group)
    requires id !in a && id !in b
    ensures Without(a + [id] + b, id) == a + b
  {
    assert [id][..0] == [] && Without([id], id) == [];
    hide Without;
    WithoutConcat(a + [id], b, id);
    WithoutConcat(a, [id], id);
    assert a + [] == a;
  }

  lemma OnceAround(a: Group, id: string, b: Group)
    requires multiset(a + [id] + b)[id] == 1
    ensures id !in a && id !in b
  {
    assert multiset(a + [id] + b) == multiset(a) + multiset{id} + multiset(b);
    assert id !in multiset(a) && id !in multiset(b);
  }

  /** Taking out an id leaves the others in their order. */
  lemma WithoutAt(group: Group, i: nat)
    requires i < |group| && multiset(group)[group[i]] == 1
    ensures Without(group, group[i]) == group[..i] + group[i + 1..]
  {
    assert group == group[..i] + [group[i]] + group[i + 1..];
    hide Without;
    OnceAround(group[..i], group[i], group[i + 1..]);
    WithoutAround(group[..i], group[i], group[i + 1..]);
  }

  function With(group: Group, id: string): Group {
    if id in group then group else group + [id]
  }

  function MoveInOrder(order: Order, id: string, source: nat, target: nat): (r: Order)
    requires source < |order| && target < |order|
    ensures |r| == |order|
  {
    order[source := Without(order[source], id)][target := With(order[target], id)]
  }

  /** `_move_task_in_order`, editing the order in place. */
  method MoveTaskInOrder(order: array<Group>, id: string, source: nat, target: nat)
    requires source < order.Length && target < order.Length
    modifies order
    ensures order[..] == MoveInOrder(old(order[..]), id, source, target)
  {
    var from, to := order[source], order[target];
    var kept: Group := [];
    for j := 0 to |from|
      invariant kept == Without(from[..j], id)
    {
      assert from[..j + 1][..j] == from[..j];
      if from[j] != id {
        kept := kept + [from[j]];
      }
    }
    assert from[..|from|] == from;
    order[source] := kept;
    if id !in to {
      to := to + [id];
    }
    order[target] := to;
  }

  lemma {:induction false} WithoutTally(group: Group, id: string)
    ensures multiset(Without(group, id)) == multiset(group)[id := 0]
  {
    if group != [] {
      var n := |group| - 1;
      assert group == group[..n] + [group[n]];
      WithoutTally(group[..n], id);
    }
  }

  lemma TakenInPlace(order: Order, id: string, source: nat)
    requires DupFree(order) && source < |order|
    ensures forall i :: 0 <= i < |order[source]| && order[source][i] == id ==>
              Without(order[source], id) == order[source][..i] + order[source][i + 1..]
  {
    hide Without;
    var group := order[source];
    CountInGroup(order, source, id);
    assert Tally(order)[id] <= 1;
    forall i | 0 <= i < |group| && group[i] == id ensures Without(group, id) == group[..i] + group[i + 1..] {
      WithoutAt(group, i);
    }
  }

  /** Conservation of a move: on a duplicate-free order, moving a task out of the group that
      lists it changes no id count, puts the task in the target group and nowhere else, and
      leaves every third group as it was. */
  lemma MoveConserves(order: Order, id: string, source: nat, target: nat)
    requires DupFree(order)
    requires source < |order| && target < |order| && source != target
    requires id in order[source]
    ensures var r := MoveInOrder(order, id, source, target);
      && Tally(r) == Tally(order)
      && (forall k :: 0 <= k < |order| && k != source && k != target ==> r[k] == order[k])
      && (forall k :: 0 <= k < |order| ==> (id in r[k] <==> k == target))
      && (forall k, x :: 0 <= k < |order| && x != id ==> (x in r[k] <==> x in order[k]))
      && r[target] == order[target] + [id]
      && (forall i :: 0 <= i < |order[source]| && order[source][i] == id ==>
           r[source] == order[source][..i] + order[source][i + 1..])
  {
    TakenInPlace(order, id, source);
    forall k | 0 <= k < |order| && id in order[k] ensures k == source {
      OneGroupEach(order, id, source, k);
    }
    MoveTally(order, id, source, target);
  }

  lemma MoveTally(order: Order, id: string, source: nat, target: nat)
    requires DupFree(order)
    requires source < |order| && target < |order| && source != target
    requires id in order[source] && id !in order[target]
    ensures Tally(MoveInOrder(order, id, source, target)) == Tally(order)
  {
    var kept := Without(order[source], id);
    var mid := order[source := kept];
    TallyUpdate(order, source, kept);
    TallyUpdate(mid, target, order[target] + [id]);
    CountInGroup(order, source, id);
    MovedGroups(order[source], order[target], id);
    SwapOut(Tally(order), Tally(mid), Tally(mid[target := order[target] + [id]]),
            multiset(order[source]), multiset(kept), multiset(order[target]), multiset(order[target] + [id]));
  }

  lemma SwapOut(t0: multiset<string>, t1: multiset<string>, t2: multiset<string>,
                s0: multiset<string>, s1: multiset<string>, g0: multiset<string>, g1: multiset<string>)
    requires t1 + s0 == t0 + s1 && t2 + g0 == t1 + g1 && s1 + g1 == s0 + g0
    ensures t2 == t0
  {
    forall x ensures t2[x] == t0[x] {
      assert (t1 + s0)[x] == (t0 + s1)[x];
      assert (t2 + g0)[x] == (t1 + g1)[x];
      assert (s1 + g1)[x] == (s0 + g0)[x];
    }
  }

  lemma MovedGroups(from: Group, to: Group, id: string)
    requires multiset(from)[id] == 1
    ensures multiset(Without(from, id)) + multiset(to + [id]) == multiset(from) + multiset(to)
  {
    WithoutTally(from, id);
    assert multiset(to + [id]) == multiset(to) + multiset{id};
  }

  lemma CountInGroup(order: Order, i: nat, x: string)
    requires i < |order|
    ensures multiset(order[i])[x] <= Tally(order)[x]
  {
    TallyAround(order, i);
  }
}

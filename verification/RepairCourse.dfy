/** A run of the repair loop over different items: it does what was decided before it. */
module RepairCourse {
  import opened Text
  import opened Orders
  import opened RepairModel
  import opened TaskSplits
  import opened GroupMoves
  import opened BulkRepair
  import opened RepairBook
  import opened RepairRun
  import opened RepairJob

  // ---------------------------------------------------------------- on course

  ghost predicate DistinctItems(items: seq<Missing>) {
    forall a, b :: 0 <= a < b < |items| ==> items[a].taskId != items[b].taskId
  }

  /** The decision gives some task a blank repo path. */
  ghost predicate DecidesBlank(d: Decision) {
    match d
    case Stop(_) => false
    case Assign(repoPath, _) => IsBlank(repoPath)
    case Split(specs) => SomeBlank(SplitPaths(specs))
  }

  ghost predicate SomeBlank(paths: seq<string>) {
    exists path :: path in paths && IsBlank(path)
  }

  ghost predicate MapsBlank(repoPaths: map<string, string>) {
    exists x :: x in repoPaths && IsBlank(repoPaths[x])
  }

  /** An item still to come is as the scan found it: lacking, listed, and the task the loop started with. */
  ghost predicate AsScanned(j: Job, p: Progress, l: Ledger, x: string)
    requires Full(j.start) && Full(l)
  {
    && (x in l.now.rootById <==> x in j.start.now.rootById) && (x in l.now.rootById ==> StillThere(j, l, x))
    && x !in p.made && x !in p.resolved
    && LacksBy(l, x) && ListedInRange(l.now.regroupOrder, x, j.range)
  }

  /** The indexed ids: split originals were traded for created splits. */
  ghost predicate KeysTraded(j: Job, p: Progress, l: Ledger) {
    && l.now.rootById.Keys == j.start.now.rootById.Keys - ToSet(p.gone) + ToSet(p.made)
    && AllKeys(l.now) == AllKeys(j.start.now) - ToSet(p.gone) + ToSet(p.made)
    && ToSet(p.gone) <= AllKeys(j.start.now)
  }

  /** The ids with a blank path are exactly the lacking ones among the repaired. */
  ghost predicate BlanksLack(j: Job, p: Progress, l: Ledger)
    requires Full(l)
  {
    && (forall x :: x in p.resolved ==> x in l.now.rootById)
    && (forall x :: Blank(p, x) ==> LacksBy(l, x) && ListedInRange(l.now.regroupOrder, x, j.range))
  }

  ghost predicate BlanksDecided(j: Job, i: nat, p: Progress)
    requires i <= |j.ds|
  {
    (exists k :: 0 <= k < i && DecidesBlank(j.ds[k])) <==> exists x :: Blank(p, x)
  }

  /** What holds besides when no two items have the same id: the loop does what was decided before it. */
  ghost predicate OnCourse(j: Job, i: nat, p: Progress, l: Ledger)
    requires Full(j.start) && Full(l) && i <= |j.items| == |j.ds|
  {
    && p == Replay(j.items[..i], j.ds[..i])
    && (forall k :: i <= k < |j.items| ==> AsScanned(j, p, l, j.items[k].taskId))
    && KeysTraded(j, p, l) && BlanksLack(j, p, l) && BlanksDecided(j, i, p)
  }

  lemma AssignedBlanks(j: Job, p: Progress, l: Ledger, l': Ledger, item: Missing, repoPath: string, byReview: bool)
    requires Full(l) && Full(l') && BlanksLack(j, p, l) && Assigned(l, l', item.taskId, repoPath)
    requires item.taskId in l.now.rootById && LacksBy(l, item.taskId) && ListedInRange(l.now.regroupOrder, item.taskId, j.range)
    ensures BlanksLack(j, Recorded(p, WasAssigned(repoPath, byReview), item), l')
  {
    var id, q := item.taskId, Recorded(p, WasAssigned(repoPath, byReview), item);
    forall x | Blank(q, x) ensures LacksBy(l', x) && ListedInRange(l'.now.regroupOrder, x, j.range) {
      AssignedLacks(l, l', id, repoPath, x);
      if x != id {
        assert Blank(p, x);
      }
    }
  }

  lemma AssignedAsScanned(j: Job, p: Progress, l: Ledger, l': Ledger, item: Missing, repoPath: string, byReview: bool, x: string)
    requires Full(j.start) && Full(l) && Full(l') && AsScanned(j, p, l, x) && x != item.taskId
    requires Assigned(l, l', item.taskId, repoPath)
    ensures AsScanned(j, Recorded(p, WasAssigned(repoPath, byReview), item), l', x)
  {
    AssignedLacks(l, l', item.taskId, repoPath, x);
  }

  lemma MoreBlanks(j: Job, i: nat, p: Progress, q: Progress, added: map<string, string>)
    requires i < |j.ds| && BlanksDecided(j, i, p) && q.resolved == p.resolved + added
    requires forall x :: x in added ==> x !in p.resolved
    requires DecidesBlank(j.ds[i]) <==> MapsBlank(added)
    ensures BlanksDecided(j, i + 1, q)
  {
    assert forall x :: Blank(q, x) <==> Blank(p, x) || (x in added && IsBlank(added[x]));
    if k :| 0 <= k < i + 1 && DecidesBlank(j.ds[k]) {
      if k == i {
        var x :| x in added && IsBlank(added[x]);
        assert Blank(q, x);
      } else {
        assert 0 <= k < i;
        var x :| Blank(p, x);
        assert Blank(q, x);
      }
    }
    if x :| Blank(q, x) && !Blank(p, x) {
      assert DecidesBlank(j.ds[i]);
    }
  }

  lemma AssignedBlanksDecided(j: Job, i: nat, p: Progress, repoPath: string, byReview: bool)
    requires i < |j.items| == |j.ds| && BlanksDecided(j, i, p) && j.ds[i] == Assign(repoPath, byReview)
    requires j.items[i].taskId !in p.resolved
    ensures BlanksDecided(j, i + 1, Recorded(p, WasAssigned(repoPath, byReview), j.items[i]))
  {
    var added := map[j.items[i].taskId := repoPath];
    assert j.items[i].taskId in added;
    MoreBlanks(j, i, p, Recorded(p, WasAssigned(repoPath, byReview), j.items[i]), added);
  }

  lemma AssignedRest(j: Job, i: nat, p: Progress, l: Ledger, l': Ledger, repoPath: string, byReview: bool)
    requires Full(j.start) && Full(l) && Full(l') && i < |j.items| && DistinctItems(j.items)
    requires forall k :: i <= k < |j.items| ==> AsScanned(j, p, l, j.items[k].taskId)
    requires Assigned(l, l', j.items[i].taskId, repoPath)
    ensures forall k :: i + 1 <= k < |j.items| ==>
              AsScanned(j, Recorded(p, WasAssigned(repoPath, byReview), j.items[i]), l', j.items[k].taskId)
  {
    forall k | i + 1 <= k < |j.items|
      ensures AsScanned(j, Recorded(p, WasAssigned(repoPath, byReview), j.items[i]), l', j.items[k].taskId)
    {
      AssignedAsScanned(j, p, l, l', j.items[i], repoPath, byReview, j.items[k].taskId);
    }
  }

  /** The parts of one more step on course. */
  lemma StaysOnCourse(j: Job, i: nat, p: Progress, outcome: Outcome, l': Ledger)
    requires Full(j.start) && Full(l') && i < |j.items| == |j.ds|
    requires p == Replay(j.items[..i], j.ds[..i]) && outcome == Expected(j.ds[i])
    requires forall k :: i + 1 <= k < |j.items| ==> AsScanned(j, Recorded(p, outcome, j.items[i]), l', j.items[k].taskId)
    requires KeysTraded(j, Recorded(p, outcome, j.items[i]), l')
    requires BlanksLack(j, Recorded(p, outcome, j.items[i]), l')
    requires BlanksDecided(j, i + 1, Recorded(p, outcome, j.items[i]))
    ensures OnCourse(j, i + 1, Recorded(p, outcome, j.items[i]), l')
  {
    ReplayMore(j.items, j.ds, i);
  }

  lemma AssignedTradesKeys(j: Job, p: Progress, l: Ledger, l': Ledger, item: Missing, repoPath: string, byReview: bool)
    requires KeysTraded(j, p, l) && l'.now == l.now
    ensures KeysTraded(j, Recorded(p, WasAssigned(repoPath, byReview), item), l')
  {
  }

  lemma AssignedOnCourse(j: Job, i: nat, p: Progress, l: Ledger, l': Ledger, repoPath: string, byReview: bool)
    requires Full(j.start) && Full(l) && Full(l') && i < |j.items| == |j.ds| && DistinctItems(j.items)
    requires OnCourse(j, i, p, l) && j.ds[i] == Assign(repoPath, byReview) && j.items[i].taskId in l.now.rootById
    requires Assigned(l, l', j.items[i].taskId, repoPath)
    ensures OnCourse(j, i + 1, Recorded(p, WasAssigned(repoPath, byReview), j.items[i]), l')
  {
    assert AsScanned(j, p, l, j.items[i].taskId);
    hide Strip, StillThere, DecidesBlank, KeysTraded, BlanksLack, BlanksDecided;
    AssignedTradesKeys(j, p, l, l', j.items[i], repoPath, byReview);
    AssignedRest(j, i, p, l, l', repoPath, byReview);
    AssignedBlanks(j, p, l, l', j.items[i], repoPath, byReview);
    AssignedBlanksDecided(j, i, p, repoPath, byReview);
    StaysOnCourse(j, i, p, WasAssigned(repoPath, byReview), l');
  }

  // splits

  lemma DifferentIds(ids: seq<string>)
    requires NoRepeats(ids)
    ensures AllDifferent(ids)
  {
    forall a, b | 0 <= a < b < |ids| ensures ids[a] != ids[b] {
      assert ids == ids[..b] + [ids[b]] + ids[b + 1..];
      assert ids[a] in ids[..b];
      assert multiset(ids) == multiset(ids[..b]) + multiset{ids[b]} + multiset(ids[b + 1..]);
      assert multiset(ids)[ids[b]] <= 1;
    }
  }

  lemma BlankValueIff(keys: seq<string>, values: seq<string>)
    requires |keys| == |values| && NoRepeats(keys)
    ensures SomeBlank(values) <==> MapsBlank(Pairs(keys, values))
  {
    DifferentIds(keys);
    if v :| v in values && IsBlank(v) {
      var k :| 0 <= k < |values| && values[k] == v;
      PairsAt(keys, values, k);
      assert keys[k] in Pairs(keys, values);
    }
    if x :| x in Pairs(keys, values) && IsBlank(Pairs(keys, values)[x]) {
      PairsOnly(keys, values, x);
    }
  }

  lemma SplitBlanksDecided(j: Job, i: nat, p: Progress, specs: seq<SplitSpec>)
    requires i < |j.items| == |j.ds| && BlanksDecided(j, i, p) && j.ds[i] == Split(specs) && NoRepeats(SplitIds(specs))
    requires forall x :: x in SplitRepoPaths(specs) ==> x !in p.resolved
    ensures BlanksDecided(j, i + 1, Recorded(p, Expected(Split(specs)), j.items[i]))
  {
    BlankValueIff(SplitIds(specs), SplitPaths(specs));
    MoreBlanks(j, i, p, Recorded(p, Expected(Split(specs)), j.items[i]), SplitRepoPaths(specs));
  }

  lemma SplitAsScanned(j: Job, p: Progress, l: Ledger, l': Ledger, item: Missing, repoId: string, splits: seq<Task>,
                       created: seq<string>, repoPaths: map<string, string>, x: string)
    requires Full(j.start) && Full(l) && Full(l') && AsScanned(j, p, l, x) && x != item.taskId
    requires SplitOff(l, l', item.taskId, repoId, splits, created, repoPaths)
    ensures AsScanned(j, Recorded(p, WasSplit(created, repoPaths), item), l', x)
  {
    if x in repoPaths {
      SplitHere(l, l', item.taskId, repoId, splits, created, repoPaths, x);
    } else {
      SplitElsewhere(l, l', item.taskId, repoId, splits, created, repoPaths, x);
      assert x !in created by {
        assert x !in ToSet(created);
      }
      ListedAfterSplit(l.now.regroupOrder, item.taskId, created, x, j.range);
    }
  }

  lemma TradeKeys(start: set<string>, gone: seq<string>, made: seq<string>, id: string, created: seq<string>)
    requires id !in made
    ensures start - ToSet(gone) + ToSet(made) - {id} + ToSet(created) == start - ToSet(gone + [id]) + ToSet(made + created)
  {
  }

  lemma SplitTradesKeys(j: Job, p: Progress, l: Ledger, l': Ledger, item: Missing, repoId: string, splits: seq<Task>,
                        created: seq<string>, repoPaths: map<string, string>)
    requires Full(l) && Full(l') && KeysTraded(j, p, l) && item.taskId !in p.made && item.taskId in AllKeys(j.start.now)
    requires SplitOff(l, l', item.taskId, repoId, splits, created, repoPaths) && item.taskId in l.now.rootById
    ensures KeysTraded(j, Recorded(p, WasSplit(created, repoPaths), item), l')
  {
    var id, q := item.taskId, Recorded(p, WasSplit(created, repoPaths), item);
    SplitKeys(l, l', id, repoId, splits, created, repoPaths);
    TradeKeys(j.start.now.rootById.Keys, p.gone, p.made, id, created);
    TradeKeys(AllKeys(j.start.now), p.gone, p.made, id, created);
    assert q.gone == p.gone + [id] && q.made == p.made + created;
  }

  lemma SplitKeys(l: Ledger, l': Ledger, id: string, repoId: string, splits: seq<Task>, created: seq<string>,
                  repoPaths: map<string, string>)
    requires SplitOff(l, l', id, repoId, splits, created, repoPaths)
    ensures l'.now.rootById.Keys == l.now.rootById.Keys - {id} + ToSet(created)
    ensures AllKeys(l'.now) == AllKeys(l.now) - {id} + ToSet(created)
  {
    IndexAllKeys(l.now.rootById - {id}, splits);
    IndexAllKeys(l.now.regroupById - {id}, splits);
  }

  lemma SplitBlanks(j: Job, p: Progress, l: Ledger, l': Ledger, item: Missing, repoId: string, splits: seq<Task>,
                    created: seq<string>, repoPaths: map<string, string>)
    requires Full(l) && Full(l') && BlanksLack(j, p, l)
    requires SplitOff(l, l', item.taskId, repoId, splits, created, repoPaths) && IsBlank(repoId)
    requires item.taskId !in p.resolved && ListedInRange(l.now.regroupOrder, item.taskId, j.range)
    ensures BlanksLack(j, Recorded(p, WasSplit(created, repoPaths), item), l')
  {
    var id, q := item.taskId, Recorded(p, WasSplit(created, repoPaths), item);
    forall x | x in q.resolved ensures x in l'.now.rootById
    {
      if x in repoPaths {
        SplitHere(l, l', id, repoId, splits, created, repoPaths, x);
      } else {
        SplitElsewhere(l, l', id, repoId, splits, created, repoPaths, x);
      }
    }
    forall x | Blank(q, x) ensures LacksBy(l', x) && ListedInRange(l'.now.regroupOrder, x, j.range) {
      ListedAfterSplit(l.now.regroupOrder, id, created, x, j.range);
      if x in repoPaths {
        SplitHere(l, l', id, repoId, splits, created, repoPaths, x);
      } else {
        assert Blank(p, x);
        SplitElsewhere(l, l', id, repoId, splits, created, repoPaths, x);
      }
    }
  }

  lemma SplitOnCourse(j: Job, i: nat, p: Progress, l: Ledger, l': Ledger, repoId: string, splits: seq<Task>, specs: seq<SplitSpec>)
    requires Full(j.start) && Full(l) && Full(l') && i < |j.items| == |j.ds| && DistinctItems(j.items)
    requires OnCourse(j, i, p, l) && j.ds[i] == Split(specs)
    requires j.items[i].taskId in l.now.rootById && l.now.rootById[j.items[i].taskId].repoId == repoId
    requires SplitOff(l, l', j.items[i].taskId, repoId, splits, SplitIds(specs), SplitRepoPaths(specs))
    ensures OnCourse(j, i + 1, Recorded(p, Expected(Split(specs)), j.items[i]), l')
  {
    var item, created, repoPaths := j.items[i], SplitIds(specs), SplitRepoPaths(specs);
    var q := Recorded(p, Expected(Split(specs)), item);
    assert AsScanned(j, p, l, item.taskId);
    forall k | i + 1 <= k < |j.items| ensures AsScanned(j, q, l', j.items[k].taskId) {
      SplitAsScanned(j, p, l, l', item, repoId, splits, created, repoPaths, j.items[k].taskId);
    }
    SplitTradesKeys(j, p, l, l', item, repoId, splits, created, repoPaths);
    SplitBlanks(j, p, l, l', item, repoId, splits, created, repoPaths);
    forall x | x in repoPaths ensures x !in p.resolved {
      SplitHere(l, l', item.taskId, repoId, splits, created, repoPaths, x);
    }
    SplitBlanksDecided(j, i, p, specs);
    StaysOnCourse(j, i, p, Expected(Split(specs)), l');
  }

  // ---------------------------------------------------------------- orders that agree

  /** The payload orders agree. */
  ghost predicate Ordered(j: Job) {
    Agree(j.start.now.rootOrder, j.start.now.regroupOrder, j.range.offset)
  }

  /** No created id is one that the orders listed without a definition. */
  ghost predicate NoClash(s0: Standing, made: seq<string>) {
    ToSet(made) !! Undefined(s0)
  }

  /** As long as no created id clashes, the orders have traded split originals for splits. */
  ghost predicate OrdersTraded(j: Job, p: Progress, l: Ledger) {
    Ordered(j) && NoClash(j.start.now, p.made) ==>
      Traded(j.start.now, j.range.offset, p.gone, p.made, l.now.rootOrder, l.now.regroupOrder)
  }

  lemma ListedIsCounted(order: Order, x: string, range: Range)
    requires ListedInRange(order, x, range)
    ensures x in Tally(order)
  {
    InTally(order, x);
  }

  lemma CreatedAreUnlisted(j: Job, p: Progress, l: Ledger, splits: seq<Task>, created: seq<string>, x: string)
    requires Ordered(j) && KeysTraded(j, p, l) && x in created && x !in Undefined(j.start.now)
    requires Traded(j.start.now, j.range.offset, p.gone, p.made, l.now.rootOrder, l.now.regroupOrder)
    requires NewTasks(splits, l.now.rootById) && NewTasks(splits, l.now.regroupById) && ToSet(created) == IdsOf(splits)
    ensures x !in Tally(l.now.rootOrder) && x !in Tally(l.now.regroupOrder)
  {
    assert x in IdsOf(splits) by {
      assert x in ToSet(created);
    }
    assert x !in AllKeys(l.now);
    NewIdsAreUnlisted(j.start.now, p.gone, p.made, AllKeys(l.now), l.now.rootOrder, j.start.now.rootOrder, x);
    NewIdsAreUnlisted(j.start.now, p.gone, p.made, AllKeys(l.now), l.now.regroupOrder, j.start.now.regroupOrder, x);
  }

  lemma SplitKeepsOrders(j: Job, p: Progress, l: Ledger, l': Ledger, item: Missing, repoId: string, splits: seq<Task>,
                         created: seq<string>, repoPaths: map<string, string>)
    requires Full(j.start) && Full(l) && Full(l') && AsScanned(j, p, l, item.taskId) && KeysTraded(j, p, l) && OrdersTraded(j, p, l)
    requires SplitOff(l, l', item.taskId, repoId, splits, created, repoPaths)
    ensures OrdersTraded(j, Recorded(p, WasSplit(created, repoPaths), item), l')
  {
    if Ordered(j) && NoClash(j.start.now, p.made + created) {
      assert forall x :: x in p.made + created ==> x in ToSet(p.made + created);
      assert NoClash(j.start.now, p.made);
      forall x | x in created ensures x !in Tally(l.now.rootOrder) && x !in Tally(l.now.regroupOrder) {
        CreatedAreUnlisted(j, p, l, splits, created, x);
      }
      ListedIsCounted(l.now.regroupOrder, item.taskId, j.range);
      SplitKeepsTrade(j.start.now, j.range.offset, p.gone, p.made, l.now.rootOrder, l.now.regroupOrder, item.taskId, created);
    }
  }

  /** A created id that the orders listed without a definition is listed twice in the end. */
  lemma ClashBreaksTrade(s0: Standing, offset: int, gone: seq<string>, made: seq<string>, root: Order, derived: Order)
    requires Traded(s0, offset, gone, made, root, derived) && ToSet(gone) <= AllKeys(s0)
    ensures NoClash(s0, made)
  {
    forall x | x in ToSet(made) ensures x !in Undefined(s0) {
      if x !in AllKeys(s0) {
        assert x !in ToSet(gone);
        WasUnlisted(Tally(s0.rootOrder), Tally(root), gone, made, x);
        WasUnlisted(Tally(s0.regroupOrder), Tally(derived), gone, made, x);
      }
    }
  }

  lemma WasUnlisted(before: multiset<string>, after: multiset<string>, gone: seq<string>, made: seq<string>, x: string)
    requires after == before - multiset(gone) + multiset(made) && after[x] <= 1
    requires x in ToSet(made) && x !in ToSet(gone)
    ensures x !in before
  {
    assert x in multiset(made) && x !in multiset(gone);
  }

  // ---------------------------------------------------------------- whether every split goes through

  /** What a reviewed split asks of the tasks, the ids in use and the paths of its task. */
  ghost predicate Passes(tasks: seq<Task>, id: string, scope: set<string>, specs: seq<SplitSpec>, existing: set<string>,
                         known: set<string>)
  {
    && specs != [] && !HasDownstream(tasks, id)
    && AllUsable(specs, |specs|, existing, known, scope) && SelectedPaths(specs) == scope
  }

  /** The i-th decision goes through, as far as can be said before the loop: a split against the
      ids that the decisions before it leave in use. */
  ghost predicate Goes(start: Ledger, items: seq<Missing>, ds: seq<Decision>, known: set<string>, i: nat)
    requires Full(start) && i < |items| == |ds|
  {
    match ds[i]
    case Stop(_) => false
    case Assign(_, _) => true
    case Split(specs) =>
      var id, done := items[i].taskId, Replay(items[..i], ds[..i]);
      && id in start.now.rootById
      && Passes(start.now.rootTasks, id, Scopes(start.now.rootById, start.rootFiles)[id], specs,
                AllKeys(start.now) - ToSet(done.gone) + ToSet(done.made), known)
  }

  ghost predicate AllGo(start: Ledger, items: seq<Missing>, ds: seq<Decision>, known: set<string>, n: nat)
    requires Full(start) && n <= |items| == |ds|
  {
    forall i :: 0 <= i < n ==> Goes(start, items, ds, known, i)
  }

  /** The root tasks that share the id of a task to be split have the same dependencies. */
  ghost predicate DependAlike(tasks: seq<Task>, items: seq<Missing>, ds: seq<Decision>)
    requires |ds| == |items|
  {
    forall i, t, u :: 0 <= i < |items| && ds[i].Split? && t in tasks && u in tasks && t.id == u.id == items[i].taskId ==>
      t.dependencies == u.dependencies
  }

  /** An order after the splits that were decided. */
  function ReplayOrder(items: seq<Missing>, ds: seq<Decision>, order: Order): Order
    requires |ds| == |items|
  {
    if items == [] then order
    else
      var n := |items| - 1;
      var before := ReplayOrder(items[..n], ds[..n], order);
      match ds[n]
      case Split(specs) => ReplaceInOrder(before, items[n].taskId, SplitIds(specs))
      case _ => before
  }

  lemma ReplayOrderMore(items: seq<Missing>, ds: seq<Decision>, order: Order, i: nat)
    requires |ds| == |items| && i < |items|
    ensures ReplayOrder(items[..i + 1], ds[..i + 1], order) ==
              match ds[i]
              case Split(specs) => ReplaceInOrder(ReplayOrder(items[..i], ds[..i], order), items[i].taskId, SplitIds(specs))
              case _ => ReplayOrder(items[..i], ds[..i], order)
  {
    assert items[..i + 1][..i] == items[..i] && ds[..i + 1][..i] == ds[..i];
  }

  /** The tasks and orders are those that the decisions so far leave. */
  ghost predicate AsReplayed(j: Job, i: nat, p: Progress, l: Ledger)
    requires i <= |j.items| == |j.ds|
  {
    && l.now.rootOrder == ReplayOrder(j.items[..i], j.ds[..i], j.start.now.rootOrder)
    && l.now.regroupOrder == ReplayOrder(j.items[..i], j.ds[..i], j.start.now.regroupOrder)
    && (forall t :: t in l.now.rootTasks ==> t in j.start.now.rootTasks || t.id in p.made)
    && (forall x :: HasDownstream(l.now.rootTasks, x) <==> HasDownstream(j.start.now.rootTasks, x))
  }

  /** Dependents stay dependents through a split: the splits inherit. */
  lemma SplitKeepsDownstream(tasks: seq<Task>, id: string, task: Task, splits: seq<Task>, x: string)
    requires task in tasks && task.id == id != "" && Inherit(splits, task) && forall t :: t in splits ==> t.id != ""
    requires forall t :: t in tasks && t.id == id ==> t.dependencies == task.dependencies
    ensures HasDownstream(ReplaceTask(tasks, id, splits), x) <==> HasDownstream(tasks, x)
  {
    var after := ReplaceTask(tasks, id, splits);
    if t :| t in tasks && t.id != "" && x in t.dependencies {
      InReplacedTasks(tasks, id, splits, t);
      InReplacedTasks(tasks, id, splits, splits[0]);
      assert splits[0] in splits;
    }
    if t :| t in after && t.id != "" && x in t.dependencies {
      InReplacedTasks(tasks, id, splits, t);
    }
  }

  lemma AssignedReplayed(j: Job, i: nat, p: Progress, l: Ledger, l': Ledger, outcome: Outcome)
    requires i < |j.items| == |j.ds| && AsReplayed(j, i, p, l) && j.ds[i].Assign? && outcome.WasAssigned? && l'.now == l.now
    ensures AsReplayed(j, i + 1, Recorded(p, outcome, j.items[i]), l')
  {
    ReplayOrderMore(j.items, j.ds, j.start.now.rootOrder, i);
    ReplayOrderMore(j.items, j.ds, j.start.now.regroupOrder, i);
  }

  /** The task that the index holds for a split, and the tasks the list holds. */
  lemma AlikeNow(j: Job, i: nat, p: Progress, l: Ledger)
    requires i < |j.items| == |j.ds| && AsReplayed(j, i, p, l) && j.ds[i].Split? && Coherent(l.now)
    requires DependAlike(j.start.now.rootTasks, j.items, j.ds) && j.items[i].taskId !in p.made
    requires j.items[i].taskId in l.now.rootById && l.now.rootById[j.items[i].taskId].id == j.items[i].taskId
    ensures var id := j.items[i].taskId; var task := l.now.rootById[id];
      task in l.now.rootTasks && forall t :: t in l.now.rootTasks && t.id == id ==> t.dependencies == task.dependencies
  {
    IndexedTasks(l.now.rootTasks);
  }

  lemma SplitReplayed(j: Job, i: nat, p: Progress, l: Ledger, l': Ledger, repoId: string, splits: seq<Task>, specs: seq<SplitSpec>)
    requires i < |j.items| == |j.ds| && AsReplayed(j, i, p, l) && j.ds[i] == Split(specs) && Coherent(l.now)
    requires DependAlike(j.start.now.rootTasks, j.items, j.ds) && j.items[i].taskId !in p.made && j.items[i].taskId != ""
    requires j.items[i].taskId in l.now.rootById && l.now.rootById[j.items[i].taskId].id == j.items[i].taskId
    requires SplitOff(l, l', j.items[i].taskId, repoId, splits, SplitIds(specs), SplitRepoPaths(specs))
    requires Inherit(splits, l.now.rootById[j.items[i].taskId])
    ensures AsReplayed(j, i + 1, Recorded(p, Expected(Split(specs)), j.items[i]), l')
  {
    hide SplitIds, SplitRepoPaths, ReplayOrder, Coherent, HasDownstream;
    var id := j.items[i].taskId;
    ReplayOrderMore(j.items, j.ds, j.start.now.rootOrder, i);
    ReplayOrderMore(j.items, j.ds, j.start.now.regroupOrder, i);
    AlikeNow(j, i, p, l);
    forall x ensures HasDownstream(l'.now.rootTasks, x) <==> HasDownstream(j.start.now.rootTasks, x) {
      SplitKeepsDownstream(l.now.rootTasks, id, l.now.rootById[id], splits, x);
    }
    forall t | t in l'.now.rootTasks ensures t in j.start.now.rootTasks || t.id in p.made + SplitIds(specs) {
      InReplacedTasks(l.now.rootTasks, id, splits, t);
      if t in splits {
        assert t.id in ToSet(SplitIds(specs));
      }
    }
  }

  /** What a split asks is, on course, what was said before the loop. */
  lemma PassesOnCourse(j: Job, i: nat, p: Progress, l: Ledger, specs: seq<SplitSpec>)
    requires Full(j.start) && Full(l) && i < |j.items| == |j.ds| && j.ds[i] == Split(specs)
    requires OnCourse(j, i, p, l) && AsReplayed(j, i, p, l) && j.items[i].taskId in l.now.rootById
    ensures var id := j.items[i].taskId;
      Goes(j.start, j.items, j.ds, j.known, i)
      <==> Passes(l.now.rootTasks, id, Scopes(l.now.rootById, l.rootFiles)[id], specs, AllKeys(l.now), j.known)
  {
    hide AllUsable, HasDownstream, BlanksLack, BlanksDecided, ReplayOrder;
    assert AsScanned(j, p, l, j.items[i].taskId);
  }
}

/** What a repair makes of the payloads, compared as values: the loop and then the group moves. */
module RepairResult {
  import opened Text
  import opened Orders
  import opened RepairModel
  import opened TaskSplits
  import opened GroupMoves
  import opened BulkRepair
  import opened RepairBook
  import opened RepairRun
  import opened RepairJob
  import opened RepairCourse
  import opened RepairLoop
  import opened RepairCopies

  // ---------------------------------------------------------------- what is promised

  /** Every root task that was not split is still defined, as it was. */
  ghost predicate Conserves(before: Ledger, gone: seq<string>, after: Ledger) {
    forall x :: x in before.now.rootById && x !in gone ==>
      x in after.now.rootById && SameDefinition(after.now.rootById[x], before.now.rootById[x])
  }

  /** The defined ids: split originals were traded for created splits. */
  ghost predicate KeysFollow(before: Ledger, p: Progress, after: Ledger) {
    && after.now.rootById.Keys == before.now.rootById.Keys - ToSet(p.gone) + ToSet(p.made)
    && (AllTrimmed(before.now.regroupTasks) ==>
         AllKeys(after.now) == AllKeys(before.now) - ToSet(p.gone) + ToSet(p.made))
  }

  /** Orders that agree come out agreeing, with split originals traded for splits, exactly if
      no created id is one that they listed without a definition. */
  ghost predicate OrdersFollow(before: Ledger, range: Range, p: Progress, after: Ledger) {
    Agree(before.now.rootOrder, before.now.regroupOrder, range.offset) ==>
      (NoClash(before.now, p.made) <==>
       Traded(before.now, range.offset, p.gone, p.made, after.now.rootOrder, after.now.regroupOrder))
  }

  /** No id that a group in range lists lacks an identity. */
  ghost predicate Clear(l: Ledger, range: Range)
    requires Full(l)
  {
    forall x :: ListedInRange(l.now.regroupOrder, x, range) ==> !LacksBy(l, x)
  }

  /** What a repair without blockers has done, whatever the orders list. */
  ghost predicate Delivered(before: Ledger, p: Progress, after: Ledger) {
    Conserves(before, p.gone, after) && PathsFollow(before.rootRepos, p.resolved, after.rootRepos)
  }

  /** What it has done besides when the overlay's order lists no id twice: exactly what was decided. */
  ghost predicate DeliveredAsDecided(before: Ledger, range: Range, items: seq<Missing>, ds: seq<Decision>, p: Progress, after: Ledger)
    requires Full(after) && |ds| == |items|
  {
    && p == Replay(items, ds) && KeysFollow(before, p, after) && OrdersFollow(before, range, p, after)
    && (Clear(after, range) <==> forall d :: d in ds ==> !DecidesBlank(d))
  }

  // ---------------------------------------------------------------- from the indexes to the lists

  /** The ledger of the task lists behind the indexes of `l`. */
  ghost predicate Behind(mid: Ledger, l: Ledger) {
    && mid.now == Standing(l.now.rootTasks, l.now.rootOrder, l.now.regroupTasks, l.now.regroupOrder,
                           TasksById(l.now.rootTasks), TasksById(l.now.regroupTasks))
    && Full(mid) && Full(l) && Coherent(l.now)
    && mid.rootRepos == l.rootRepos && mid.rootFiles == l.rootFiles
    && (forall x :: x in l.regroupRepos && x in mid.regroupRepos && l.now.regroupById[x] == mid.now.regroupById[x] ==>
         mid.regroupRepos[x] == l.regroupRepos[x])
  }

  lemma HeldBehind(root: Dag, regroup: Dag, rootIndex: TaskIndex, regroupIndex: TaskIndex)
    requires Coherent(StandingOf(root, regroup, rootIndex, regroupIndex))
    ensures Behind(LedgerOfLists(root, regroup), LedgerOf(root, regroup, rootIndex, regroupIndex))
  {
  }

  /** For ids that the overlay's order lists, the lists and the indexes give the same answer. */
  lemma ListsLack(mid: Ledger, l: Ledger, x: string)
    requires Behind(mid, l) && x in Tally(l.now.regroupOrder)
    ensures LacksBy(mid, x) <==> LacksBy(l, x)
  {
  }

  lemma ListsClear(mid: Ledger, l: Ledger, range: Range)
    requires Behind(mid, l)
    ensures Clear(mid, range) <==> Clear(l, range)
  {
    forall x | ListedInRange(l.now.regroupOrder, x, range) ensures LacksBy(mid, x) <==> LacksBy(l, x) {
      ListedIsCounted(l.now.regroupOrder, x, range);
      ListsLack(mid, l, x);
    }
  }

  // ---------------------------------------------------------------- the loop

  /** A loop that ended without blockers: what holds of it. */
  ghost predicate Ended(j: Job, before: Ledger, p: Progress, l: Ledger) {
    && WellPosed(j) && Full(before) && Copied(j.start, before) && Repairing(j, |j.items|, p, l)
  }

  lemma LoopDelivers(j: Job, before: Ledger, p: Progress, l: Ledger, mid: Ledger)
    requires Ended(j, before, p, l) && Behind(mid, l)
    ensures Delivered(before, p, mid)
  {
    forall x | x in before.now.rootById && x !in p.gone
      ensures x in mid.now.rootById && SameDefinition(mid.now.rootById[x], before.now.rootById[x])
    {
      assert x in j.start.now.rootById && StillThere(j, l, x);
    }
  }

  lemma LoopClears(j: Job, before: Ledger, p: Progress, l: Ledger)
    requires Ended(j, before, p, l) && forall path :: path in j.known ==> !IsBlank(path)
    ensures Clear(l, j.range)
  {
    hide Strip, Originals, Conserved, PathsFollow, Coherent, Copied, WellPosed;
  }

  /** On course, the range is clear exactly if no decision gave a blank path. */
  lemma CourseClears(j: Job, before: Ledger, p: Progress, l: Ledger)
    requires Ended(j, before, p, l) && OnCourse(j, |j.items|, p, l)
    ensures Clear(l, j.range) <==> forall d :: d in j.ds ==> !DecidesBlank(d)
  {
    hide Conserved, PathsFollow, Originals, Coherent, AsScanned, KeysTraded, Copied, DecidesBlank;
    if d :| d in j.ds && DecidesBlank(d) {
      var k :| 0 <= k < |j.ds| && j.ds[k] == d;
      var x :| Blank(p, x);
      assert LacksBy(l, x);
    }
    if x :| ListedInRange(l.now.regroupOrder, x, j.range) && LacksBy(l, x) {
      assert Blank(p, x);
      var k :| 0 <= k < |j.items| && DecidesBlank(j.ds[k]);
      assert j.ds[k] in j.ds;
    }
  }

  lemma SpelledIsNotLeft(s: Standing, x: string)
    requires Coherent(s) && x in TasksById(s.regroupTasks) && TasksById(s.regroupTasks)[x].id == x
    ensures x in AllKeys(s)
  {
  }

  lemma TrimmedThroughout(j: Job, l: Ledger)
    requires Full(j.start) && Full(l) && Originals(j, l) && AllTrimmed(j.start.now.regroupTasks)
    ensures forall t :: t in l.now.regroupTasks ==> t.id == Key(t)
  {
  }

  /** No overlay task is left over if all were spelled like their ids. */
  lemma NothingLeftOver(j: Job, p: Progress, l: Ledger, mid: Ledger)
    requires WellPosed(j) && Repairing(j, |j.items|, p, l) && Behind(mid, l) && AllTrimmed(j.start.now.regroupTasks)
    ensures AllKeys(mid.now) == AllKeys(l.now)
  {
    hide Strip, Originals, Conserved, PathsFollow, OnlyPendingLack, SpelledAs, AllTrimmed;
    IndexedTasks(l.now.regroupTasks);
    TrimmedThroughout(j, l);
    forall x | x in TasksById(l.now.regroupTasks) ensures x in AllKeys(l.now) {
      SpelledIsNotLeft(l.now, x);
    }
  }

  lemma CourseKeys(j: Job, before: Ledger, p: Progress, l: Ledger, mid: Ledger)
    requires Ended(j, before, p, l) && OnCourse(j, |j.items|, p, l) && Behind(mid, l)
    ensures KeysFollow(before, p, mid)
  {
    assert AllKeys(j.start.now) == AllKeys(before.now);
    if AllTrimmed(before.now.regroupTasks) {
      CopiedTrimmed(j.start, before);
      NothingLeftOver(j, p, l, mid);
    }
  }

  lemma CourseTrades(j: Job, before: Ledger, p: Progress, l: Ledger)
    requires Ended(j, before, p, l) && OnCourse(j, |j.items|, p, l) && OrdersTraded(j, p, l)
    ensures ToSet(p.gone) <= AllKeys(before.now)
    ensures Agree(before.now.rootOrder, before.now.regroupOrder, j.range.offset) && NoClash(before.now, p.made) ==>
              Traded(before.now, j.range.offset, p.gone, p.made, l.now.rootOrder, l.now.regroupOrder)
  {
    assert AllKeys(j.start.now) == AllKeys(before.now);
    assert Undefined(j.start.now) == Undefined(before.now);
  }

  // ---------------------------------------------------------------- the moves

  ghost predicate TargetsReached(derived: Order, reviews: seq<Review>, offset: int) {
    forall i :: 0 <= i < |reviews| && reviews[i].target.Some? ==>
      InExactly(derived, reviews[i].taskId, reviews[i].target.value - offset)
  }

  /** The orders the moves start from. */
  function StartOrders(root: Order, derived: Order): MoveState {
    MoveState(root, derived, [], [], {})
  }

  /** The moves change the orders and nothing else. */
  ghost predicate MovedFrom(mid: Ledger, after: Ledger, end: MoveState) {
    after == mid.(now := mid.now.(rootOrder := end.root, regroupOrder := end.derived))
  }

  lemma MovesKeepClear(mid: Ledger, after: Ledger, reviews: seq<Review>, range: Range)
    requires range.first >= 0 && Full(mid)
    requires MovedFrom(mid, after, Run(StartOrders(mid.now.rootOrder, mid.now.regroupOrder), reviews, range))
    ensures Full(after) && (Clear(after, range) <==> Clear(mid, range))
  {
    forall x ensures ListedInRange(after.now.regroupOrder, x, range) <==> ListedInRange(mid.now.regroupOrder, x, range) {
      MovesKeepListed(StartOrders(mid.now.rootOrder, mid.now.regroupOrder), reviews, range, x);
    }
    assert forall x :: LacksBy(after, x) <==> LacksBy(mid, x);
  }

  lemma MovesKeepDelivered(before: Ledger, p: Progress, mid: Ledger, after: Ledger, end: MoveState)
    requires MovedFrom(mid, after, end)
    ensures Delivered(before, p, after) <==> Delivered(before, p, mid)
    ensures KeysFollow(before, p, after) <==> KeysFollow(before, p, mid)
  {
  }

  /** Traded orders stay traded under the moves, and every reviewed task ends in its target group. */
  lemma MovesKeepTrade(s0: Standing, gone: seq<string>, made: seq<string>, root: Order, derived: Order, reviews: seq<Review>,
                       range: Range, end: MoveState)
    requires range.first >= 0 && UniqueIds(reviews) && Traded(s0, range.offset, gone, made, root, derived)
    requires end == Run(StartOrders(root, derived), reviews, range) && end.blockers == []
    ensures Traded(s0, range.offset, gone, made, end.root, end.derived)
    ensures TargetsReached(end.derived, reviews, range.offset)
  {
    MovesConserve(StartOrders(root, derived), reviews, range);
    MovesPlace(StartOrders(root, derived), reviews, range);
  }

  lemma MovedOrdersFollow(before: Ledger, range: Range, p: Progress, mid: Ledger, after: Ledger, reviews: seq<Review>, end: MoveState)
    requires range.first >= 0 && UniqueIds(reviews) && MovedFrom(mid, after, end)
    requires end == Run(StartOrders(mid.now.rootOrder, mid.now.regroupOrder), reviews, range) && end.blockers == []
    requires ToSet(p.gone) <= AllKeys(before.now)
    requires Agree(before.now.rootOrder, before.now.regroupOrder, range.offset) && NoClash(before.now, p.made) ==>
               Traded(before.now, range.offset, p.gone, p.made, mid.now.rootOrder, mid.now.regroupOrder)
    ensures OrdersFollow(before, range, p, after)
    ensures Agree(before.now.rootOrder, before.now.regroupOrder, range.offset) && NoClash(before.now, p.made) ==>
              TargetsReached(after.now.regroupOrder, reviews, range.offset)
  {
    var root, derived := after.now.rootOrder, after.now.regroupOrder;
    if Agree(before.now.rootOrder, before.now.regroupOrder, range.offset) {
      if NoClash(before.now, p.made) {
        MovesKeepTrade(before.now, p.gone, p.made, mid.now.rootOrder, mid.now.regroupOrder, reviews, range, end);
      }
      if Traded(before.now, range.offset, p.gone, p.made, root, derived) {
        ClashBreaksTrade(before.now, range.offset, p.gone, p.made, root, derived);
      }
    }
  }

  // ---------------------------------------------------------------- the loop and the moves together

  ghost predicate NoBlankKnown(seedRepos: seq<Repo>) {
    forall path :: path in KnownRepoPaths(seedRepos) ==> !IsBlank(path)
  }

  /** What a run without blockers guarantees when the tasks to be split are spelled like their ids. */
  ghost predicate Accomplished(before: Ledger, range: Range, reviews: seq<Review>, registries: map<int, seq<Repo>>,
                               seedRepos: seq<Repo>, p: Progress, after: Ledger)
    requires Full(before) && Full(after)
  {
    && Delivered(before, p, after)
    && (NoBlankKnown(seedRepos) ==> Clear(after, range))
    && (DupFree(before.now.regroupOrder) ==>
         DeliveredAsDecided(before, range, ScanOf(before, range), DecisionsOn(before, range, reviews, registries, seedRepos), p, after))
    && (Agree(before.now.rootOrder, before.now.regroupOrder, range.offset) && NoClash(before.now, p.made) ==>
         TargetsReached(after.now.regroupOrder, reviews, range.offset))
  }

  /** Without splits, the loop records what was decided and the moves run on the payloads' own orders. */
  ghost predicate RanAsDecided(before: Ledger, range: Range, reviews: seq<Review>, ds: seq<Decision>, p: Progress,
                               moved: seq<string>, blockers: seq<Blocker>, after: Ledger)
    requires range.first >= 0 && Full(before) && |ds| == |ScanOf(before, range)|
  {
    SplitFree(ds) ==>
      var end := Run(StartOrders(before.now.rootOrder, before.now.regroupOrder), reviews, range);
      && p == Replay(ScanOf(before, range), ds) && blockers == p.blockers + end.blockers && moved == end.moved
      && after.now.rootOrder == end.root && after.now.regroupOrder == end.derived
  }

  lemma SpelledOnCopies(j: Job, before: Ledger)
    requires WellPosed(j) && Copied(j.start, before) && SplitsSpelled(before.now.rootTasks, j.items, j.ds)
    ensures Spelled(j)
  {
    forall i | 0 <= i < |j.items| && j.ds[i].Split? ensures SpelledAs(j.start.now.rootTasks, j.items[i].taskId) {
      CopiedSpelled(j.start, before, j.items[i].taskId);
    }
  }

  lemma CourseDelivers(j: Job, before: Ledger, range: Range, reviews: seq<Review>, p: Progress, l: Ledger, mid: Ledger, after: Ledger,
                       end: MoveState)
    requires range.first >= 0 && UniqueIds(reviews) && range == j.range
    requires Ended(j, before, p, l) && OnCourse(j, |j.items|, p, l) && OrdersTraded(j, p, l) && Behind(mid, l)
    requires MovedFrom(mid, after, end) && Full(after)
    requires end == Run(StartOrders(l.now.rootOrder, l.now.regroupOrder), reviews, range) && end.blockers == []
    ensures DeliveredAsDecided(before, range, j.items, j.ds, p, after)
    ensures Agree(before.now.rootOrder, before.now.regroupOrder, range.offset) && NoClash(before.now, p.made) ==>
              TargetsReached(after.now.regroupOrder, reviews, range.offset)
  {
    hide Ended, OnCourse, OrdersTraded, Agree, Traded, NoClash, TargetsReached, Clear, KeysFollow, OrdersFollow, DecidesBlank;
    CourseKeys(j, before, p, l, mid);
    MovesKeepDelivered(before, p, mid, after, end);
    CourseTrades(j, before, p, l);
    MovedOrdersFollow(before, range, p, mid, after, reviews, end);
    CourseClears(j, before, p, l);
    ListsClear(mid, l, range);
    MovesKeepClear(mid, after, reviews, range);
    CourseReplays(j, before, p, l);
  }

  lemma CourseReplays(j: Job, before: Ledger, p: Progress, l: Ledger)
    requires Ended(j, before, p, l) && OnCourse(j, |j.items|, p, l)
    ensures p == Replay(j.items, j.ds)
  {
    assert j.items[..|j.items|] == j.items && j.ds[..|j.items|] == j.ds;
  }

  lemma RunDelivers(j: Job, before: Ledger, range: Range, reviews: seq<Review>, registries: map<int, seq<Repo>>, seedRepos: seq<Repo>,
                    p: Progress, l: Ledger, mid: Ledger, after: Ledger, end: MoveState)
    requires range.first >= 0 && UniqueIds(reviews) && Full(before) && OnCopies(j, before, range, reviews, registries, seedRepos)
    requires Ended(j, before, p, l) && Behind(mid, l) && MovedFrom(mid, after, end) && Full(after)
    requires DistinctItems(j.items) ==> OnCourse(j, |j.items|, p, l) && OrdersTraded(j, p, l)
    requires end == Run(StartOrders(l.now.rootOrder, l.now.regroupOrder), reviews, range) && end.blockers == []
    ensures Accomplished(before, range, reviews, registries, seedRepos, p, after)
  {
    hide Ended, OnCourse, OrdersTraded, Traded, NoClash, TargetsReached, Clear, KeysFollow, OrdersFollow, DecidesBlank;
    LoopDelivers(j, before, p, l, mid);
    MovesKeepDelivered(before, p, mid, after, end);
    if NoBlankKnown(seedRepos) {
      LoopClears(j, before, p, l);
      ListsClear(mid, l, range);
      MovesKeepClear(mid, after, reviews, range);
    }
    if DupFree(before.now.regroupOrder) {
      ScannedAreDistinct(before, range);
      CourseDelivers(j, before, range, reviews, p, l, mid, after, end);
    }
  }

  /** The loop and the moves exactly, splits included: whether the loop is blocked, and the orders that
      the splits and the moves leave. */
  ghost predicate RanInFull(before: Ledger, range: Range, reviews: seq<Review>, ds: seq<Decision>, known: set<string>, p: Progress,
                            moved: seq<string>, blockers: seq<Blocker>, after: Ledger)
    requires range.first >= 0 && Full(before) && |ds| == |ScanOf(before, range)|
  {
    var items := ScanOf(before, range);
    DupFree(before.now.regroupOrder) && SplitsSpelled(before.now.rootTasks, items, ds) && DependAlike(before.now.rootTasks, items, ds) ==>
      var end := Run(StartOrders(ReplayOrder(items, ds, before.now.rootOrder), ReplayOrder(items, ds, before.now.regroupOrder)),
                     reviews, range);
      && (p.blockers == [] <==> AllGo(before, items, ds, known, |items|))
      && (p.blockers != [] ==> blockers != [])
      && (p.blockers == [] ==>
           blockers == end.blockers && moved == end.moved && after.now.rootOrder == end.root && after.now.regroupOrder == end.derived)
  }

  /** What every run guarantees. */
  ghost predicate Ran(before: Ledger, range: Range, reviews: seq<Review>, registries: map<int, seq<Repo>>, seedRepos: seq<Repo>,
                      p: Progress, moved: seq<string>, blockers: seq<Blocker>, after: Ledger)
    requires range.first >= 0 && Full(before) && Full(after)
  {
    var ds := DecisionsOn(before, range, reviews, registries, seedRepos);
    && (blockers == [] && SplitsSpelled(before.now.rootTasks, ScanOf(before, range), ds) ==>
         Accomplished(before, range, reviews, registries, seedRepos, p, after))
    && RanAsDecided(before, range, reviews, ds, p, moved, blockers, after)
    && RanInFull(before, range, reviews, ds, KnownRepoPaths(seedRepos), p, moved, blockers, after)
  }

  lemma SameAllGo(j: Job, before: Ledger)
    requires WellPosed(j) && Full(before) && Copied(j.start, before)
    ensures AllGo(j.start, j.items, j.ds, j.known, |j.items|) <==> AllGo(before, j.items, j.ds, j.known, |j.items|)
  {
    hide Goes, Copied;
    forall i | 0 <= i < |j.items| ensures Goes(j.start, j.items, j.ds, j.known, i) <==> Goes(before, j.items, j.ds, j.known, i) {
      SameGoes(j.start, before, j.items, j.ds, j.known, i);
    }
  }

  lemma FullRuns(j: Job, before: Ledger, range: Range, reviews: seq<Review>, registries: map<int, seq<Repo>>, seedRepos: seq<Repo>,
                 p: Progress, l: Ledger, after: Ledger, end: MoveState)
    requires range.first >= 0 && Full(before) && OnCopies(j, before, range, reviews, registries, seedRepos)
    requires Exact(j, |j.items|, p, l)
    requires end == Run(StartOrders(l.now.rootOrder, l.now.regroupOrder), reviews, range)
    requires after.now.rootOrder == end.root && after.now.regroupOrder == end.derived
    ensures RanInFull(before, range, reviews, j.ds, KnownRepoPaths(seedRepos), p, end.moved, p.blockers + end.blockers, after)
  {
    hide AllGo, DependAlike, SplitsSpelled, DupFree, Run, ReplayOrder, DistinctItems, DecisionsOn, Coherent;
    assert j.items[..|j.items|] == j.items && j.ds[..|j.items|] == j.ds;
    if DupFree(before.now.regroupOrder) && SplitsSpelled(before.now.rootTasks, j.items, j.ds)
       && DependAlike(before.now.rootTasks, j.items, j.ds) {
      ScannedAreDistinct(before, range);
      SpelledOnCopies(j, before);
      SameDependAlike(j.start, before, j.items, j.ds);
      SameAllGo(j, before);
    }
  }

  lemma PlainRuns(j: Job, before: Ledger, range: Range, reviews: seq<Review>, registries: map<int, seq<Repo>>, seedRepos: seq<Repo>,
                  p: Progress, l: Ledger, after: Ledger, end: MoveState)
    requires range.first >= 0 && Full(before) && OnCopies(j, before, range, reviews, registries, seedRepos)
    requires Plain(j, |j.items|, p, l)
    requires end == Run(StartOrders(l.now.rootOrder, l.now.regroupOrder), reviews, range)
    requires after.now.rootOrder == end.root && after.now.regroupOrder == end.derived
    ensures RanAsDecided(before, range, reviews, j.ds, p, end.moved, p.blockers + end.blockers, after)
  {
    assert j.items[..|j.items|] == j.items && j.ds[..|j.items|] == j.ds;
  }

  lemma RunIsSound(j: Job, before: Ledger, range: Range, reviews: seq<Review>, registries: map<int, seq<Repo>>, seedRepos: seq<Repo>,
                   p: Progress, l: Ledger, mid: Ledger, after: Ledger, end: MoveState)
    requires range.first >= 0 && UniqueIds(reviews) && Full(before) && OnCopies(j, before, range, reviews, registries, seedRepos)
    requires Full(l) && Sound(j, |j.items|, p, l) && Plain(j, |j.items|, p, l) && Exact(j, |j.items|, p, l)
    requires Coherent(l.now) ==> Behind(mid, l)
    requires end == Run(StartOrders(l.now.rootOrder, l.now.regroupOrder), reviews, range)
    requires MovedFrom(mid, after, end) && Full(after)
    ensures Ran(before, range, reviews, registries, seedRepos, p, end.moved, p.blockers + end.blockers, after)
  {
    hide OnCourse, OrdersTraded, Accomplished, RanAsDecided, RanInFull, Exact, SplitsSpelled, Copied, Coherent, Ongoing;
    PlainRuns(j, before, range, reviews, registries, seedRepos, p, l, after, end);
    FullRuns(j, before, range, reviews, registries, seedRepos, p, l, after, end);
    if p.blockers + end.blockers == [] && SplitsSpelled(before.now.rootTasks, j.items, j.ds) {
      SpelledOnCopies(j, before);
      RunDelivers(j, before, range, reviews, registries, seedRepos, p, l, mid, after, end);
    }
  }

  // ---------------------------------------------------------------- conditions a caller can check

  /** Stripped ids are spelled like their keys, so nothing stands in the way of any split. */
  lemma TrimmedIsSpelled(tasks: seq<Task>, items: seq<Missing>, ds: seq<Decision>)
    requires |ds| == |items| && AllTrimmed(tasks)
    ensures SplitsSpelled(tasks, items, ds)
  {
  }

  /** No created id clashes exactly if no split decision names an id listed without a definition. */
  lemma NoClashIff(s0: Standing, items: seq<Missing>, ds: seq<Decision>)
    requires |ds| == |items|
    ensures NoClash(s0, Replay(items, ds).made)
       <==> forall d, x :: d in ds && d.Split? && x in SplitIds(d.specs) ==> x !in Undefined(s0)
  {
    var made := Replay(items, ds).made;
    forall d, x | d in ds && d.Split? && x in SplitIds(d.specs) ensures x in ToSet(made) {
      ReplayMade(items, ds, x);
    }
    forall x | x in ToSet(made) ensures exists d :: d in ds && d.Split? && x in SplitIds(d.specs) {
      ReplayMade(items, ds, x);
    }
  }

  /** It is enough that no review names such an id for a split. */
  lemma ReviewsDoNotClash(before: Ledger, range: Range, reviews: seq<Review>, registries: map<int, seq<Repo>>, seedRepos: seq<Repo>)
    requires Full(before)
    requires forall r, x :: r in reviews && x in SplitIds(r.splitTasks) ==> x !in Undefined(before.now)
    ensures NoClash(before.now, Replay(ScanOf(before, range), DecisionsOn(before, range, reviews, registries, seedRepos)).made)
  {
    var items, ds := ScanOf(before, range), DecisionsOn(before, range, reviews, registries, seedRepos);
    forall d, x | d in ds && d.Split? && x in SplitIds(d.specs) ensures x !in Undefined(before.now) {
      var i :| 0 <= i < |ds| && ds[i] == d;
      FoundIsGiven(reviews, items[i].taskId);
    }
    NoClashIff(before.now, items, ds);
  }

  lemma {:induction false} FoundIsGiven(reviews: seq<Review>, id: string)
    ensures FindReview(reviews, id).Some? ==> FindReview(reviews, id).value in reviews
  {
    if reviews != [] {
      FoundIsGiven(reviews[1..], id);
    }
  }
}

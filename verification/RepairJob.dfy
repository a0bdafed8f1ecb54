/** A run of the repair loop as values: what it records, what was decided before it, and what each
    of its rounds keeps while none is refused. */
module RepairJob {
  import opened Text
  import opened Wrappers
  import opened Orders
  import opened RepairModel
  import opened TaskSplits
  import opened GroupMoves
  import opened BulkRepair
  import opened RepairBook
  import opened RepairRun

  /** What the loop has recorded so far. */
  datatype Progress = Progress(
    blockers: seq<Blocker>,
    gone: seq<string>,  // ids of split originals
    made: seq<string>,  // ids of created splits
    resolved: map<string, string>,
    affected: set<int>)

  const NOTHING_YET := Progress([], [], [], map[], {})

  /** The first review of a task, none exactly if no review names it. */
  function FindReview(reviews: seq<Review>, id: string): (r: Option<Review>)
    ensures r.None? <==> forall i :: 0 <= i < |reviews| ==> reviews[i].taskId != id
    ensures r.Some? ==>
              exists i :: 0 <= i < |reviews| && r.value == reviews[i] && reviews[i].taskId == id
                          && forall j :: 0 <= j < i ==> reviews[j].taskId != id
  {
    if reviews == [] then None
    else if reviews[0].taskId == id then Some(reviews[0])
    else FindReview(reviews[1..], id)
  }

  function Recorded(p: Progress, outcome: Outcome, item: Missing): Progress {
    match outcome
    case Refused(blockers) => p.(blockers := p.blockers + blockers)
    case WasSplit(created, repoPaths) =>
      p.(gone := p.gone + [item.taskId], made := p.made + created, resolved := p.resolved + repoPaths,
         affected := p.affected + {item.group})
    case WasAssigned(repoPath, _) =>
      p.(resolved := p.resolved + map[item.taskId := repoPath], affected := p.affected + {item.group})
  }

  // ---------------------------------------------------------------- what is decided before the loop

  function ClaimsFor(item: Missing, registries: map<int, seq<Repo>>): seq<Repo> {
    if item.group in registries then Claiming(registries[item.group], item.taskId) else []
  }

  ghost function ItemVerdict(scopes: map<string, set<string>>, payloadScopes: map<string, set<string>>, item: Missing,
                             reviews: seq<Review>, registries: map<int, seq<Repo>>, seedRepos: seq<Repo>): (d: Decision)
    ensures d.Stop? ==> d.blockers != []
    ensures d.Assign? ==> d.repoPath in KnownRepoPaths(seedRepos)
  {
    VerdictOn(scopes, payloadScopes, item.taskId, FindReview(reviews, item.taskId), ClaimsFor(item, registries), seedRepos)
  }

  /** The decisions on all items, taken on the payload. */
  ghost function Verdicts(scopes: map<string, set<string>>, items: seq<Missing>, reviews: seq<Review>,
                          registries: map<int, seq<Repo>>, seedRepos: seq<Repo>): (ds: seq<Decision>)
    ensures |ds| == |items|
    ensures forall i :: 0 <= i < |items| ==> ds[i] == ItemVerdict(scopes, scopes, items[i], reviews, registries, seedRepos)
  {
    seq(|items|, i requires 0 <= i < |items| => ItemVerdict(scopes, scopes, items[i], reviews, registries, seedRepos))
  }

  predicate SplitFree(ds: seq<Decision>) {
    forall d :: d in ds ==> !d.Split?
  }

  /** The record of a loop whose decisions all come out as expected. */
  function Replay(items: seq<Missing>, ds: seq<Decision>): Progress
    requires |ds| == |items|
  {
    if items == [] then NOTHING_YET
    else
      var n := |items| - 1;
      Recorded(Replay(items[..n], ds[..n]), Expected(ds[n]), items[n])
  }

  lemma ReplayMore(items: seq<Missing>, ds: seq<Decision>, i: nat)
    requires |ds| == |items| && i < |items|
    ensures Replay(items[..i + 1], ds[..i + 1]) == Recorded(Replay(items[..i], ds[..i]), Expected(ds[i]), items[i])
  {
    assert items[..i + 1][..i] == items[..i] && ds[..i + 1][..i] == ds[..i];
  }

  /** Such a loop records no blocker exactly when no decision is a stop. */
  lemma {:induction false} ReplayBlockers(items: seq<Missing>, ds: seq<Decision>)
    requires |ds| == |items| && forall d :: d in ds ==> (d.Stop? ==> d.blockers != [])
    ensures Replay(items, ds).blockers == [] <==> forall d :: d in ds ==> !d.Stop?
  {
    if items != [] {
      var n := |items| - 1;
      ReplayBlockers(items[..n], ds[..n]);
      assert ds == ds[..n] + [ds[n]];
      assert ds[n] in ds;
    }
  }

  /** The blockers of such a loop are those of its stops, the ids gone are those of its splits, and
      the affected groups are those of all items that are no stops. */
  lemma {:induction false} ReplayIs(items: seq<Missing>, ds: seq<Decision>)
    requires |ds| == |items|
    ensures forall b :: b in Replay(items, ds).blockers <==> exists i :: 0 <= i < |ds| && ds[i].Stop? && b in ds[i].blockers
    ensures forall x :: x in Replay(items, ds).gone <==> exists i :: 0 <= i < |ds| && ds[i].Split? && items[i].taskId == x
    ensures forall g :: g in Replay(items, ds).affected <==> exists i :: 0 <= i < |ds| && !ds[i].Stop? && items[i].group == g
  {
    hide SplitIds, SplitRepoPaths;
    if items != [] {
      var n := |items| - 1;
      var a, b := items[..n], ds[..n];
      ReplayIs(a, b);
      assert forall i :: 0 <= i < n ==> a[i] == items[i] && b[i] == ds[i];
    }
  }

  /** The ids such a loop creates are those its split decisions name. */
  lemma {:induction false} ReplayMade(items: seq<Missing>, ds: seq<Decision>, x: string)
    requires |ds| == |items|
    ensures x in Replay(items, ds).made <==> exists d :: d in ds && d.Split? && x in SplitIds(d.specs)
  {
    if items != [] {
      var n := |items| - 1;
      ReplayMade(items[..n], ds[..n], x);
      assert ds == ds[..n] + [ds[n]];
      assert ds[n] in ds;
    }
  }

  // ---------------------------------------------------------------- the job and its state

  /** A run of the loop: the state it starts from, its items, and what is decided for them. */
  datatype Job = Job(start: Ledger, range: Range, items: seq<Missing>, ds: seq<Decision>, known: set<string>)

  ghost predicate WellPosed(j: Job) {
    && |j.ds| == |j.items| && Full(j.start) && Coherent(j.start.now)
    && (forall i :: 0 <= i < |j.ds| && j.ds[i].Assign? ==> j.ds[i].repoPath in j.known)
    && (forall i :: 0 <= i < |j.items| ==> j.items[i].taskId != "")
  }

  /** Every root task under the id of a task to be split is spelled like that id. */
  ghost predicate SplitsSpelled(tasks: seq<Task>, items: seq<Missing>, ds: seq<Decision>)
    requires |ds| == |items|
  {
    forall i :: 0 <= i < |items| && ds[i].Split? ==> SpelledAs(tasks, items[i].taskId)
  }

  /** The root task under the id is still the one the loop started with, unchanged but for its repo path. */
  ghost predicate StillThere(j: Job, l: Ledger, x: string)
    requires Full(j.start) && Full(l)
  {
    && x in j.start.now.rootById && x in l.now.rootById && l.now.rootById[x] == j.start.now.rootById[x]
    && l.rootFiles[x] == j.start.rootFiles[x]
  }

  /** Every task is one the loop started with, or a split spelled like its id. */
  ghost predicate Originals(j: Job, l: Ledger)
    requires Full(j.start) && Full(l)
  {
    && (forall t :: t in l.now.rootTasks ==> t in j.start.now.rootTasks || t.id == Key(t))
    && (forall t :: t in l.now.regroupTasks ==> t in j.start.now.regroupTasks || t.id == Key(t))
    && (forall x :: x in l.now.rootById ==> l.now.rootById[x].id == x || StillThere(j, l, x))
  }

  /** Every task that was not split is still there. */
  ghost predicate Conserved(j: Job, gone: seq<string>, l: Ledger)
    requires Full(j.start) && Full(l)
  {
    forall x :: x in j.start.now.rootById && x !in gone ==> StillThere(j, l, x)
  }

  /** Every id has the repo path decided for it, or else the one it had at the start. */
  ghost predicate PathsFollow(before: map<string, string>, decided: map<string, string>, after: map<string, string>) {
    forall x :: x in after ==> if x in decided then after[x] == decided[x] else x in before && after[x] == before[x]
  }

  /** The id was given a blank repo path. */
  ghost predicate Blank(p: Progress, x: string) {
    x in p.resolved && IsBlank(p.resolved[x])
  }

  /** The ids of the items from the i-th on. */
  ghost predicate Pending(j: Job, i: nat, x: string) {
    exists k :: i <= k < |j.items| && j.items[k].taskId == x
  }

  /** A lacking task in range is still to be repaired, or was given a blank path. */
  ghost predicate OnlyPendingLack(j: Job, i: nat, p: Progress, l: Ledger)
    requires Full(l)
  {
    forall x :: ListedInRange(l.now.regroupOrder, x, j.range) && LacksBy(l, x) ==> Pending(j, i, x) || Blank(p, x)
  }

  /** What the loop has done to the tasks after the first i items. */
  ghost predicate Ongoing(j: Job, i: nat, p: Progress, l: Ledger)
    requires Full(j.start)
  {
    && Full(l) && Originals(j, l) && Conserved(j, p.gone, l)
    && PathsFollow(j.start.rootRepos, p.resolved, l.rootRepos)
    && (forall x :: x in p.resolved ==> p.resolved[x] in j.known)
    && (forall x :: x in p.gone ==> SpelledAs(j.start.now.rootTasks, x))
    && OnlyPendingLack(j, i, p, l)
  }

  /** What holds after the first i items when none was refused, whatever the orders list. */
  ghost predicate Repairing(j: Job, i: nat, p: Progress, l: Ledger)
    requires Full(j.start)
  {
    Coherent(l.now) && Ongoing(j, i, p, l)
  }

  // ---------------------------------------------------------------- decisions during the loop

  /** The decision on an item during the loop is the one taken before it, or its task is a split. */
  lemma DecidedBefore(j: Job, i: nat, p: Progress, l: Ledger, payloadTasks: map<string, Task>, payloadFiles: map<string, seq<string>>,
                      reviews: seq<Review>, registries: map<int, seq<Repo>>, seedRepos: seq<Repo>)
    requires WellPosed(j) && i < |j.items| && Full(l) && Originals(j, l)
    requires payloadFiles.Keys == payloadTasks.Keys
    requires Scopes(payloadTasks, payloadFiles) == Scopes(j.start.now.rootById, j.start.rootFiles)
    requires j.ds == Verdicts(Scopes(payloadTasks, payloadFiles), j.items, reviews, registries, seedRepos)
    ensures var id := j.items[i].taskId;
            var d := ItemVerdict(Scopes(l.now.rootById, l.rootFiles), Scopes(payloadTasks, payloadFiles), j.items[i],
                                 reviews, registries, seedRepos);
            d == j.ds[i] || (id in l.now.rootById && l.now.rootById[id].id == id && !StillThere(j, l, id))
  {
    var id := j.items[i].taskId;
    if id in l.now.rootById && StillThere(j, l, id) {
      assert Scopes(l.now.rootById, l.rootFiles)[id] == Scopes(j.start.now.rootById, j.start.rootFiles)[id];
    }
  }

  /** A task that the loop decides to split is spelled like its id, and so are all tasks under that id. */
  lemma SplitSpelled(j: Job, i: nat, p: Progress, l: Ledger, payloadTasks: map<string, Task>, d: Decision)
    requires WellPosed(j) && i < |j.items| && Repairing(j, i, p, l) && SplitsSpelled(j.start.now.rootTasks, j.items, j.ds)
    requires payloadTasks.Keys == j.start.now.rootById.Keys
    requires forall x :: x in payloadTasks ==> payloadTasks[x].id == j.start.now.rootById[x].id
    requires d.Split? && j.items[i].taskId in l.now.rootById.Keys + payloadTasks.Keys
    requires var id := j.items[i].taskId;
             d == j.ds[i] || (id in l.now.rootById && l.now.rootById[id].id == id && !StillThere(j, l, id))
    ensures var id := j.items[i].taskId;
            && Trimmed(id) && SpelledAs(j.start.now.rootTasks, id) && SpelledAs(l.now.rootTasks, id)
            && TaskFor(l.now.rootById, payloadTasks, id).value.id == id
  {
    hide PathsFollow, OnlyPendingLack;
    var id := j.items[i].taskId;
    IndexedTasks(j.start.now.rootTasks);
    IndexedTasks(l.now.rootTasks);
    assert SpelledAs(j.start.now.rootTasks, id) by {
      if d != j.ds[i] && id !in p.gone {
        assert id !in j.start.now.rootById;
      }
    }
    forall t | t in l.now.rootTasks && Key(t) == id ensures t.id == id {
      assert t in j.start.now.rootTasks || t.id == Key(t);
    }
  }

  // ---------------------------------------------------------------- one round keeps what holds

  lemma PathsFollowMore(before: map<string, string>, decided: map<string, string>, after: map<string, string>,
                        more: map<string, string>, later: map<string, string>)
    requires PathsFollow(before, decided, after) && PathsFollow(after, more, later)
    ensures PathsFollow(before, decided + more, later)
  {
  }

  lemma PendingMore(j: Job, i: nat, x: string)
    requires i < |j.items|
    ensures Pending(j, i, x) <==> x == j.items[i].taskId || Pending(j, i + 1, x)
  {
    if Pending(j, i, x) {
      var k :| i <= k < |j.items| && j.items[k].taskId == x;
      assert k == i || i + 1 <= k;
    }
  }

  lemma AssignedLacks(l: Ledger, l': Ledger, id: string, repoPath: string, x: string)
    requires Full(l) && Full(l') && Assigned(l, l', id, repoPath)
    ensures x != id ==> (LacksBy(l', x) <==> LacksBy(l, x))
    ensures LacksBy(l', id) ==> IsBlank(repoPath)
  {
  }

  lemma AssignedTasks(j: Job, gone: seq<string>, l: Ledger, l': Ledger)
    requires Full(j.start) && Full(l) && Full(l') && l'.now == l.now && l'.rootFiles == l.rootFiles
    ensures Originals(j, l) ==> Originals(j, l')
    ensures Conserved(j, gone, l) ==> Conserved(j, gone, l')
  {
    assert forall x :: StillThere(j, l, x) <==> StillThere(j, l', x);
  }

  lemma AssignedPending(j: Job, i: nat, p: Progress, l: Ledger, l': Ledger, repoPath: string, byReview: bool)
    requires i < |j.items| && Full(l) && Full(l') && OnlyPendingLack(j, i, p, l)
    requires Assigned(l, l', j.items[i].taskId, repoPath)
    ensures OnlyPendingLack(j, i + 1, Recorded(p, WasAssigned(repoPath, byReview), j.items[i]), l')
  {
    var id, q := j.items[i].taskId, Recorded(p, WasAssigned(repoPath, byReview), j.items[i]);
    forall x | ListedInRange(l'.now.regroupOrder, x, j.range) && LacksBy(l', x) ensures Pending(j, i + 1, x) || Blank(q, x) {
      AssignedLacks(l, l', id, repoPath, x);
      PendingMore(j, i, x);
    }
  }

  /** An assignment keeps what holds. */
  lemma AssignedKeeps(j: Job, i: nat, p: Progress, l: Ledger, l': Ledger, repoPath: string, byReview: bool)
    requires Full(j.start) && i < |j.items| && Ongoing(j, i, p, l) && repoPath in j.known
    requires Full(l') && Assigned(l, l', j.items[i].taskId, repoPath)
    ensures Ongoing(j, i + 1, Recorded(p, WasAssigned(repoPath, byReview), j.items[i]), l')
  {
    hide Originals, Conserved, PathsFollow, OnlyPendingLack, SpelledAs, Strip;
    var id := j.items[i].taskId;
    PathsFollowMore(j.start.rootRepos, p.resolved, l.rootRepos, map[id := repoPath], l'.rootRepos);
    AssignedTasks(j, p.gone, l, l');
    AssignedPending(j, i, p, l, l', repoPath, byReview);
  }

  lemma ListedAfterSplit(order: Order, id: string, created: seq<string>, x: string, range: Range)
    ensures ListedInRange(ReplaceInOrder(order, id, created), x, range)
       <==> (x != id && ListedInRange(order, x, range)) || (x in created && ListedInRange(order, id, range))
  {
    var after := ReplaceInOrder(order, id, created);
    forall k | 0 <= k < |order| ensures x in after[k] <==> (x in order[k] && x != id) || (id in order[k] && x in created) {
      InReplacedGroup(order[k], id, created, x);
    }
    if x != id && ListedInRange(order, x, range) {
      var k :| 0 <= k < |order| && x in order[k] && range.first <= range.offset + k <= range.last;
      assert x in after[k];
    }
    if x in created && ListedInRange(order, id, range) {
      var k :| 0 <= k < |order| && id in order[k] && range.first <= range.offset + k <= range.last;
      assert x in after[k];
    }
    if ListedInRange(after, x, range) {
      var k :| 0 <= k < |after| && x in after[k] && range.first <= range.offset + k <= range.last;
      assert x in order[k] || id in order[k];
    }
  }

  /** What the indexes hold after a split, for an id that is no split. */
  lemma SplitElsewhere(l: Ledger, l': Ledger, id: string, repoId: string, splits: seq<Task>, created: seq<string>,
                       repoPaths: map<string, string>, x: string)
    requires Full(l) && Full(l') && SplitOff(l, l', id, repoId, splits, created, repoPaths) && x !in repoPaths
    ensures x in l'.now.rootById <==> x in l.now.rootById && x != id
    ensures x in l'.now.regroupById <==> x in l.now.regroupById && x != id
    ensures x in l'.now.rootById ==>
              && l'.now.rootById[x] == l.now.rootById[x] && l'.rootRepos[x] == l.rootRepos[x] && l'.rootFiles[x] == l.rootFiles[x]
    ensures x in l'.now.regroupById ==>
              l'.now.regroupById[x] == l.now.regroupById[x] && l'.regroupRepos[x] == l.regroupRepos[x]
    ensures x != id ==> (LacksBy(l', x) <==> LacksBy(l, x))
    ensures !LacksBy(l', id) || id in repoPaths
  {
    SplitEntry(l.now.rootById, id, splits, x);
    SplitEntry(l.now.regroupById, id, splits, x);
    if id !in repoPaths {
      SplitEntry(l.now.rootById, id, splits, id);
      SplitEntry(l.now.regroupById, id, splits, id);
    }
  }

  /** What the root index holds after a split, for a split. */
  lemma SplitHere(l: Ledger, l': Ledger, id: string, repoId: string, splits: seq<Task>, created: seq<string>,
                  repoPaths: map<string, string>, x: string)
    requires Full(l) && Full(l') && SplitOff(l, l', id, repoId, splits, created, repoPaths) && x in repoPaths
    ensures x in created && x !in l.now.rootById && x !in l.now.regroupById
    ensures x in l'.now.rootById && l'.now.rootById[x] in splits && l'.now.rootById[x].id == x
    ensures l'.now.rootById[x].repoId == repoId && l'.rootRepos[x] == repoPaths[x]
  {
    IndexAllAt(l.now.rootById - {id}, splits);
    assert x in ToSet(created);
    var t :| t in splits && t.id == x;
    var k :| 0 <= k < |splits| && splits[k] == t;
    assert splits[k].id in IndexAll(l.now.rootById - {id}, splits);
  }

  lemma SplitOriginals(j: Job, l: Ledger, l': Ledger, id: string, repoId: string, splits: seq<Task>, created: seq<string>,
                       repoPaths: map<string, string>)
    requires Full(j.start) && Full(l) && Full(l') && SplitOff(l, l', id, repoId, splits, created, repoPaths)
    requires Originals(j, l)
    ensures Originals(j, l')
  {
    forall t | t in l'.now.rootTasks ensures t in j.start.now.rootTasks || t.id == Key(t) {
      InReplacedTasks(l.now.rootTasks, id, splits, t);
    }
    forall t | t in l'.now.regroupTasks ensures t in j.start.now.regroupTasks || t.id == Key(t) {
      InReplacedTasks(l.now.regroupTasks, id, splits, t);
    }
    forall x | x in l'.now.rootById ensures l'.now.rootById[x].id == x || StillThere(j, l', x) {
      if x in repoPaths {
        SplitHere(l, l', id, repoId, splits, created, repoPaths, x);
      } else {
        SplitElsewhere(l, l', id, repoId, splits, created, repoPaths, x);
      }
    }
  }

  lemma SplitConserves(j: Job, gone: seq<string>, l: Ledger, l': Ledger, id: string, repoId: string, splits: seq<Task>,
                       created: seq<string>, repoPaths: map<string, string>)
    requires Full(j.start) && Full(l) && Full(l') && SplitOff(l, l', id, repoId, splits, created, repoPaths)
    requires Conserved(j, gone, l)
    ensures Conserved(j, gone + [id], l')
  {
    forall x | x in j.start.now.rootById && x !in gone + [id] ensures StillThere(j, l', x) {
      assert x !in gone && x in l.now.rootById;
      assert x !in repoPaths;
      SplitElsewhere(l, l', id, repoId, splits, created, repoPaths, x);
    }
  }

  lemma SplitFollows(l: Ledger, l': Ledger, id: string, repoId: string, splits: seq<Task>, created: seq<string>,
                     repoPaths: map<string, string>)
    requires Full(l) && Full(l') && SplitOff(l, l', id, repoId, splits, created, repoPaths)
    ensures PathsFollow(l.rootRepos, repoPaths, l'.rootRepos)
  {
  }

  lemma SplitPending(j: Job, i: nat, p: Progress, l: Ledger, l': Ledger, repoId: string, splits: seq<Task>,
                     created: seq<string>, repoPaths: map<string, string>)
    requires i < |j.items| && Full(l) && Full(l') && OnlyPendingLack(j, i, p, l)
    requires SplitOff(l, l', j.items[i].taskId, repoId, splits, created, repoPaths)
    ensures OnlyPendingLack(j, i + 1, Recorded(p, WasSplit(created, repoPaths), j.items[i]), l')
  {
    var id, q := j.items[i].taskId, Recorded(p, WasSplit(created, repoPaths), j.items[i]);
    forall x | ListedInRange(l'.now.regroupOrder, x, j.range) && LacksBy(l', x) ensures Pending(j, i + 1, x) || Blank(q, x) {
      PendingMore(j, i, x);
      ListedAfterSplit(l.now.regroupOrder, id, created, x, j.range);
      if x in repoPaths {
        SplitHere(l, l', id, repoId, splits, created, repoPaths, x);
      } else {
        SplitElsewhere(l, l', id, repoId, splits, created, repoPaths, x);
        assert x !in created by {
          assert x !in ToSet(created);
        }
      }
    }
  }

  /** A split of a task that is spelled like its id keeps what holds. */
  lemma SplitKeeps(j: Job, i: nat, p: Progress, l: Ledger, l': Ledger, repoId: string, splits: seq<Task>,
                   created: seq<string>, repoPaths: map<string, string>)
    requires Full(j.start) && i < |j.items| && Ongoing(j, i, p, l)
    requires forall x :: x in repoPaths ==> repoPaths[x] in j.known
    requires SpelledAs(j.start.now.rootTasks, j.items[i].taskId)
    requires Full(l') && SplitOff(l, l', j.items[i].taskId, repoId, splits, created, repoPaths)
    ensures Ongoing(j, i + 1, Recorded(p, WasSplit(created, repoPaths), j.items[i]), l')
  {
    hide Originals, Conserved, PathsFollow, OnlyPendingLack, SpelledAs, Strip, SplitOff;
    var id := j.items[i].taskId;
    SplitOriginals(j, l, l', id, repoId, splits, created, repoPaths);
    SplitConserves(j, p.gone, l, l', id, repoId, splits, created, repoPaths);
    SplitFollows(l, l', id, repoId, splits, created, repoPaths);
    PathsFollowMore(j.start.rootRepos, p.resolved, l.rootRepos, repoPaths, l'.rootRepos);
    SplitPending(j, i, p, l, l', repoId, splits, created, repoPaths);
  }
}

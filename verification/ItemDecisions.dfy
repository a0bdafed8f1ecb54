/** What becomes of a task without a repo identity, said of the raw reviews, registries and seed
    repositories: the decision of the repair loop is the one they call for, and no other. */
module ItemDecisions {
  import opened Text
  import opened Wrappers
  import opened RepairModel
  import opened TaskSplits
  import opened GroupMoves
  import opened BulkRepair
  import opened RepairBook
  import opened RepairRun
  import opened RepairJob
  import opened RepairCopies

  // ---------------------------------------------------------------- what the sources say

  /** The review names the task. */
  ghost predicate Reviewed(reviews: seq<Review>, id: string, r: Review) {
    r in reviews && r.taskId == id
  }

  /** The k-th repository of the group's registry claims the task, and no other does. */
  ghost predicate SoleClaim(registry: seq<Repo>, id: string, k: nat) {
    && k < |registry| && id in registry[k].claimedTaskIds
    && forall j :: 0 <= j < |registry| && j != k ==> id !in registry[j].claimedTaskIds
  }

  ghost predicate Unclaimed(registry: seq<Repo>, id: string) {
    forall j :: 0 <= j < |registry| ==> id !in registry[j].claimedTaskIds
  }

  /** The repository holds some path of the scope. */
  ghost predicate HoldsSome(repo: Repo, scope: set<string>) {
    RepoPathOf(repo) != "" && exists path :: path in scope && PathInRepo(path, RepoPathOf(repo))
  }

  /** The scope lies in two different repositories. */
  ghost predicate Spans(scope: set<string>, seedRepos: seq<Repo>) {
    exists i, j :: 0 <= i < |seedRepos| && 0 <= j < |seedRepos| && HoldsSome(seedRepos[i], scope) && HoldsSome(seedRepos[j], scope)
                   && RepoPathOf(seedRepos[i]) != RepoPathOf(seedRepos[j])
  }

  ghost predicate Overrides(reviews: seq<Review>, id: string, r: Review) {
    Reviewed(reviews, id, r) && r.repoPath != "" && r.override
  }

  /** The repo path that the sources give a task, and whether a review gives it: a review that
      overrides comes first, then a sole claim, then any review with a path. */
  ghost predicate Supplies(reviews: seq<Review>, registry: seq<Repo>, id: string, path: string, byReview: bool) {
    if exists r :: Overrides(reviews, id, r) then
      byReview && exists r :: Overrides(reviews, id, r) && path == NormalizeRepoPath(r.repoPath)
    else if exists k: nat :: SoleClaim(registry, id, k) then
      !byReview && exists k: nat :: SoleClaim(registry, id, k) && path == RepoPathOf(registry[k])
    else
      byReview && exists r :: Reviewed(reviews, id, r) && r.repoPath != "" && path == NormalizeRepoPath(r.repoPath)
  }

  /** A path may be used: it is known, and if a review gives it, that review's evidence is usable. */
  ghost predicate MayUse(reviews: seq<Review>, id: string, path: string, byReview: bool, known: set<string>) {
    path in known && (byReview ==> exists r :: Reviewed(reviews, id, r) && EvidenceUsable(r))
  }

  // ---------------------------------------------------------------- finding them

  lemma {:induction false} ClaimingNone(registry: seq<Repo>, id: string)
    ensures Claiming(registry, id) == [] <==> Unclaimed(registry, id)
  {
    if registry != [] {
      ClaimingNone(registry[1..], id);
      assert registry == [registry[0]] + registry[1..];
    }
  }

  lemma {:induction false} ClaimingOne(registry: seq<Repo>, id: string, k: nat)
    requires SoleClaim(registry, id, k)
    ensures Claiming(registry, id) == [registry[k]]
  {
    if k == 0 {
      ClaimingNone(registry[1..], id);
    } else {
      assert registry[1..][k - 1] == registry[k];
      ClaimingOne(registry[1..], id, k - 1);
    }
  }

  lemma {:induction false} OneClaiming(registry: seq<Repo>, id: string) returns (k: nat)
    requires |Claiming(registry, id)| == 1
    ensures SoleClaim(registry, id, k)
  {
    if id in registry[0].claimedTaskIds {
      ClaimingNone(registry[1..], id);
      assert forall j :: 1 <= j < |registry| ==> registry[j] == registry[1..][j - 1];
      k := 0;
    } else {
      k := OneClaiming(registry[1..], id);
      k := k + 1;
      assert forall j :: 1 <= j < |registry| ==> registry[j] == registry[1..][j - 1];
    }
  }

  /** A sole claim is exactly a list of one claiming repository. */
  lemma SoleClaimIff(registry: seq<Repo>, id: string)
    ensures |Claiming(registry, id)| == 1 <==> exists k: nat :: SoleClaim(registry, id, k)
    ensures forall k: nat :: SoleClaim(registry, id, k) ==> Claiming(registry, id) == [registry[k]]
    ensures Claiming(registry, id) == [] <==> Unclaimed(registry, id)
  {
    ClaimingNone(registry, id);
    if |Claiming(registry, id)| == 1 {
      var k := OneClaiming(registry, id);
    }
    forall k: nat | SoleClaim(registry, id, k) ensures Claiming(registry, id) == [registry[k]] {
      ClaimingOne(registry, id, k);
    }
  }

  lemma TwoMembers(s: set<string>, a: string, b: string)
    requires a in s && b in s && a != b
    ensures |s| > 1
  {
    assert s == {a, b} + (s - {a, b});
  }

  lemma SpansIff(scope: set<string>, seedRepos: seq<Repo>)
    ensures |MatchingRepoPaths(scope, seedRepos)| > 1 <==> Spans(scope, seedRepos)
  {
    hide NormalizeRepoPath, PathInRepo, RepoPathOf;
    var matching := MatchingRepoPaths(scope, seedRepos);
    if Spans(scope, seedRepos) {
      var i, j :| 0 <= i < |seedRepos| && 0 <= j < |seedRepos| && HoldsSome(seedRepos[i], scope) && HoldsSome(seedRepos[j], scope)
                  && RepoPathOf(seedRepos[i]) != RepoPathOf(seedRepos[j]);
      TwoMembers(matching, RepoPathOf(seedRepos[i]), RepoPathOf(seedRepos[j]));
    }
    if |matching| > 1 {
      var a :| a in matching;
      assert |matching - {a}| > 0;
      var b :| b in matching - {a};
      var i, p :| 0 <= i < |seedRepos| && p in scope && RepoPathOf(seedRepos[i]) != "" && PathInRepo(p, RepoPathOf(seedRepos[i]))
                  && RepoPathOf(seedRepos[i]) == a;
      var j, q :| 0 <= j < |seedRepos| && q in scope && RepoPathOf(seedRepos[j]) != "" && PathInRepo(q, RepoPathOf(seedRepos[j]))
                  && RepoPathOf(seedRepos[j]) == b;
      assert HoldsSome(seedRepos[i], scope) && HoldsSome(seedRepos[j], scope);
    }
  }

  /** The review that is found is the task's own, if the records have ids of their own. */
  lemma FoundIsOwn(reviews: seq<Review>, id: string, r: Review)
    requires UniqueIds(reviews)
    ensures Reviewed(reviews, id, r) <==> FindReview(reviews, id) == Some(r)
  {
    if Reviewed(reviews, id, r) {
      var i :| 0 <= i < |reviews| && reviews[i] == r;
    }
  }

  // ---------------------------------------------------------------- what is decided

  ghost function DecisionFor(id: string, scope: set<string>, reviews: seq<Review>, registry: seq<Repo>, seedRepos: seq<Repo>): Decision {
    Decide(id, scope, FindReview(reviews, id), Claiming(registry, id), seedRepos)
  }

  /** A scope in several repositories: the specs of the task's own review, or a call for them. */
  lemma SpanningIsSplit(id: string, scope: set<string>, reviews: seq<Review>, registry: seq<Repo>, seedRepos: seq<Repo>)
    requires UniqueIds(reviews) && Spans(scope, seedRepos)
    ensures var d := DecisionFor(id, scope, reviews, registry, seedRepos);
      && (forall specs :: d == Split(specs) <==> specs != [] && exists r :: Reviewed(reviews, id, r) && specs == r.splitTasks)
      && (d.Split? || d == Stop([Blocker("cross_repo_split_required", id)]))
  {
    SpansIff(scope, seedRepos);
    hide Spans, NormalizeRepoPath;
    forall r ensures Reviewed(reviews, id, r) <==> FindReview(reviews, id) == Some(r) {
      FoundIsOwn(reviews, id, r);
    }
    hide Reviewed, FindReview, MatchingRepoPaths;
  }

  /** What the sources supply is what the loop chooses. */
  lemma ChosenIsSupplied(id: string, reviews: seq<Review>, registry: seq<Repo>)
    requires UniqueIds(reviews)
    ensures forall path, byReview ::
              ChosenPath(FindReview(reviews, id), Claiming(registry, id)) == Some((path, byReview))
              <==> Supplies(reviews, registry, id, path, byReview)
  {
    hide NormalizeRepoPath, RepoPathOf;
    SoleClaimIff(registry, id);
    forall r ensures Reviewed(reviews, id, r) <==> FindReview(reviews, id) == Some(r) {
      FoundIsOwn(reviews, id, r);
    }
    hide Reviewed, FindReview, Claiming, SoleClaim, UniqueIds;
    var review, claims := FindReview(reviews, id), Claiming(registry, id);
    if review.Some? {
      assert Reviewed(reviews, id, review.value);
      assert Overrides(reviews, id, review.value) <==> review.value.repoPath != "" && review.value.override;
    }
    if k: nat :| SoleClaim(registry, id, k) {
      assert claims[0] == registry[k];
    }
    assert (exists r :: Overrides(reviews, id, r)) <==> review.Some? && review.value.repoPath != "" && review.value.override;
  }

  /** Any other scope: the path the sources supply, if it may be used. */
  lemma OthersAreAssigned(id: string, scope: set<string>, reviews: seq<Review>, registry: seq<Repo>, seedRepos: seq<Repo>)
    requires UniqueIds(reviews) && !Spans(scope, seedRepos)
    ensures var d := DecisionFor(id, scope, reviews, registry, seedRepos);
      && !d.Split?
      && (forall path, byReview :: d == Assign(path, byReview) <==>
           Supplies(reviews, registry, id, path, byReview) && MayUse(reviews, id, path, byReview, KnownRepoPaths(seedRepos)))
      && (d.Stop? ==> d == Stop([Blocker(
           if exists path, byReview :: Supplies(reviews, registry, id, path, byReview) then "invalid_reviewed_repo_identity"
           else if Unclaimed(registry, id) then "repo_identity_review_required"
           else "ambiguous_repo_identity", id)]))
  {
    SpansIff(scope, seedRepos);
    ChosenIsSupplied(id, reviews, registry);
    SoleClaimIff(registry, id);
    forall r ensures Reviewed(reviews, id, r) <==> FindReview(reviews, id) == Some(r) {
      FoundIsOwn(reviews, id, r);
    }
    hide Spans, NormalizeRepoPath, Reviewed, FindReview, MatchingRepoPaths, Supplies, Unclaimed, Claiming, ChosenPath, EvidenceUsable;
    var d := DecisionFor(id, scope, reviews, registry, seedRepos);
    var choice := ChosenPath(FindReview(reviews, id), Claiming(registry, id));
    if choice.Some? {
      assert choice == Some((choice.value.0, choice.value.1));
    }
  }

  // ---------------------------------------------------------------- what the record of a repair holds

  /** The last spec for an id. */
  ghost predicate LastSpec(specs: seq<SplitSpec>, k: nat, x: string) {
    k < |specs| && Strip(specs[k].taskId) == x && forall j :: k < j < |specs| ==> Strip(specs[j].taskId) != x
  }

  lemma {:induction false} PairsLast(keys: seq<string>, values: seq<string>, k: nat)
    requires k < |keys| == |values| && forall j :: k < j < |keys| ==> keys[j] != keys[k]
    ensures keys[k] in Pairs(keys, values) && Pairs(keys, values)[keys[k]] == values[k]
  {
    var n := |keys| - 1;
    if k < n {
      assert keys[..n][k] == keys[k] && values[..n][k] == values[k];
      PairsLast(keys[..n], values[..n], k);
    }
  }

  lemma {:induction false} LastOf(keys: seq<string>, x: string) returns (k: nat)
    requires x in keys
    ensures k < |keys| && keys[k] == x && forall j :: k < j < |keys| ==> keys[j] != x
  {
    var n := |keys| - 1;
    if keys[n] == x {
      k := n;
    } else {
      assert keys == keys[..n] + [keys[n]];
      k := LastOf(keys[..n], x);
    }
  }

  /** The repo paths that a split records: the last spec of an id counts. */
  lemma SplitRepoPathsIs(specs: seq<SplitSpec>, x: string, path: string)
    ensures x in SplitRepoPaths(specs) && SplitRepoPaths(specs)[x] == path
       <==> exists k: nat :: LastSpec(specs, k, x) && path == NormalizeRepoPath(specs[k].repoPath)
  {
    var keys, values := SplitIds(specs), SplitPaths(specs);
    assert forall k :: 0 <= k < |specs| ==> keys[k] == Strip(specs[k].taskId) && values[k] == NormalizeRepoPath(specs[k].repoPath);
    hide Strip, NormalizeRepoPath, SplitIds, SplitPaths, SplitId;
    PairsKeys(keys, values);
    if x in SplitRepoPaths(specs) {
      assert x in ToSet(keys);
      var k := LastOf(keys, x);
      PairsLast(keys, values, k);
      assert LastSpec(specs, k, x);
    }
    forall k: nat | LastSpec(specs, k, x) ensures x in Pairs(keys, values) && Pairs(keys, values)[x] == values[k] {
      PairsLast(keys, values, k);
    }
  }

  /** The decision gives an id a repo path. */
  ghost predicate Grants(item: Missing, d: Decision, x: string, path: string) {
    match d
    case Stop(_) => false
    case Assign(repoPath, _) => x == item.taskId && path == repoPath
    case Split(specs) => x in SplitRepoPaths(specs) && SplitRepoPaths(specs)[x] == path
  }

  /** It is the last one among the first n to do so. */
  ghost predicate GrantsLast(items: seq<Missing>, ds: seq<Decision>, i: nat, x: string, path: string)
    requires |ds| == |items|
  {
    i < |items| && Grants(items[i], ds[i], x, path) && forall j, q :: i < j < |items| ==> !Grants(items[j], ds[j], x, q)
  }

  lemma RecordedGrants(p: Progress, item: Missing, d: Decision, x: string)
    requires !d.Stop?
    ensures var q := Recorded(p, Expected(d), item).resolved;
      && (forall path :: Grants(item, d, x, path) ==> x in q && q[x] == path)
      && ((forall path :: !Grants(item, d, x, path)) ==> (x in q <==> x in p.resolved) && (x in q ==> q[x] == p.resolved[x]))
  {
    hide SplitRepoPaths;
    if d.Split? && x in SplitRepoPaths(d.specs) {
      assert Grants(item, d, x, SplitRepoPaths(d.specs)[x]);
    }
    if d.Assign? && x == item.taskId {
      assert Grants(item, d, x, d.repoPath);
    }
  }

  ghost predicate SomeGrantLast(items: seq<Missing>, ds: seq<Decision>, x: string, path: string)
    requires |ds| == |items|
  {
    exists i: nat :: GrantsLast(items, ds, i, x, path)
  }

  /** The resolved path of an id is the one given last. */
  lemma {:induction false} ReplayResolved(items: seq<Missing>, ds: seq<Decision>, x: string, path: string)
    requires |ds| == |items|
    ensures x in Replay(items, ds).resolved && Replay(items, ds).resolved[x] == path <==> SomeGrantLast(items, ds, x, path)
  {
    hide Grants, SomeGrantLast, Recorded;
    if items == [] {
      NoneGrantsLast(items, ds, x, path);
    } else {
      var n := |items| - 1;
      ReplayResolved(items[..n], ds[..n], x, path);
      if q :| Grants(items[n], ds[n], x, q) {
        LastGrants(items, ds, x, path, q);
      } else {
        SameGrantsLast(items, ds, n, x, path);
        if ds[n].Stop? {
          StopRecords(Replay(items[..n], ds[..n]), items[n], ds[n]);
        } else {
          RecordedGrants(Replay(items[..n], ds[..n]), items[n], ds[n], x);
        }
      }
    }
  }

  lemma NoneGrantsLast(items: seq<Missing>, ds: seq<Decision>, x: string, path: string)
    requires |ds| == |items| == 0
    ensures !SomeGrantLast(items, ds, x, path)
  {
  }

  lemma StopRecords(p: Progress, item: Missing, d: Decision)
    requires d.Stop?
    ensures Recorded(p, Expected(d), item).resolved == p.resolved
  {
  }

  /** An item that gives the id nothing changes nothing of who gave last. */
  lemma SameGrantsLast(items: seq<Missing>, ds: seq<Decision>, n: nat, x: string, path: string)
    requires |ds| == |items| == n + 1 && forall q :: !Grants(items[n], ds[n], x, q)
    ensures SomeGrantLast(items, ds, x, path) <==> SomeGrantLast(items[..n], ds[..n], x, path)
  {
    hide Grants;
    var a, b := items[..n], ds[..n];
    assert forall i :: 0 <= i < n ==> a[i] == items[i] && b[i] == ds[i];
    if i: nat :| GrantsLast(a, b, i, x, path) {
      assert GrantsLast(items, ds, i, x, path);
    }
    if i: nat :| GrantsLast(items, ds, i, x, path) {
      assert GrantsLast(a, b, i, x, path);
    }
  }

  lemma LastGrants(items: seq<Missing>, ds: seq<Decision>, x: string, path: string, q: string)
    requires |ds| == |items| > 0 && Grants(items[|items| - 1], ds[|items| - 1], x, q)
    ensures var p := Replay(items, ds);
      x in p.resolved && p.resolved[x] == path <==> SomeGrantLast(items, ds, x, path)
  {
    var n := |items| - 1;
    hide SplitRepoPaths;
    RecordedGrants(Replay(items[..n], ds[..n]), items[n], ds[n], x);
    assert GrantsLast(items, ds, n, x, q);
  }

  // ---------------------------------------------------------------- said of the raw inputs

  function RegistryFor(item: Missing, registries: map<int, seq<Repo>>): seq<Repo> {
    if item.group in registries then registries[item.group] else []
  }

  /** The paths of the payload's root task under an id. */
  ghost function ScopeOf(before: Ledger, id: string): set<string>
    requires Full(before) && id in before.now.rootById
  {
    Scopes(before.now.rootById, before.rootFiles)[id]
  }

  /** The reviews, registries and seed repositories give an id a repo path for the sake of an item. */
  ghost predicate Gives(before: Ledger, reviews: seq<Review>, registries: map<int, seq<Repo>>, seedRepos: seq<Repo>,
                        item: Missing, x: string, path: string)
    requires Full(before)
  {
    && item.taskId in before.now.rootById
    && if Spans(ScopeOf(before, item.taskId), seedRepos) then
         GivesSplit(reviews, item.taskId, x, path)
       else
         x == item.taskId && exists byReview ::
           && Supplies(reviews, RegistryFor(item, registries), item.taskId, path, byReview)
           && MayUse(reviews, item.taskId, path, byReview, KnownRepoPaths(seedRepos))
  }

  /** Nothing settles the item: it has no root task, calls for a split that no review gives, or has
      no repo path that may be used. */
  ghost predicate Unsettled(before: Ledger, reviews: seq<Review>, registries: map<int, seq<Repo>>, seedRepos: seq<Repo>, item: Missing)
    requires Full(before)
  {
    item.taskId in before.now.rootById ==>
      if Spans(ScopeOf(before, item.taskId), seedRepos) then
        forall r :: Reviewed(reviews, item.taskId, r) ==> r.splitTasks == []
      else
        forall path, byReview :: Supplies(reviews, RegistryFor(item, registries), item.taskId, path, byReview) ==>
          !MayUse(reviews, item.taskId, path, byReview, KnownRepoPaths(seedRepos))
  }

  ghost predicate NothingSpans(before: Ledger, items: seq<Missing>, seedRepos: seq<Repo>)
    requires Full(before)
  {
    forall item :: item in items && item.taskId in before.now.rootById ==> !Spans(ScopeOf(before, item.taskId), seedRepos)
  }

  lemma DecisionIs(before: Ledger, range: Range, reviews: seq<Review>, registries: map<int, seq<Repo>>, seedRepos: seq<Repo>, i: nat)
    requires Full(before) && i < |ScanOf(before, range)|
    ensures var item := ScanOf(before, range)[i];
      DecisionsOn(before, range, reviews, registries, seedRepos)[i]
      == if item.taskId in before.now.rootById then
           DecisionFor(item.taskId, ScopeOf(before, item.taskId), reviews, RegistryFor(item, registries), seedRepos)
         else Stop([Blocker("missing_current_group_task", item.taskId)])
  {
    hide Decide, ScanOf;
  }

  /** The decision settles the item exactly if the raw inputs do, and gives what they give. */
  ghost predicate AsReviewed(before: Ledger, reviews: seq<Review>, registries: map<int, seq<Repo>>, seedRepos: seq<Repo>, item: Missing,
                             d: Decision)
    requires Full(before)
  {
    && (d.Stop? <==> Unsettled(before, reviews, registries, seedRepos, item))
    && (forall x, path :: Grants(item, d, x, path) <==> Gives(before, reviews, registries, seedRepos, item, x, path))
    && (d.Split? ==> item.taskId in before.now.rootById && Spans(ScopeOf(before, item.taskId), seedRepos))
  }

  ghost predicate GivesSplit(reviews: seq<Review>, id: string, x: string, path: string) {
    exists r, k: nat :: Reviewed(reviews, id, r) && LastSpec(r.splitTasks, k, x) && path == NormalizeRepoPath(r.splitTasks[k].repoPath)
  }

  lemma SplitGrants(item: Missing, scope: set<string>, reviews: seq<Review>, registry: seq<Repo>, seedRepos: seq<Repo>, x: string,
                    path: string)
    requires UniqueIds(reviews) && Spans(scope, seedRepos)
    ensures var d := DecisionFor(item.taskId, scope, reviews, registry, seedRepos);
      && (d.Stop? <==> forall r :: Reviewed(reviews, item.taskId, r) ==> r.splitTasks == [])
      && (Grants(item, d, x, path) <==> GivesSplit(reviews, item.taskId, x, path))
  {
    var d, id := DecisionFor(item.taskId, scope, reviews, registry, seedRepos), item.taskId;
    SpanningIsSplit(id, scope, reviews, registry, seedRepos);
    hide DecisionFor, Spans, NormalizeRepoPath, SplitRepoPaths, LastSpec;
    forall r ensures Reviewed(reviews, id, r) <==> FindReview(reviews, id) == Some(r) {
      FoundIsOwn(reviews, id, r);
    }
    hide Reviewed, FindReview;
    if d.Split? {
      assert d == Split(d.specs);
      var r :| Reviewed(reviews, id, r) && d.specs == r.splitTasks;
      SplitRepoPathsIs(d.specs, x, path);
    } else {
      forall r, k: nat | Reviewed(reviews, id, r) ensures r.splitTasks == [] && !LastSpec(r.splitTasks, k, x) {
        assert d != Split(r.splitTasks);
        NoSpec(r.splitTasks, k, x);
      }
    }
  }

  lemma NoSpec(specs: seq<SplitSpec>, k: nat, x: string)
    ensures specs == [] ==> !LastSpec(specs, k, x)
  {
  }

  lemma PlainGrants(item: Missing, scope: set<string>, reviews: seq<Review>, registry: seq<Repo>, seedRepos: seq<Repo>, x: string,
                    path: string)
    requires UniqueIds(reviews) && !Spans(scope, seedRepos)
    ensures var d := DecisionFor(item.taskId, scope, reviews, registry, seedRepos); var known := KnownRepoPaths(seedRepos);
      && !d.Split?
      && (d.Stop? <==> forall q, byReview :: Supplies(reviews, registry, item.taskId, q, byReview) ==>
                         !MayUse(reviews, item.taskId, q, byReview, known))
      && (Grants(item, d, x, path) <==>
           x == item.taskId && exists byReview :: Supplies(reviews, registry, item.taskId, path, byReview)
                                                  && MayUse(reviews, item.taskId, path, byReview, known))
  {
    OthersAreAssigned(item.taskId, scope, reviews, registry, seedRepos);
    hide DecisionFor, Spans, Supplies, MayUse, KnownRepoPaths;
    var d := DecisionFor(item.taskId, scope, reviews, registry, seedRepos);
    if d.Assign? {
      assert d == Assign(d.repoPath, d.byReview);
    }
  }

  /** The decision on an item settles it exactly if the raw inputs do, and gives what they give. */
  lemma SplitAsReviewed(before: Ledger, reviews: seq<Review>, registries: map<int, seq<Repo>>, seedRepos: seq<Repo>, item: Missing)
    requires Full(before) && UniqueIds(reviews) && item.taskId in before.now.rootById
    requires Spans(ScopeOf(before, item.taskId), seedRepos)
    ensures AsReviewed(before, reviews, registries, seedRepos, item,
                       DecisionFor(item.taskId, ScopeOf(before, item.taskId), reviews, RegistryFor(item, registries), seedRepos))
  {
    hide DecisionFor, ScopeOf, RegistryFor, Spans, Grants, GivesSplit, Supplies, MayUse, Reviewed;
    var scope, registry := ScopeOf(before, item.taskId), RegistryFor(item, registries);
    forall x, path ensures Grants(item, DecisionFor(item.taskId, scope, reviews, registry, seedRepos), x, path)
                      <==> Gives(before, reviews, registries, seedRepos, item, x, path)
    {
      SplitGrants(item, scope, reviews, registry, seedRepos, x, path);
    }
    SplitGrants(item, scope, reviews, registry, seedRepos, "", "");
  }

  lemma PathAsReviewed(before: Ledger, reviews: seq<Review>, registries: map<int, seq<Repo>>, seedRepos: seq<Repo>, item: Missing)
    requires Full(before) && UniqueIds(reviews) && item.taskId in before.now.rootById
    requires !Spans(ScopeOf(before, item.taskId), seedRepos)
    ensures AsReviewed(before, reviews, registries, seedRepos, item,
                       DecisionFor(item.taskId, ScopeOf(before, item.taskId), reviews, RegistryFor(item, registries), seedRepos))
  {
    hide DecisionFor, ScopeOf, RegistryFor, Spans, Grants, GivesSplit, Supplies, MayUse, Reviewed;
    var scope, registry := ScopeOf(before, item.taskId), RegistryFor(item, registries);
    forall x, path ensures Grants(item, DecisionFor(item.taskId, scope, reviews, registry, seedRepos), x, path)
                      <==> Gives(before, reviews, registries, seedRepos, item, x, path)
    {
      PlainGrants(item, scope, reviews, registry, seedRepos, x, path);
    }
    PlainGrants(item, scope, reviews, registry, seedRepos, "", "");
  }

  lemma RootlessAsReviewed(before: Ledger, reviews: seq<Review>, registries: map<int, seq<Repo>>, seedRepos: seq<Repo>, item: Missing,
                           d: Decision)
    requires Full(before) && item.taskId !in before.now.rootById && d.Stop?
    ensures AsReviewed(before, reviews, registries, seedRepos, item, d)
  {
    NothingGranted(item, d);
  }

  lemma DecidedAsReviewed(before: Ledger, range: Range, reviews: seq<Review>, registries: map<int, seq<Repo>>, seedRepos: seq<Repo>,
                          i: nat)
    requires Full(before) && i < |ScanOf(before, range)| && UniqueIds(reviews)
    ensures AsReviewed(before, reviews, registries, seedRepos, ScanOf(before, range)[i],
                       DecisionsOn(before, range, reviews, registries, seedRepos)[i])
  {
    hide AsReviewed, DecisionFor, ScopeOf, RegistryFor, Spans, ScanOf, DecisionsOn;
    var item := ScanOf(before, range)[i];
    DecisionIs(before, range, reviews, registries, seedRepos, i);
    if item.taskId !in before.now.rootById {
      RootlessAsReviewed(before, reviews, registries, seedRepos, item, DecisionsOn(before, range, reviews, registries, seedRepos)[i]);
    } else if Spans(ScopeOf(before, item.taskId), seedRepos) {
      SplitAsReviewed(before, reviews, registries, seedRepos, item);
    } else {
      PathAsReviewed(before, reviews, registries, seedRepos, item);
    }
  }

  lemma NothingGranted(item: Missing, d: Decision)
    requires d.Stop?
    ensures forall x, path :: !Grants(item, d, x, path)
  {
  }

  /** The i-th item is the last one for whose sake the raw inputs give the id a path. */
  ghost predicate GivesLast(before: Ledger, items: seq<Missing>, reviews: seq<Review>, registries: map<int, seq<Repo>>,
                            seedRepos: seq<Repo>, i: nat, x: string, path: string)
    requires Full(before)
  {
    && i < |items| && Gives(before, reviews, registries, seedRepos, items[i], x, path)
    && forall j, q :: i < j < |items| ==> !Gives(before, reviews, registries, seedRepos, items[j], x, q)
  }

  /** The recorded repo paths are those that the raw inputs give. */
  ghost predicate ResolvedAsReviewed(resolved: map<string, string>, before: Ledger, range: Range, reviews: seq<Review>,
                                     registries: map<int, seq<Repo>>, seedRepos: seq<Repo>)
    requires Full(before)
  {
    forall x, path :: Maps(resolved, x, path) <==> Given(before, ScanOf(before, range), reviews, registries, seedRepos, x, path)
  }

  predicate Maps(m: map<string, string>, x: string, value: string) {
    x in m && m[x] == value
  }

  ghost predicate Given(before: Ledger, items: seq<Missing>, reviews: seq<Review>, registries: map<int, seq<Repo>>,
                        seedRepos: seq<Repo>, x: string, path: string)
    requires Full(before)
  {
    exists i: nat :: GivesLast(before, items, reviews, registries, seedRepos, i, x, path)
  }

  /** What a loop that does what was decided records. */
  lemma ReplayAsReviewed(before: Ledger, range: Range, reviews: seq<Review>, registries: map<int, seq<Repo>>, seedRepos: seq<Repo>)
    requires Full(before) && UniqueIds(reviews)
    ensures var items, ds := ScanOf(before, range), DecisionsOn(before, range, reviews, registries, seedRepos);
      ResolvedAsReviewed(Replay(items, ds).resolved, before, range, reviews, registries, seedRepos)
  {
    var items, ds := ScanOf(before, range), DecisionsOn(before, range, reviews, registries, seedRepos);
    forall i | 0 <= i < |items| ensures AsReviewed(before, reviews, registries, seedRepos, items[i], ds[i]) {
      DecidedAsReviewed(before, range, reviews, registries, seedRepos, i);
    }
    hide AsReviewed, Grants, Gives, ScanOf, DecisionsOn, Replay, GrantsLast, GivesLast;
    forall x, path ensures Maps(Replay(items, ds).resolved, x, path) <==>
                           Given(before, items, reviews, registries, seedRepos, x, path)
    {
      ReplayResolved(items, ds, x, path);
      forall i: nat ensures GrantsLast(items, ds, i, x, path) <==> GivesLast(before, items, reviews, registries, seedRepos, i, x, path) {
        LastAsReviewed(before, items, ds, reviews, registries, seedRepos, i, x, path);
      }
    }
  }

  lemma LastAsReviewed(before: Ledger, items: seq<Missing>, ds: seq<Decision>, reviews: seq<Review>, registries: map<int, seq<Repo>>,
                       seedRepos: seq<Repo>, i: nat, x: string, path: string)
    requires Full(before) && |ds| == |items|
    requires forall j :: 0 <= j < |items| ==> AsReviewed(before, reviews, registries, seedRepos, items[j], ds[j])
    ensures GrantsLast(items, ds, i, x, path) <==> GivesLast(before, items, reviews, registries, seedRepos, i, x, path)
  {
    hide Grants, Gives, Unsettled, Spans, ScopeOf;
  }

  /** Some decision is a stop exactly if some item is unsettled, and none is a split if nothing spans. */
  lemma StopsAsReviewed(before: Ledger, range: Range, reviews: seq<Review>, registries: map<int, seq<Repo>>, seedRepos: seq<Repo>)
    requires Full(before) && UniqueIds(reviews)
    ensures var items, ds := ScanOf(before, range), DecisionsOn(before, range, reviews, registries, seedRepos);
      && ((exists d :: d in ds && d.Stop?) <==>
          exists item :: item in items && Unsettled(before, reviews, registries, seedRepos, item))
      && (NothingSpans(before, items, seedRepos) ==> SplitFree(ds))
  {
    var items, ds := ScanOf(before, range), DecisionsOn(before, range, reviews, registries, seedRepos);
    hide Spans, Unsettled, Grants, Gives, ScanOf, DecisionsOn, ScopeOf;
    forall i | 0 <= i < |items| ensures AsReviewed(before, reviews, registries, seedRepos, items[i], ds[i]) {
      DecidedAsReviewed(before, range, reviews, registries, seedRepos, i);
    }
    assert forall i :: 0 <= i < |items| ==> items[i] in items && ds[i] in ds;
  }
}

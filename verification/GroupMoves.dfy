/** Reviewed moves of tasks between groups, carried out on the derived order and mirrored on
    the root order. */
module GroupMoves {
  import opened Text
  import opened Orders
  import opened RepairModel

  /** `_review_evidence_is_usable`. */
  predicate EvidenceUsable(review: Review) {
    !review.blocker && Strip(review.reviewerId) != "" && review.evidencePaths != [] && review.confidence >= 0.8
  }

  datatype MoveState = MoveState(root: Order, derived: Order, blockers: seq<Blocker>, moved: seq<string>, affected: set<int>) {
    function Blocked(code: string, id: string): MoveState {
      this.(blockers := blockers + [Blocker(code, id)])
    }
  }

  /** The range and offset a move list is applied under. */
  datatype Range = Range(offset: int, first: int, last: int)

  function Moved(s: MoveState, id: string, source: nat, target: nat, range: Range): MoveState
    requires source < |s.derived| && 0 <= target - range.offset < |s.derived|
  {
    var root := match GroupOf(s.root, id)
      case Some(from) => if target < |s.root| then MoveInOrder(s.root, id, from, target) else s.root
      case None => s.root;
    MoveState(root, MoveInOrder(s.derived, id, source, target - range.offset), s.blockers,
              s.moved + [id], s.affected + {range.offset + source, target})
  }

  /** What becomes of a review record: nothing, a blocker, or a move out of a group. */
  datatype MoveDecision = Ignore | Refuse(code: string) | Carry(source: nat)

  predicate InRange(group: int, range: Range) {
    range.first <= group <= range.last
  }

  /** The first derived group that lists the task. */
  ghost predicate ListedFirst(derived: Order, id: string, group: nat) {
    group < |derived| && id in derived[group] && forall k :: 0 <= k < group ==> id !in derived[k]
  }

  /** A move that can be made or is made already: usable evidence, and both the group that lists
      the task and the target are derived groups in range. */
  ghost predicate Movable(derived: Order, review: Review, range: Range) {
    && review.target.Some? && EvidenceUsable(review)
    && InRange(review.target.value, range) && 0 <= review.target.value - range.offset < |derived|
    && exists source :: ListedFirst(derived, review.taskId, source) && InRange(range.offset + source, range)
  }

  ghost predicate Unlisted(derived: Order, id: string) {
    forall k :: 0 <= k < |derived| ==> id !in derived[k]
  }

  /** Why a move is refused: the first condition that it does not meet. */
  ghost predicate RefusedFor(derived: Order, review: Review, range: Range, code: string)
    requires review.target.Some?
  {
    var target := review.target.value;
    if !EvidenceUsable(review) then code == "invalid_group_move_review"
    else if !InRange(target, range) then code == "group_move_target_out_of_range"
    else if Unlisted(derived, review.taskId) then code == "group_move_task_not_found"
    else if !(exists source :: ListedFirst(derived, review.taskId, source) && InRange(range.offset + source, range)) then
      code == "group_move_source_out_of_range"
    else code == "group_move_target_not_in_regroup"
  }

  function DecisionOn(derived: Order, review: Review, range: Range): (d: MoveDecision)
    requires range.first >= 0
    ensures d.Refuse? <==> review.target.Some? && !Movable(derived, review, range)
    ensures d.Refuse? ==> RefusedFor(derived, review, range, d.code)
    ensures d.Carry? ==>
              && Movable(derived, review, range) && ListedFirst(derived, review.taskId, d.source)
              && InRange(range.offset + d.source, range) && range.offset + d.source != review.target.value
    ensures d.Ignore? && review.target.Some? ==> ListedFirst(derived, review.taskId, review.target.value - range.offset)
  {
    if review.target.None? then Ignore
    else
      var target := review.target.value;
      if !EvidenceUsable(review) then Refuse("invalid_group_move_review")
      else if target < range.first || target > range.last then Refuse("group_move_target_out_of_range")
      else match GroupOf(derived, review.taskId)
        case None => Refuse("group_move_task_not_found")
        case Some(source) =>
          assert ListedFirst(derived, review.taskId, source);
          if range.offset + source < range.first || range.offset + source > range.last then
            Refuse("group_move_source_out_of_range")
          else if range.offset + source == target then Ignore
          else if !(0 <= target - range.offset < |derived|) then Refuse("group_move_target_not_in_regroup")
          else Carry(source)
  }

  /** What one review record does to the orders. */
  function Step(s: MoveState, review: Review, range: Range): MoveState
    requires range.first >= 0
  {
    match DecisionOn(s.derived, review, range)
    case Ignore => s
    case Refuse(code) => s.Blocked(code, review.taskId)
    case Carry(source) => Moved(s, review.taskId, source, review.target.value, range)
  }

  function Run(s: MoveState, reviews: seq<Review>, range: Range): MoveState
    requires range.first >= 0
  {
    if reviews == [] then s
    else Step(Run(s, reviews[..|reviews| - 1], range), reviews[|reviews| - 1], range)
  }

  /** Moves one task in both working orders. */
  method CarryOut(rootOrder: array<Group>, derived: array<Group>, id: string, source: nat, target: nat, range: Range)
    requires rootOrder != derived
    requires source < derived.Length && 0 <= target - range.offset < derived.Length
    modifies rootOrder, derived
    ensures derived[..] == MoveInOrder(old(derived[..]), id, source, target - range.offset)
    ensures rootOrder[..] == match GroupOf(old(rootOrder[..]), id)
              case Some(from) => if target < rootOrder.Length then MoveInOrder(old(rootOrder[..]), id, from, target) else old(rootOrder[..])
              case None => old(rootOrder[..])
  {
    MoveTaskInOrder(derived, id, source, target - range.offset);
    var rootSource := FindTaskGroup(rootOrder[..], id);
    if rootSource.Some? && target < rootOrder.Length {
      MoveTaskInOrder(rootOrder, id, rootSource.value, target);
    }
  }

  /** One record of `_apply_reviewed_group_moves`, editing the working orders in place. */
  method ApplyReviewedMove(rootOrder: array<Group>, derived: array<Group>, review: Review, range: Range,
                           blockers0: seq<Blocker>, moved0: seq<string>, affected0: set<int>)
    returns (blockers: seq<Blocker>, moved: seq<string>, affected: set<int>)
    requires rootOrder != derived && range.first >= 0
    modifies rootOrder, derived
    ensures MoveState(rootOrder[..], derived[..], blockers, moved, affected)
         == Step(MoveState(old(rootOrder[..]), old(derived[..]), blockers0, moved0, affected0), review, range)
  {
    blockers, moved, affected := blockers0, moved0, affected0;
    var decision := DecisionOn(derived[..], review, range);
    match decision
    case Ignore =>
    case Refuse(code) =>
      blockers := blockers + [Blocker(code, review.taskId)];
    case Carry(source) =>
      CarryOut(rootOrder, derived, review.taskId, source, review.target.value, range);
      moved := moved + [review.taskId];
      affected := affected + {range.offset + source, review.target.value};
  }

  /** `_apply_reviewed_group_moves`. */
  method ApplyReviewedGroupMoves(root: Dag, regroup: Dag, reviews: seq<Review>, range: Range)
    returns (blockers: seq<Blocker>, moved: seq<string>, affected: set<int>)
    requires root != regroup && range.first >= 0
    modifies root`order, regroup`order
    ensures MoveState(root.order, regroup.order, blockers, moved, affected)
         == Run(MoveState(old(root.order), old(regroup.order), [], [], {}), reviews, range)
  {
    ghost var start := MoveState(root.order, regroup.order, [], [], {});
    blockers, moved, affected := [], [], {};
    var rootOrder := CopyOrder(root.order);
    var derived := CopyOrder(regroup.order);
    for i := 0 to |reviews|
      invariant fresh(rootOrder) && fresh(derived) && rootOrder != derived
      invariant MoveState(rootOrder[..], derived[..], blockers, moved, affected) == Run(start, reviews[..i], range)
    {
      assert reviews[..i + 1][..i] == reviews[..i];
      blockers, moved, affected := ApplyReviewedMove(rootOrder, derived, reviews[i], range, blockers, moved, affected);
    }
    assert reviews[..|reviews|] == reviews;
    root.order := rootOrder[..];
    regroup.order := derived[..];
  }

  method CopyOrder(order: Order) returns (copy: array<Group>)
    ensures fresh(copy) && copy[..] == order
  {
    copy := new Group[|order|](i requires 0 <= i < |order| => order[i]);
  }

  // ---------------------------------------------------------------- what every run of moves keeps

  /** Both orders duplicate-free, and the root order from the offset on holds the same ids as
      the derived order. */
  ghost predicate Agree(root: Order, derived: Order, offset: int) {
    && 0 <= offset <= |root|
    && DupFree(root) && DupFree(derived)
    && Tally(root[offset..]) == Tally(derived)
  }

  /** What a list of moves never changes. */
  ghost predicate Kept(s: MoveState, t: MoveState, range: Range) {
    && |t.root| == |s.root| && |t.derived| == |s.derived|
    && Tally(t.root) == Tally(s.root) && Tally(t.derived) == Tally(s.derived)
    && Agree(t.root, t.derived, range.offset)
    && (0 <= range.offset <= |s.root| ==> t.root[..range.offset] == s.root[..range.offset])
    && (forall k :: 0 <= k < |s.derived| && !(range.first <= range.offset + k <= range.last) ==> t.derived[k] == s.derived[k])
  }

  lemma TailOf(order: Order, order': Order, k: nat)
    requires k <= |order| == |order'| && order[..k] == order'[..k] && Tally(order) == Tally(order')
    ensures Tally(order[k..]) == Tally(order'[k..])
  {
    TallySplitAt(order, k);
    TallySplitAt(order', k);
    Cancel(Tally(order[..k]), Tally(order[k..]), Tally(order'[k..]));
  }

  lemma Cancel(a: multiset<string>, b: multiset<string>, c: multiset<string>)
    requires a + b == a + c
    ensures b == c
  {
    forall x ensures b[x] == c[x] {
      assert (a + b)[x] == (a + c)[x];
    }
  }

  /** The root group of a task of the derived order is at or after the offset. */
  lemma RootGroupAfterOffset(root: Order, derived: Order, offset: nat, id: string)
    requires Agree(root, derived, offset) && id in Tally(derived)
    ensures GroupOf(root, id).Some? && GroupOf(root, id).value >= offset
  {
    InTally(root[offset..], id);
    var k :| 0 <= k < |root[offset..]| && id in root[offset..][k];
    assert id in root[offset + k];
    OneGroupEach(root, id, offset + k, GroupOf(root, id).value);
  }

  lemma MovedRoot(s: MoveState, id: string, source: nat, target: nat, range: Range)
    requires Agree(s.root, s.derived, range.offset) && source < |s.derived| && id in s.derived[source]
    requires range.offset <= target < range.offset + |s.derived|
    ensures var r := Moved(s, id, source, target, range).root;
      && |r| == |s.root| && Tally(r) == Tally(s.root) && r[..range.offset] == s.root[..range.offset]
      && Tally(r[range.offset..]) == Tally(s.root[range.offset..])
  {
    InTally(s.derived, id);
    RootGroupAfterOffset(s.root, s.derived, range.offset, id);
    RootMoveKeeps(s.root, id, GroupOf(s.root, id).value, target, range.offset);
  }

  lemma MovedDerived(derived: Order, id: string, source: nat, local: nat, range: Range)
    requires DupFree(derived) && source < |derived| && local < |derived| && source != local && id in derived[source]
    requires range.first <= range.offset + source <= range.last && range.first <= range.offset + local <= range.last
    ensures Tally(MoveInOrder(derived, id, source, local)) == Tally(derived)
    ensures forall k :: 0 <= k < |derived| && !(range.first <= range.offset + k <= range.last) ==>
              MoveInOrder(derived, id, source, local)[k] == derived[k]
  {
    MoveConserves(derived, id, source, local);
  }

  lemma MovedKeeps(s: MoveState, id: string, source: nat, target: nat, range: Range)
    requires Agree(s.root, s.derived, range.offset)
    requires source < |s.derived| && 0 <= target - range.offset < |s.derived| && source != target - range.offset
    requires id in s.derived[source]
    requires range.first <= range.offset + source <= range.last && range.first <= target <= range.last
    ensures Kept(s, Moved(s, id, source, target, range), range)
  {
    hide MoveInOrder, GroupOf, Tally;
    var t := Moved(s, id, source, target, range);
    MovedRoot(s, id, source, target, range);
    MovedDerived(s.derived, id, source, target - range.offset, range);
    assert t.derived == MoveInOrder(s.derived, id, source, target - range.offset);
    AgreeKept(s.root, s.derived, t.root, t.derived, range.offset);
  }

  lemma AgreeKept(root: Order, derived: Order, root': Order, derived': Order, offset: nat)
    requires Agree(root, derived, offset)
    requires |root'| == |root| && Tally(root') == Tally(root) && Tally(derived') == Tally(derived)
    requires Tally(root'[offset..]) == Tally(root[offset..])
    ensures Agree(root', derived', offset)
  {
  }

  lemma RootMoveKeeps(root: Order, id: string, from: nat, target: nat, offset: nat)
    requires DupFree(root) && from < |root| && id in root[from] && offset <= from && offset <= target
    ensures target < |root| ==> var r := MoveInOrder(root, id, from, target);
              |r| == |root| && Tally(r) == Tally(root) && r[..offset] == root[..offset] && Tally(r[offset..]) == Tally(root[offset..])
  {
    if target < |root| && from != target {
      MoveConserves(root, id, from, target);
      TailOf(root, MoveInOrder(root, id, from, target), offset);
    } else if target < |root| {
      assert MoveInOrder(root, id, from, target) == root;
    }
  }

  lemma StepKeeps(s: MoveState, review: Review, range: Range)
    requires range.first >= 0 && Agree(s.root, s.derived, range.offset)
    ensures Kept(s, Step(s, review, range), range)
  {
    var d := DecisionOn(s.derived, review, range);
    if d.Carry? {
      MovedKeeps(s, review.taskId, d.source, review.target.value, range);
    }
  }

  /** Conservation over a whole list of moves, blocked records included: no id is lost or
      duplicated in either order, the two orders keep agreeing, sealed root groups and derived
      groups outside the repaired range are the same lists. */
  lemma {:induction false} MovesConserve(s: MoveState, reviews: seq<Review>, range: Range)
    requires range.first >= 0 && Agree(s.root, s.derived, range.offset)
    ensures Kept(s, Run(s, reviews, range), range)
  {
    if reviews != [] {
      var n := |reviews| - 1;
      MovesConserve(s, reviews[..n], range);
      StepKeeps(Run(s, reviews[..n], range), reviews[n], range);
    }
  }

  // ---------------------------------------------------------------- where the moved tasks end up

  ghost predicate InExactly(order: Order, id: string, group: int) {
    forall k :: 0 <= k < |order| ==> (id in order[k] <==> k == group)
  }

  ghost predicate UniqueIds(reviews: seq<Review>) {
    forall i, j :: 0 <= i < j < |reviews| ==> reviews[i].taskId != reviews[j].taskId
  }

  /** A record that is not refused leaves its task in its target group only. */
  lemma StepPlaces(s: MoveState, review: Review, range: Range)
    requires range.first >= 0 && Agree(s.root, s.derived, range.offset)
    requires review.target.Some? && !DecisionOn(s.derived, review, range).Refuse?
    ensures 0 <= review.target.value - range.offset < |s.derived|
    ensures InExactly(Step(s, review, range).derived, review.taskId, review.target.value - range.offset)
  {
    hide GroupOf, Tally, MoveInOrder, EvidenceUsable;
    var id, local := review.taskId, review.target.value - range.offset;
    var d := DecisionOn(s.derived, review, range);
    if d.Carry? {
      MoveConserves(s.derived, id, d.source, local);
    } else {
      forall k | 0 <= k < |s.derived| && id in s.derived[k] ensures k == local {
        OneGroupEach(s.derived, id, k, local);
      }
    }
  }

  lemma StepLeavesOthers(s: MoveState, review: Review, range: Range, id: string, group: int)
    requires range.first >= 0 && Agree(s.root, s.derived, range.offset)
    requires id != review.taskId && InExactly(s.derived, id, group)
    ensures InExactly(Step(s, review, range).derived, id, group)
  {
    hide GroupOf, Tally, MoveInOrder, EvidenceUsable;
    var d := DecisionOn(s.derived, review, range);
    if d.Carry? {
      MoveConserves(s.derived, review.taskId, d.source, review.target.value - range.offset);
    }
  }

  lemma {:induction false} RunBlockers(s: MoveState, reviews: seq<Review>, range: Range)
    requires range.first >= 0
    ensures |Run(s, reviews, range).blockers| >= |s.blockers|
  {
    if reviews != [] {
      RunBlockers(s, reviews[..|reviews| - 1], range);
    }
  }

  /** After an unblocked list of moves every reviewed task sits in its target derived group
      and in no other. */
  lemma {:induction false} MovesPlace(s: MoveState, reviews: seq<Review>, range: Range)
    requires range.first >= 0 && Agree(s.root, s.derived, range.offset)
    requires UniqueIds(reviews) && s.blockers == [] && Run(s, reviews, range).blockers == []
    ensures forall i :: 0 <= i < |reviews| && reviews[i].target.Some? ==>
              && 0 <= reviews[i].target.value - range.offset < |s.derived|
              && InExactly(Run(s, reviews, range).derived, reviews[i].taskId, reviews[i].target.value - range.offset)
  {
    if reviews != [] {
      var n := |reviews| - 1;
      var mid := Run(s, reviews[..n], range);
      RunBlockers(s, reviews[..n], range);
      MovesPlace(s, reviews[..n], range);
      MovesConserve(s, reviews[..n], range);
      forall i | 0 <= i < |reviews| && reviews[i].target.Some?
        ensures 0 <= reviews[i].target.value - range.offset < |s.derived|
        ensures InExactly(Run(s, reviews, range).derived, reviews[i].taskId, reviews[i].target.value - range.offset)
      {
        if i == n {
          assert !DecisionOn(mid.derived, reviews[n], range).Refuse?;
          StepPlaces(mid, reviews[n], range);
        } else {
          assert reviews[..n][i] == reviews[i];
          StepLeavesOthers(mid, reviews[n], range, reviews[i].taskId, reviews[i].target.value - range.offset);
        }
      }
    }
  }

  // ---------------------------------------------------------------- what becomes of every record and id

  ghost predicate SamePlaces(a: Order, b: Order, x: string) {
    |a| == |b| && forall k :: 0 <= k < |a| ==> (x in a[k] <==> x in b[k])
  }

  /** A move that can be made and is not made already. */
  ghost predicate MovesAway(derived: Order, review: Review, range: Range) {
    Movable(derived, review, range) && !ListedFirst(derived, review.taskId, review.target.value - range.offset)
  }

  lemma CarriesIff(derived: Order, review: Review, range: Range)
    requires range.first >= 0
    ensures DecisionOn(derived, review, range).Carry? <==> MovesAway(derived, review, range)
  {
    hide GroupOf;
    var d := DecisionOn(derived, review, range);
    if d.Carry? {
      assert d.source != review.target.value - range.offset;
    }
  }

  /** Decisions depend on where the reviewed task stands, not on any other. */
  lemma DecisionByPlaces(a: Order, b: Order, review: Review, range: Range)
    requires range.first >= 0 && SamePlaces(a, b, review.taskId)
    ensures DecisionOn(a, review, range) == DecisionOn(b, review, range)
    ensures Movable(a, review, range) <==> Movable(b, review, range)
    ensures MovesAway(a, review, range) <==> MovesAway(b, review, range)
  {
    var id := review.taskId;
    assert GroupOf(a, id) == GroupOf(b, id);
    hide GroupOf;
    assert forall k: nat :: ListedFirst(a, id, k) <==> ListedFirst(b, id, k);
  }

  /** The task is in the target group only, of both orders, if the root order has such a group. */
  ghost predicate Delivers(s: MoveState, t: MoveState, review: Review, range: Range) {
    review.target.Some? &&
    var id, target := review.taskId, review.target.value;
    && InExactly(t.derived, id, target - range.offset)
    && (target < |s.root| ==> InExactly(t.root, id, target))
    && (target >= |s.root| ==> SamePlaces(s.root, t.root, id))
  }

  lemma RootMovePlaces(root: Order, id: string, from: nat, target: nat)
    requires DupFree(root) && from < |root| && target < |root| && id in root[from]
    ensures InExactly(MoveInOrder(root, id, from, target), id, target)
    ensures forall x :: x != id ==> SamePlaces(root, MoveInOrder(root, id, from, target), x)
  {
    if from != target {
      MoveConserves(root, id, from, target);
    } else {
      assert MoveInOrder(root, id, from, target) == root;
      forall k | 0 <= k < |root| && id in root[k] ensures k == target {
        OneGroupEach(root, id, k, target);
      }
    }
  }

  lemma MovedDelivers(s: MoveState, review: Review, source: nat, range: Range)
    requires Agree(s.root, s.derived, range.offset) && review.target.Some?
    requires source < |s.derived| && 0 <= review.target.value - range.offset < |s.derived|
    requires review.taskId in s.derived[source] && source != review.target.value - range.offset
    ensures var t := Moved(s, review.taskId, source, review.target.value, range);
      Delivers(s, t, review, range)
      && forall x :: x != review.taskId ==> SamePlaces(s.derived, t.derived, x) && SamePlaces(s.root, t.root, x)
  {
    hide MoveInOrder, Tally;
    var id, target := review.taskId, review.target.value;
    MoveConserves(s.derived, id, source, target - range.offset);
    InTally(s.derived, id);
    RootGroupAfterOffset(s.root, s.derived, range.offset, id);
    if target < |s.root| {
      RootMovePlaces(s.root, id, GroupOf(s.root, id).value, target);
    }
    hide GroupOf, DupFree;
  }

  lemma StepDelivers(s: MoveState, review: Review, range: Range)
    requires range.first >= 0 && Agree(s.root, s.derived, range.offset)
    ensures MovesAway(s.derived, review, range) ==> Delivers(s, Step(s, review, range), review, range)
    ensures forall x :: x != review.taskId || !MovesAway(s.derived, review, range) ==>
              SamePlaces(s.derived, Step(s, review, range).derived, x) && SamePlaces(s.root, Step(s, review, range).root, x)
  {
    CarriesIff(s.derived, review, range);
    var d := DecisionOn(s.derived, review, range);
    if d.Carry? {
      MovedDelivers(s, review, d.source, range);
    }
    hide DecisionOn, MovesAway, Moved, Delivers;
  }

  ghost predicate Carried(derived: Order, reviews: seq<Review>, range: Range, x: string) {
    exists i :: 0 <= i < |reviews| && reviews[i].taskId == x && MovesAway(derived, reviews[i], range)
  }

  /** Every move that can be made on the orders as they are at the start is made, on both orders,
      and nothing else is moved, whatever the order of the records. */
  lemma {:induction false} MovesAreExact(s: MoveState, reviews: seq<Review>, range: Range)
    requires range.first >= 0 && Agree(s.root, s.derived, range.offset) && UniqueIds(reviews)
    ensures forall i :: 0 <= i < |reviews| && MovesAway(s.derived, reviews[i], range) ==>
              Delivers(s, Run(s, reviews, range), reviews[i], range)
    ensures forall x :: !Carried(s.derived, reviews, range, x) ==>
              SamePlaces(s.derived, Run(s, reviews, range).derived, x) && SamePlaces(s.root, Run(s, reviews, range).root, x)
  {
    hide MovesAway, Delivers, Step, SamePlaces, Agree;
    if reviews == [] {
      forall x ensures SamePlaces(s.derived, s.derived, x) && SamePlaces(s.root, s.root, x) {
        StaysPut(s, x);
      }
    } else {
      var n := |reviews| - 1;
      var mid, t := Run(s, reviews[..n], range), Run(s, reviews, range);
      MovesAreExact(s, reviews[..n], range);
      MovesKeepAgreeing(s, reviews[..n], range);
      StepDelivers(mid, reviews[n], range);
      LastIsUntouched(s, reviews, range);
      DecisionByPlaces(s.derived, mid.derived, reviews[n], range);
      forall i | 0 <= i < |reviews| && MovesAway(s.derived, reviews[i], range) ensures Delivers(s, t, reviews[i], range) {
        if i == n {
          DeliversLater(s, mid, t, reviews[n], range);
        } else {
          assert reviews[..n][i] == reviews[i];
          DeliveredStays(s, mid, t, reviews[i], range);
        }
      }
      forall x | !Carried(s.derived, reviews, range, x) ensures SamePlaces(s.derived, t.derived, x) && SamePlaces(s.root, t.root, x) {
        NotCarriedBefore(s.derived, reviews, range, x);
        SamePlacesThen(s, mid, t, x);
      }
    }
  }

  lemma StaysPut(s: MoveState, x: string)
    ensures SamePlaces(s.derived, s.derived, x) && SamePlaces(s.root, s.root, x)
  {
  }

  lemma MovesKeepAgreeing(s: MoveState, reviews: seq<Review>, range: Range)
    requires range.first >= 0 && Agree(s.root, s.derived, range.offset)
    ensures Agree(Run(s, reviews, range).root, Run(s, reviews, range).derived, range.offset)
  {
    hide Agree, Run;
    MovesConserve(s, reviews, range);
  }

  lemma NotCarriedBefore(derived: Order, reviews: seq<Review>, range: Range, x: string)
    requires reviews != [] && !Carried(derived, reviews, range, x)
    ensures !Carried(derived, reviews[..|reviews| - 1], range, x)
    ensures x != reviews[|reviews| - 1].taskId || !MovesAway(derived, reviews[|reviews| - 1], range)
  {
    hide MovesAway;
    var n := |reviews| - 1;
    assert forall i :: 0 <= i < n ==> reviews[..n][i] == reviews[i];
  }

  /** The records before the last one are about other tasks. */
  lemma LastIsUntouched(s: MoveState, reviews: seq<Review>, range: Range)
    requires reviews != [] && UniqueIds(reviews)
    ensures !Carried(s.derived, reviews[..|reviews| - 1], range, reviews[|reviews| - 1].taskId)
  {
    hide MovesAway;
  }

  lemma SamePlacesThen(s: MoveState, mid: MoveState, t: MoveState, x: string)
    requires SamePlaces(s.derived, mid.derived, x) && SamePlaces(s.root, mid.root, x)
    requires SamePlaces(mid.derived, t.derived, x) && SamePlaces(mid.root, t.root, x)
    ensures SamePlaces(s.derived, t.derived, x) && SamePlaces(s.root, t.root, x)
  {
  }

  lemma DeliversLater(s: MoveState, mid: MoveState, t: MoveState, review: Review, range: Range)
    requires Delivers(mid, t, review, range) && SamePlaces(s.root, mid.root, review.taskId)
    ensures Delivers(s, t, review, range)
  {
  }

  lemma DeliveredStays(s: MoveState, mid: MoveState, t: MoveState, review: Review, range: Range)
    requires Delivers(s, mid, review, range)
    requires SamePlaces(mid.derived, t.derived, review.taskId) && SamePlaces(mid.root, t.root, review.taskId)
    ensures Delivers(s, t, review, range)
  {
  }

  /** The tasks of the records that can be carried out, in their order. */
  ghost function MovedIds(derived: Order, reviews: seq<Review>, range: Range): seq<string> {
    if reviews == [] then []
    else
      var last := reviews[|reviews| - 1];
      MovedIds(derived, reviews[..|reviews| - 1], range) + if MovesAway(derived, last, range) then [last.taskId] else []
  }

  /** A move out of the group or into it. */
  ghost predicate Touches(derived: Order, review: Review, range: Range, group: int) {
    && MovesAway(derived, review, range)
    && (group == review.target.value || (group >= range.offset && ListedFirst(derived, review.taskId, group - range.offset)))
  }

  ghost predicate RefusedWith(derived: Order, review: Review, range: Range, b: Blocker) {
    && review.target.Some? && !Movable(derived, review, range)
    && b.taskId == review.taskId && RefusedFor(derived, review, range, b.code)
  }

  ghost predicate AnyTouches(derived: Order, reviews: seq<Review>, range: Range, group: int) {
    exists i :: 0 <= i < |reviews| && Touches(derived, reviews[i], range, group)
  }

  ghost predicate AnyRefused(derived: Order, reviews: seq<Review>, range: Range, b: Blocker) {
    exists i :: 0 <= i < |reviews| && RefusedWith(derived, reviews[i], range, b)
  }

  lemma AnySnoc(derived: Order, before: seq<Review>, last: Review, range: Range)
    ensures forall g :: AnyTouches(derived, before + [last], range, g) <==>
              AnyTouches(derived, before, range, g) || Touches(derived, last, range, g)
    ensures forall b :: AnyRefused(derived, before + [last], range, b) <==>
              AnyRefused(derived, before, range, b) || RefusedWith(derived, last, range, b)
  {
    hide Touches, RefusedWith;
    var reviews := before + [last];
    assert reviews[|before|] == last && forall i :: 0 <= i < |before| ==> reviews[i] == before[i];
  }

  /** What is reported of the moves, from the orders at the start: the moved tasks in the order of
      the records, the groups they left and came to, and a blocker for each record that asks for a
      move that cannot be made. */
  ghost predicate ReportsMoves(s: MoveState, t: MoveState, reviews: seq<Review>, range: Range) {
    && t.moved == s.moved + MovedIds(s.derived, reviews, range)
    && (forall g :: g in t.affected <==> g in s.affected || AnyTouches(s.derived, reviews, range, g))
    && (forall b :: b in t.blockers <==> b in s.blockers || AnyRefused(s.derived, reviews, range, b))
  }

  lemma StepReports(s: MoveState, review: Review, range: Range)
    requires range.first >= 0
    ensures Step(s, review, range).moved == s.moved + if MovesAway(s.derived, review, range) then [review.taskId] else []
    ensures forall g :: g in Step(s, review, range).affected <==> g in s.affected || Touches(s.derived, review, range, g)
    ensures forall b :: b in Step(s, review, range).blockers <==> b in s.blockers || RefusedWith(s.derived, review, range, b)
  {
    CarriesIff(s.derived, review, range);
    OneCode(s.derived, review, range);
  }

  lemma OneCode(derived: Order, review: Review, range: Range)
    requires range.first >= 0
    ensures forall b :: RefusedWith(derived, review, range, b) ==>
              DecisionOn(derived, review, range) == Refuse(b.code) && b.taskId == review.taskId
    ensures DecisionOn(derived, review, range).Refuse? ==>
              RefusedWith(derived, review, range, Blocker(DecisionOn(derived, review, range).code, review.taskId))
  {
  }

  /** What is touched and refused depends on where the reviewed task stands, not on any other. */
  lemma ReportsByPlaces(a: Order, b: Order, review: Review, range: Range)
    requires range.first >= 0 && SamePlaces(a, b, review.taskId)
    ensures forall g :: Touches(a, review, range, g) <==> Touches(b, review, range, g)
    ensures forall x :: RefusedWith(a, review, range, x) <==> RefusedWith(b, review, range, x)
  {
    DecisionByPlaces(a, b, review, range);
    OneCode(a, review, range);
    OneCode(b, review, range);
    hide DecisionOn, Movable, MovesAway, RefusedFor;
  }

  lemma {:induction false} MovesAreReported(s: MoveState, reviews: seq<Review>, range: Range)
    requires range.first >= 0 && Agree(s.root, s.derived, range.offset) && UniqueIds(reviews)
    ensures ReportsMoves(s, Run(s, reviews, range), reviews, range)
  {
    hide MovesAway, Step, SamePlaces, Agree, Touches, RefusedWith, AnyTouches, AnyRefused;
    if reviews == [] {
      NothingReported(s.derived, range);
    } else {
      var n := |reviews| - 1;
      var mid := Run(s, reviews[..n], range);
      MovesAreReported(s, reviews[..n], range);
      MovesAreExact(s, reviews[..n], range);
      LastIsUntouched(s, reviews, range);
      DecisionByPlaces(s.derived, mid.derived, reviews[n], range);
      ReportsByPlaces(s.derived, mid.derived, reviews[n], range);
      StepReports(mid, reviews[n], range);
      AnySnoc(s.derived, reviews[..n], reviews[n], range);
      assert reviews == reviews[..n] + [reviews[n]];
    }
  }

  lemma NothingReported(derived: Order, range: Range)
    ensures forall g :: !AnyTouches(derived, [], range, g)
    ensures forall b :: !AnyRefused(derived, [], range, b)
  {
  }

  ghost predicate ListedInRange(order: Order, x: string, range: Range) {
    exists j :: 0 <= j < |order| && x in order[j] && range.first <= range.offset + j <= range.last
  }

  lemma StepStaysInRange(s: MoveState, review: Review, range: Range, x: string)
    requires range.first >= 0 && ListedInRange(Step(s, review, range).derived, x, range)
    ensures ListedInRange(s.derived, x, range)
  {
    hide GroupOf, EvidenceUsable;
    var t, d := Step(s, review, range), DecisionOn(s.derived, review, range);
    if d.Carry? {
      var k :| 0 <= k < |t.derived| && x in t.derived[k] && range.first <= range.offset + k <= range.last;
      InMoved(s.derived, review.taskId, d.source, review.target.value - range.offset, k, x);
    }
  }

  lemma StepKeepsListed(s: MoveState, review: Review, range: Range, x: string)
    requires range.first >= 0 && ListedInRange(s.derived, x, range)
    ensures ListedInRange(Step(s, review, range).derived, x, range)
  {
    hide GroupOf, EvidenceUsable;
    var t, d := Step(s, review, range), DecisionOn(s.derived, review, range);
    if d.Carry? {
      var local := review.target.value - range.offset;
      var k :| 0 <= k < |s.derived| && x in s.derived[k] && range.first <= range.offset + k <= range.last;
      assert x != review.taskId ==> x in t.derived[k];
      assert review.taskId in t.derived[local];
    }
  }

  lemma InMoved(order: Order, id: string, source: nat, target: nat, k: nat, x: string)
    requires source < |order| && target < |order| && k < |order| && id in order[source]
    requires x in MoveInOrder(order, id, source, target)[k]
    ensures x in order[k] || x in order[source]
  {
  }

  /** Moves neither bring a task into the repaired range nor take one out of it, for any orders. */
  lemma {:induction false} MovesKeepListed(s: MoveState, reviews: seq<Review>, range: Range, x: string)
    requires range.first >= 0
    ensures ListedInRange(Run(s, reviews, range).derived, x, range) <==> ListedInRange(s.derived, x, range)
  {
    if reviews != [] {
      var n := |reviews| - 1;
      MovesKeepListed(s, reviews[..n], range, x);
      var mid := Run(s, reviews[..n], range);
      if ListedInRange(mid.derived, x, range) {
        StepKeepsListed(mid, reviews[n], range, x);
      }
      if ListedInRange(Run(s, reviews, range).derived, x, range) {
        StepStaysInRange(mid, reviews[n], range, x);
      }
    }
  }
}

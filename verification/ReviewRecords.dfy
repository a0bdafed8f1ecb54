/** The review records of a repair, keyed by task id. */
module ReviewRecords {
  import opened Text
  import opened RepairModel
  import opened GroupMoves

  function KeyedRecords(raw: seq<Review>): (r: seq<Review>)
    ensures |r| == |raw| && forall i :: 0 <= i < |raw| ==> r[i] == raw[i].(taskId := Strip(raw[i].taskId))
  {
    seq(|raw|, i requires 0 <= i < |raw| => raw[i].(taskId := Strip(raw[i].taskId)))
  }

  predicate Seen(records: seq<Review>, id: string) {
    exists r :: r in records && r.taskId == id
  }

  /** Every record has an id of its own and carries no blocker. */
  ghost predicate Clean(records: seq<Review>) {
    UniqueIds(records) && forall r :: r in records ==> r.taskId != "" && !r.blocker
  }

  lemma UniqueSnoc(records: seq<Review>, record: Review)
    ensures UniqueIds(records + [record]) <==> UniqueIds(records) && !Seen(records, record.taskId)
  {
    var all := records + [record];
    assert all[|records|] == record;
    assert forall i :: 0 <= i < |records| ==> all[i] == records[i];
    if UniqueIds(records) && !Seen(records, record.taskId) {
      forall i, j | 0 <= i < j < |all| ensures all[i].taskId != all[j].taskId {
        assert records[i] in records;
      }
    }
  }

  lemma CleanSnoc(records: seq<Review>, record: Review)
    ensures Clean(records + [record]) <==>
              Clean(records) && !Seen(records, record.taskId) && record.taskId != "" && !record.blocker
  {
    UniqueSnoc(records, record);
    hide UniqueIds, Seen;
    var all := records + [record];
    assert forall r :: r in all <==> r in records || r == record;
  }

  /** The first objection to a record, given those kept before it. */
  function Objection(kept: seq<Review>, record: Review): seq<Blocker> {
    if record.taskId == "" then [Blocker("invalid_review_record", "")]
    else if Seen(kept, record.taskId) then [Blocker("duplicate_review_record", record.taskId)]
    else if record.blocker then [Blocker("blocked_review_record", record.taskId)]
    else []
  }

  datatype Intake = Intake(reviews: seq<Review>, blockers: seq<Blocker>)

  function Taken(t: Intake, record: Review): Intake {
    Intake(if record.taskId != "" && !Seen(t.reviews, record.taskId) then t.reviews + [record] else t.reviews,
           t.blockers + Objection(t.reviews, record))
  }

  /** What a list of keyed records comes down to. */
  function IntakeOf(records: seq<Review>): Intake {
    if records == [] then Intake([], [])
    else Taken(IntakeOf(records[..|records| - 1]), records[|records| - 1])
  }

  /** The records kept have ids of their own, and nothing is reported exactly when every record
      is kept and clean. */
  lemma {:induction false} IntakeIsExact(records: seq<Review>)
    ensures UniqueIds(IntakeOf(records).reviews)
    ensures IntakeOf(records).blockers == [] <==> Clean(records)
    ensures Clean(records) ==> IntakeOf(records).reviews == records
  {
    if records != [] {
      var n := |records| - 1;
      IntakeIsExact(records[..n]);
      assert records == records[..n] + [records[n]];
      CleanSnoc(records[..n], records[n]);
      UniqueSnoc(IntakeOf(records[..n]).reviews, records[n]);
      hide Clean, Seen, UniqueIds;
    }
  }

  /** An earlier record has the same id. */
  ghost predicate Repeats(records: seq<Review>, i: nat)
    requires i < |records|
  {
    exists j :: 0 <= j < i && records[j].taskId == records[i].taskId
  }

  /** The record has an id, and no earlier record has it. */
  ghost predicate Kept(records: seq<Review>, i: int) {
    0 <= i < |records| && records[i].taskId != "" && !Repeats(records, i)
  }

  ghost predicate ObjectedTo(records: seq<Review>, i: int, b: Blocker) {
    0 <= i < |records| && b.taskId == records[i].taskId &&
    (if records[i].taskId == "" then b.code == "invalid_review_record"
     else if Repeats(records, i) then b.code == "duplicate_review_record"
     else records[i].blocker && b.code == "blocked_review_record")
  }

  ghost predicate AnyKept(records: seq<Review>, r: Review) {
    exists i :: Kept(records, i) && records[i] == r
  }

  ghost predicate AnyObjected(records: seq<Review>, b: Blocker) {
    exists i :: ObjectedTo(records, i, b)
  }

  lemma AnySnoc(records: seq<Review>, n: nat)
    requires |records| == n + 1
    ensures forall r :: AnyKept(records, r) <==> AnyKept(records[..n], r) || (Kept(records, n) && r == records[n])
    ensures forall b :: AnyObjected(records, b) <==> AnyObjected(records[..n], b) || ObjectedTo(records, n, b)
  {
    var before := records[..n];
    forall i | 0 <= i < n
      ensures before[i] == records[i] && (Repeats(before, i) <==> Repeats(records, i))
    {
      assert forall j :: 0 <= j < i ==> before[j] == records[j];
    }
    hide Repeats;
    assert forall i :: 0 <= i < n ==> (Kept(before, i) <==> Kept(records, i));
    assert forall i, b :: 0 <= i < n ==> (ObjectedTo(before, i, b) <==> ObjectedTo(records, i, b));
    assert forall i :: Kept(records, i) ==> i < n || i == n;
    assert forall i, b :: ObjectedTo(records, i, b) ==> i < n || i == n;
    hide Kept, ObjectedTo;
  }

  /** Which records are kept, and what is objected to, by position. */
  lemma {:induction false} IntakeIs(records: seq<Review>)
    ensures forall r :: r in IntakeOf(records).reviews <==> AnyKept(records, r)
    ensures forall b :: b in IntakeOf(records).blockers <==> AnyObjected(records, b)
  {
    hide AnyKept, AnyObjected, Repeats, Seen;
    if records == [] {
      NothingTaken();
    } else {
      var n := |records| - 1;
      IntakeIs(records[..n]);
      AnySnoc(records, n);
      SeenIff(records, n);
    }
  }

  lemma NothingTaken()
    ensures forall r :: !AnyKept([], r)
    ensures forall b :: !AnyObjected([], b)
  {
  }

  lemma SeenIff(records: seq<Review>, n: nat)
    requires n < |records| && forall r :: r in IntakeOf(records[..n]).reviews <==> AnyKept(records[..n], r)
    ensures records[n].taskId != "" ==> (Seen(IntakeOf(records[..n]).reviews, records[n].taskId) <==> Repeats(records, n))
  {
    var kept, id := IntakeOf(records[..n]).reviews, records[n].taskId;
    if j :| 0 <= j < n && records[j].taskId == id && id != "" {
      var i := FirstWith(records[..n], id, j);
      assert Kept(records[..n], i) && records[..n][i] in kept;
    }
    if Seen(kept, id) {
      var r :| r in kept && r.taskId == id;
      var i :| Kept(records[..n], i) && records[..n][i] == r;
      assert records[i].taskId == id;
    }
  }

  lemma {:induction false} FirstWith(records: seq<Review>, id: string, j: nat) returns (i: nat)
    requires j < |records| && records[j].taskId == id
    ensures i <= j && records[i].taskId == id && !Repeats(records, i)
  {
    i := j;
    if k :| 0 <= k < j && records[k].taskId == id {
      i := FirstWith(records, id, k);
    }
  }

  /** `_normalize_review_records`: records keyed by their stripped id. */
  method NormalizeReviews(raw: seq<Review>) returns (reviews: seq<Review>, blockers: seq<Blocker>)
    ensures Intake(reviews, blockers) == IntakeOf(KeyedRecords(raw))
    ensures UniqueIds(reviews)
    ensures blockers == [] <==> Clean(KeyedRecords(raw))
    ensures blockers == [] ==> reviews == KeyedRecords(raw)
  {
    hide KeyedRecords, Strip, Clean;
    reviews, blockers := [], [];
    var records := KeyedRecords(raw);
    for i := 0 to |records|
      invariant Intake(reviews, blockers) == IntakeOf(records[..i])
    {
      assert records[..i + 1][..i] == records[..i];
      var objection := Objection(reviews, records[i]);
      if records[i].taskId != "" && !Seen(reviews, records[i].taskId) {
        reviews := reviews + [records[i]];
      }
      blockers := blockers + objection;
    }
    assert records[..|records|] == records;
    IntakeIsExact(records);
  }
}

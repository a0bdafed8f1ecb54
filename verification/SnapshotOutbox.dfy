/** Mirroring the control-plane snapshot to the public outbox.

    Every dashboard poll reads the snapshot version, asks its process's cache for the version it
    projected last, reads the version again, and unless that is the cached one, reads the
    snapshot, inserts a row for the snapshot's version unless there is one, and then writes the
    version it read first to the cache. Polls run in any number of processes and interleave at
    every read and write; each may fail at every one of them; versions advance at any time and
    never recur. */
module SnapshotOutbox {
  import opened Wrappers
  import opened JsonText

  type Feature = string
  type Version = string  // "" when the feature has no typed snapshot
  type Process = nat
  type PollId = nat

  // ---------------------------------------------------------------- event ids

  const EVENT_TYPE := "control_plane.snapshot_changed"

  /** The text that `control_plane_snapshot_event_id` digests; the digest itself is taken to be
      injective. */
  function EventId(f: Feature, v: Version): string {
    PartsText([Codes(f), Codes(v), Codes(EVENT_TYPE)])
  }

  lemma TextIsClean(s: string)
    ensures NoPairs(Codes(s))
  {
    forall i | 0 <= i < |s| ensures !High(Codes(s)[i]) {
      assert Codes(s)[i] == s[i] as int;
    }
  }

  /** The text reads as the feature, the version and the type of the event. */
  lemma EventIdReads(f: Feature, v: Version)
    ensures ReadParts(EventId(f, v)) == Some([Codes(f), Codes(v), Codes("control_plane.snapshot_changed")])
  {
    TextIsClean(f);
    TextIsClean(v);
    TextIsClean(EVENT_TYPE);
    PartsRead([Codes(f), Codes(v), Codes(EVENT_TYPE)]);
  }

  /** So different versions, and different features, never share an event id. */
  lemma EventIdIsInjective(f: Feature, v: Version, g: Feature, w: Version)
    requires EventId(f, v) == EventId(g, w)
    ensures f == g && v == w
  {
    EventIdReads(f, v);
    EventIdReads(g, w);
    var a, b := [Codes(f), Codes(v), Codes(EVENT_TYPE)], [Codes(g), Codes(w), Codes(EVENT_TYPE)];
    assert a[0] == b[0] && a[1] == b[1];
    CodesInjective(f, g);
    CodesInjective(v, w);
  }

  // ---------------------------------------------------------------- the world

  /** Where a poll stands between two awaits. */
  datatype Stage =
    | Observed                      // it has read the version for its own response
    | Checking(previous: Version)   // it has asked the cache ("" for no entry)
    | Skipping                      // the version it read again is the cached one
    | Fetching                      // it is not
    | Inserting(snapshot: Version)  // it has read the snapshot
    | Inserted(snapshot: Version)   // its insert went through

  datatype Poll = Poll(process: Process, feature: Feature, observed: Version, stage: Stage)

  datatype World = World(
    current: map<Feature, Version>,
    seen: set<(Feature, Version)>,           // every version there ever was
    cache: map<(Process, Feature), Version>,
    rows: set<string>,                       // event ids in the outbox table
    inserts: seq<(Feature, Version)>,        // the rows in order of insertion
    polls: map<PollId, Poll>)

  datatype Event =
    | Advance(feature: Feature, version: Version)
    | Observe(id: PollId, process: Process, feature: Feature)
    | Begin(id: PollId)
    | ReadVersion(id: PollId)
    | ReadSnapshot(id: PollId)
    | Insert(id: PollId, acknowledged: bool)  // the row may be written although the call then fails
    | Record(id: PollId)
    | Fail(id: PollId)

  const EMPTY := World(map[], {}, map[], {}, [], map[])

  function Current(w: World, f: Feature): Version {
    if f in w.current then w.current[f] else ""
  }

  predicate Enabled(w: World, e: Event) {
    match e
    case Advance(f, v) => v != "" && (f, v) !in w.seen
    case Observe(id, _, f) => id !in w.polls && Current(w, f) != ""
    case Begin(id) => id in w.polls && w.polls[id].stage.Observed?
    case ReadVersion(id) => id in w.polls && w.polls[id].stage.Checking?
    case ReadSnapshot(id) => id in w.polls && w.polls[id].stage.Fetching?
    case Insert(id, _) => id in w.polls && w.polls[id].stage.Inserting?
    case Record(id) => id in w.polls && (w.polls[id].stage.Skipping? || w.polls[id].stage.Inserted?)
    case Fail(id) => id in w.polls
  }

  function Moved(w: World, id: PollId, stage: Stage): World
    requires id in w.polls
  {
    w.(polls := w.polls[id := w.polls[id].(stage := stage)])
  }

  function Ended(w: World, id: PollId): World {
    w.(polls := w.polls - {id})
  }

  /** The insert that does nothing on conflict. */
  function InsertRow(w: World, f: Feature, v: Version): World {
    if EventId(f, v) in w.rows then w
    else w.(rows := w.rows + {EventId(f, v)}, inserts := w.inserts + [(f, v)])
  }

  function Step(w: World, e: Event): World
    requires Enabled(w, e)
  {
    match e
    case Advance(f, v) => w.(current := w.current[f := v], seen := w.seen + {(f, v)})
    case Observe(id, process, f) => w.(polls := w.polls[id := Poll(process, f, Current(w, f), Observed)])
    case Begin(id) =>
      var key := (w.polls[id].process, w.polls[id].feature);
      Moved(w, id, Checking(if key in w.cache then w.cache[key] else ""))
    case ReadVersion(id) =>
      var version := Current(w, w.polls[id].feature);
      if version != "" && version == w.polls[id].stage.previous then Moved(w, id, Skipping) else Moved(w, id, Fetching)
    case ReadSnapshot(id) =>
      var version := Current(w, w.polls[id].feature);
      if version == "" then Ended(w, id) else Moved(w, id, Inserting(version))
    case Insert(id, acknowledged) =>
      var snapshot := w.polls[id].stage.snapshot;
      var after := InsertRow(w, w.polls[id].feature, snapshot);
      if acknowledged then Moved(after, id, Inserted(snapshot)) else Ended(after, id)
    case Record(id) =>
      var p := w.polls[id];
      Ended(w.(cache := w.cache[(p.process, p.feature) := p.observed]), id)
    case Fail(id) => Ended(w, id)
  }

  ghost predicate IsRun(w: World, events: seq<Event>)
    decreases |events|, 0
  {
    events == [] || (IsRun(w, events[..|events| - 1]) && Enabled(After(w, events[..|events| - 1]), events[|events| - 1]))
  }

  ghost function After(w: World, events: seq<Event>): World
    requires IsRun(w, events)
    decreases |events|, 1
  {
    if events == [] then w else Step(After(w, events[..|events| - 1]), events[|events| - 1])
  }

  // ---------------------------------------------------------------- what every step keeps

  ghost predicate Has(w: World, f: Feature, v: Version) {
    (f, v) in w.inserts
  }

  ghost predicate NoRepeats(inserts: seq<(Feature, Version)>) {
    forall i, j :: 0 <= i < j < |inserts| ==> inserts[i] != inserts[j]
  }

  ghost predicate RowsOk(w: World) {
    && NoRepeats(w.inserts)
    && (forall r :: r in w.inserts ==> EventId(r.0, r.1) in w.rows && r in w.seen)
    && (forall id :: id in w.rows ==> exists r :: r in w.inserts && EventId(r.0, r.1) == id)
  }

  /** A version some process or poll holds on to: it existed, and if it is current still, its row is there. */
  ghost predicate Projected(w: World, f: Feature, v: Version) {
    (f, v) in w.seen && (v == Current(w, f) ==> Has(w, f, v))
  }

  ghost predicate PollOk(w: World, p: Poll) {
    && p.observed != "" && (p.feature, p.observed) in w.seen
    && match p.stage
       case Observed => true
       case Checking(previous) => previous != "" ==> Projected(w, p.feature, previous)
       case Skipping => Projected(w, p.feature, p.observed)
       case Fetching => true
       case Inserting(snapshot) =>
         && snapshot != "" && (p.feature, snapshot) in w.seen
         && (p.observed == Current(w, p.feature) ==> snapshot == p.observed)
       case Inserted(_) => Projected(w, p.feature, p.observed)
  }

  ghost predicate Inv(w: World) {
    && RowsOk(w)
    && (forall f :: f in w.current ==> w.current[f] != "" && (f, w.current[f]) in w.seen)
    && (forall k :: k in w.cache ==> w.cache[k] != "" && Projected(w, k.1, w.cache[k]))
    && (forall id :: id in w.polls ==> PollOk(w, w.polls[id]))
  }

  lemma AdvanceKeeps(w: World, f: Feature, v: Version)
    requires Inv(w) && Enabled(w, Advance(f, v))
    ensures Inv(Step(w, Advance(f, v)))
  {
    var t := Step(w, Advance(f, v));
    assert t.inserts == w.inserts && t.polls == w.polls && t.cache == w.cache;
    forall id | id in t.polls ensures PollOk(t, t.polls[id]) {
      assert PollOk(w, w.polls[id]);
    }
  }

  lemma InsertRowKeeps(w: World, f: Feature, v: Version)
    requires Inv(w) && (f, v) in w.seen
    ensures Inv(InsertRow(w, f, v)) && Has(InsertRow(w, f, v), f, v)
    ensures forall r :: r in w.inserts ==> r in InsertRow(w, f, v).inserts
  {
    var t := InsertRow(w, f, v);
    if EventId(f, v) in w.rows {
      var r :| r in w.inserts && EventId(r.0, r.1) == EventId(f, v);
      EventIdIsInjective(r.0, r.1, f, v);
    } else {
      assert (f, v) !in w.inserts;
      assert forall r :: r in t.inserts <==> r in w.inserts || r == (f, v);
      RowsAfterInsert(w, f, v);
      forall id | id in t.polls ensures PollOk(t, t.polls[id]) {
        assert PollOk(w, w.polls[id]);
      }
    }
  }

  lemma RowsAfterInsert(w: World, f: Feature, v: Version)
    requires RowsOk(w) && (f, v) in w.seen && EventId(f, v) !in w.rows
    ensures RowsOk(InsertRow(w, f, v))
  {
    var t := InsertRow(w, f, v);
    assert forall r :: r in t.inserts <==> r in w.inserts || r == (f, v);
    forall id | id in t.rows ensures exists r :: r in t.inserts && EventId(r.0, r.1) == id {
      if id in w.rows {
        var r :| r in w.inserts && EventId(r.0, r.1) == id;
        assert r in t.inserts;
      } else {
        assert (f, v) in t.inserts && EventId((f, v).0, (f, v).1) == id;
      }
    }
  }

  lemma MovedKeeps(w: World, id: PollId, stage: Stage)
    requires Inv(w) && id in w.polls && PollOk(w, w.polls[id].(stage := stage))
    ensures Inv(Moved(w, id, stage))
  {
    var t := Moved(w, id, stage);
    forall k | k in t.polls ensures PollOk(t, t.polls[k]) {
      assert k != id ==> PollOk(w, w.polls[k]);
    }
  }

  lemma EndedKeeps(w: World, id: PollId)
    requires Inv(w)
    ensures Inv(Ended(w, id))
  {
    var t := Ended(w, id);
    forall k | k in t.polls ensures PollOk(t, t.polls[k]) {
      assert PollOk(w, w.polls[k]);
    }
  }

  lemma ObserveKeeps(w: World, id: PollId, process: Process, f: Feature)
    requires Inv(w) && Enabled(w, Observe(id, process, f))
    ensures Inv(Step(w, Observe(id, process, f)))
  {
    var t := Step(w, Observe(id, process, f));
    forall k | k in t.polls ensures PollOk(t, t.polls[k]) {
      assert k != id ==> PollOk(w, w.polls[k]);
    }
  }

  lemma RecordKeeps(w: World, id: PollId)
    requires Inv(w) && Enabled(w, Record(id))
    ensures Inv(Step(w, Record(id)))
  {
    assert PollOk(w, w.polls[id]);
    EndedKeeps(w, id);
    var t := Step(w, Record(id));
    forall k | k in t.polls ensures PollOk(t, t.polls[k]) {
      assert PollOk(w, w.polls[k]);
    }
  }

  /** Every step keeps the invariant. */
  lemma StepKeeps(w: World, e: Event)
    requires Inv(w) && Enabled(w, e)
    ensures Inv(Step(w, e))
  {
    match e
    case Advance(f, v) => AdvanceKeeps(w, f, v);
    case Observe(id, process, f) => ObserveKeeps(w, id, process, f);
    case Begin(id) =>
      assert PollOk(w, w.polls[id]);
      MovedKeeps(w, id, Step(w, e).polls[id].stage);
    case ReadVersion(id) =>
      assert PollOk(w, w.polls[id]);
      MovedKeeps(w, id, Step(w, e).polls[id].stage);
    case ReadSnapshot(id) =>
      assert PollOk(w, w.polls[id]);
      if Current(w, w.polls[id].feature) == "" {
        EndedKeeps(w, id);
      } else {
        MovedKeeps(w, id, Step(w, e).polls[id].stage);
      }
    case Insert(id, acknowledged) => InsertStepKeeps(w, id, acknowledged);
    case Record(id) => RecordKeeps(w, id);
    case Fail(id) => EndedKeeps(w, id);
  }

  lemma InsertStepKeeps(w: World, id: PollId, acknowledged: bool)
    requires Inv(w) && Enabled(w, Insert(id, acknowledged))
    ensures Inv(Step(w, Insert(id, acknowledged)))
  {
    var p := w.polls[id];
    assert PollOk(w, p);
    InsertRowKeeps(w, p.feature, p.stage.snapshot);
    var after := InsertRow(w, p.feature, p.stage.snapshot);
    if acknowledged {
      MovedKeeps(after, id, Inserted(p.stage.snapshot));
    } else {
      EndedKeeps(after, id);
    }
  }

  lemma {:induction false} RunKeeps(w: World, events: seq<Event>)
    requires Inv(w) && IsRun(w, events)
    ensures Inv(After(w, events))
  {
    if events != [] {
      RunKeeps(w, events[..|events| - 1]);
      StepKeeps(After(w, events[..|events| - 1]), events[|events| - 1]);
    }
  }

  // ---------------------------------------------------------------- the promises

  /** In every run: no version of a feature is ever inserted twice, every inserted version existed,
      and a feature's event id is in the table exactly when that version was inserted. */
  lemma AtMostOneRow(events: seq<Event>, f: Feature, v: Version)
    requires IsRun(EMPTY, events)
    ensures var w := After(EMPTY, events);
      && NoRepeats(w.inserts)
      && (Has(w, f, v) ==> (f, v) in w.seen)
      && (EventId(f, v) in w.rows <==> Has(w, f, v))
  {
    RunKeeps(EMPTY, events);
    RowIff(After(EMPTY, events), f, v);
  }

  /** A process that has the current version cached has seen its row inserted. */
  lemma CachedCurrentHasRow(events: seq<Event>, process: Process, f: Feature)
    requires IsRun(EMPTY, events) && (process, f) in After(EMPTY, events).cache
    requires After(EMPTY, events).cache[(process, f)] == Current(After(EMPTY, events), f)
    ensures Has(After(EMPTY, events), f, Current(After(EMPTY, events), f))
  {
    RunKeeps(EMPTY, events);
    var w := After(EMPTY, events);
    assert Projected(w, (process, f).1, w.cache[(process, f)]);
  }

  /** Neither the feature's version nor the poll is disturbed. */
  predicate Undisturbed(e: Event, id: PollId, f: Feature) {
    && !(e.Advance? && e.feature == f)
    && e != Fail(id) && e != Insert(id, false)
  }

  /** The poll is still on its way with the version it read, or the row is there. */
  ghost predicate OnItsWay(w: World, id: PollId, f: Feature, v: Version) {
    Current(w, f) == v && v != "" && (Has(w, f, v) || (id in w.polls && w.polls[id].feature == f && w.polls[id].observed == v))
  }

  lemma RowsStay(w: World, e: Event)
    requires Enabled(w, e)
    ensures forall r :: r in w.inserts ==> r in Step(w, e).inserts
    ensures !e.Advance? ==> Step(w, e).current == w.current
  {
  }

  /** A step of another poll, or one that does not end the poll. */
  lemma StaysOnItsWay(w: World, e: Event, id: PollId, f: Feature, v: Version)
    requires Enabled(w, e) && OnItsWay(w, id, f, v) && Undisturbed(e, id, f)
    requires !Has(w, f, v) && e != Record(id) && e != Insert(id, true) && e != ReadSnapshot(id)
    ensures OnItsWay(Step(w, e), id, f, v)
  {
  }

  lemma UndisturbedStep(w: World, e: Event, id: PollId, f: Feature, v: Version)
    requires Inv(w) && Enabled(w, e) && OnItsWay(w, id, f, v) && Undisturbed(e, id, f)
    ensures OnItsWay(Step(w, e), id, f, v)
  {
    RowsStay(w, e);
    if !Has(w, f, v) {
      assert PollOk(w, w.polls[id]);
      if e == Insert(id, true) {
        InsertRowKeeps(w, f, w.polls[id].stage.snapshot);
      } else if e != Record(id) && e != ReadSnapshot(id) {
        StaysOnItsWay(w, e, id, f, v);
      }
    }
  }

  lemma {:induction false} UndisturbedRun(w: World, events: seq<Event>, id: PollId, f: Feature, v: Version)
    requires Inv(w) && IsRun(w, events) && OnItsWay(w, id, f, v)
    requires forall e :: e in events ==> Undisturbed(e, id, f)
    ensures OnItsWay(After(w, events), id, f, v)
  {
    if events != [] {
      var n := |events| - 1;
      UndisturbedRun(w, events[..n], id, f, v);
      RunKeeps(w, events[..n]);
      assert events[n] in events;
      UndisturbedStep(After(w, events[..n]), events[n], id, f, v);
    }
  }

  /** A poll that neither fails nor sees the version change ends with the row for that version
      inserted, whatever the other polls and processes do. */
  lemma UndisturbedPollInserts(events: seq<Event>, id: PollId, process: Process, f: Feature, more: seq<Event>)
    requires IsRun(EMPTY, events) && Enabled(After(EMPTY, events), Observe(id, process, f))
    requires IsRun(Step(After(EMPTY, events), Observe(id, process, f)), more)
    requires forall e :: e in more ==> Undisturbed(e, id, f)
    requires id !in After(Step(After(EMPTY, events), Observe(id, process, f)), more).polls
    ensures Has(After(Step(After(EMPTY, events), Observe(id, process, f)), more), f, Current(After(EMPTY, events), f))
  {
    RunKeeps(EMPTY, events);
    var w := After(EMPTY, events);
    StepKeeps(w, Observe(id, process, f));
    UndisturbedRun(Step(w, Observe(id, process, f)), more, id, f, Current(w, f));
  }

  // ---------------------------------------------------------------- what is not promised

  /** A version that is no longer current, has no row and is in no poll's hands. */
  ghost predicate Lost(w: World, f: Feature, v: Version) {
    && (f, v) in w.seen && Current(w, f) != v && !Has(w, f, v)
    && forall id :: id in w.polls && w.polls[id].feature == f && w.polls[id].stage.Inserting? ==> w.polls[id].stage.snapshot != v
  }

  lemma {:induction false} LostForGood(w: World, events: seq<Event>, f: Feature, v: Version)
    requires Lost(w, f, v) && IsRun(w, events)
    ensures Lost(After(w, events), f, v)
  {
    if events != [] {
      LostForGood(w, events[..|events| - 1], f, v);
      LostStep(After(w, events[..|events| - 1]), events[|events| - 1], f, v);
    }
  }

  lemma LostStep(w: World, e: Event, f: Feature, v: Version)
    requires Lost(w, f, v) && Enabled(w, e)
    ensures Lost(Step(w, e), f, v)
  {
    if e.Insert? {
      var p := w.polls[e.id];
      var after := InsertRow(w, p.feature, p.stage.snapshot);
      assert forall r :: r in after.inserts ==> r in w.inserts || r == (p.feature, p.stage.snapshot);
    }
  }

  /** The poll has not yet made the read that its record relies on. */
  predicate Unread(w: World, id: PollId) {
    id in w.polls && (w.polls[id].stage.Observed? || w.polls[id].stage.Checking? || w.polls[id].stage.Fetching?)
  }

  /** The feature's version advanced between the poll's first read and the read that its record relies on. */
  ghost predicate Overtaken(w: World, events: seq<Event>, id: PollId, f: Feature)
    requires IsRun(w, events)
  {
    events != [] &&
    (var n := |events| - 1;
     || Overtaken(w, events[..n], id, f)
     || (events[n].Advance? && events[n].feature == f && Unread(After(w, events[..n]), id)))
  }

  /** What the poll has read is the version it observed. */
  ghost predicate OnTrack(w: World, id: PollId, f: Feature, v: Version) {
    id in w.polls ==>
      var p := w.polls[id];
      p.feature == f && p.observed == v &&
      match p.stage
      case Observed => Current(w, f) == v
      case Checking(_) => Current(w, f) == v
      case Fetching => Current(w, f) == v
      case Inserting(snapshot) => snapshot == v
      case Skipping => Has(w, f, v)
      case Inserted(_) => Has(w, f, v)
  }

  lemma TrackStep(w: World, e: Event, id: PollId, f: Feature, v: Version)
    requires Inv(w) && Enabled(w, e) && OnTrack(w, id, f, v)
    requires !(e.Observe? && e.id == id) && !(e.Advance? && e.feature == f && Unread(w, id))
    ensures OnTrack(Step(w, e), id, f, v)
  {
    if id in w.polls {
      assert PollOk(w, w.polls[id]);
      if e == Insert(id, true) {
        InsertRowKeeps(w, f, v);
      } else {
        TrackOther(w, e, id, f, v);
      }
    }
  }

  lemma TrackOther(w: World, e: Event, id: PollId, f: Feature, v: Version)
    requires Enabled(w, e) && id in w.polls && PollOk(w, w.polls[id]) && OnTrack(w, id, f, v) && e != Insert(id, true)
    requires !(e.Observe? && e.id == id) && !(e.Advance? && e.feature == f && Unread(w, id))
    ensures OnTrack(Step(w, e), id, f, v)
  {
    hide EventId;
    RowsStay(w, e);
  }

  lemma {:induction false} TrackRun(w: World, events: seq<Event>, id: PollId, f: Feature, v: Version)
    requires Inv(w) && IsRun(w, events) && OnTrack(w, id, f, v)
    requires forall e :: e in events ==> !(e.Observe? && e.id == id)
    requires !Overtaken(w, events, id, f)
    ensures OnTrack(After(w, events), id, f, v)
  {
    if events != [] {
      var n := |events| - 1;
      TrackRun(w, events[..n], id, f, v);
      RunKeeps(w, events[..n]);
      assert events[n] in events;
      TrackStep(After(w, events[..n]), events[n], id, f, v);
    }
  }

  /** A poll keeps its process, its feature and the version it observed. */
  lemma SamePollStep(w: World, e: Event, id: PollId)
    requires Enabled(w, e) && !(e.Observe? && e.id == id)
    ensures id in Step(w, e).polls ==>
              && id in w.polls && Step(w, e).polls[id].process == w.polls[id].process
              && Step(w, e).polls[id].feature == w.polls[id].feature && Step(w, e).polls[id].observed == w.polls[id].observed
  {
    hide EventId;
  }

  lemma {:induction false} SamePoll(w: World, events: seq<Event>, id: PollId)
    requires IsRun(w, events)
    requires forall e :: e in events ==> !(e.Observe? && e.id == id)
    ensures var t := After(w, events); id in t.polls ==>
              && id in w.polls && t.polls[id].process == w.polls[id].process
              && t.polls[id].feature == w.polls[id].feature && t.polls[id].observed == w.polls[id].observed
  {
    if events != [] {
      hide Step;
      var n := |events| - 1;
      SamePoll(w, events[..n], id);
      assert events[n] in events;
      SamePollStep(After(w, events[..n]), events[n], id);
    }
  }

  // ---------------------------------------------------------------- what the cache is for

  /** The version the process has cached for the feature, if any, is the current one. */
  predicate Cached(w: World, process: Process, f: Feature) {
    (process, f) in w.cache && w.cache[(process, f)] == Current(w, f)
  }

  predicate Reads(e: Event, id: PollId) {
    (e.ReadSnapshot? || e.Insert?) && e.id == id
  }

  /** The poll is about to find, or has found, the version that was cached. */
  ghost predicate Settled(w: World, id: PollId, f: Feature, v: Version) {
    id in w.polls ==>
      && w.polls[id].feature == f
      && (w.polls[id].stage.Skipping? || (w.polls[id].stage == Checking(v) && Current(w, f) == v))
  }

  lemma SettledStep(w: World, e: Event, id: PollId, f: Feature, v: Version)
    requires Enabled(w, e) && Settled(w, id, f, v) && v != "" && !(e.Observe? && e.id == id)
    requires !(e.Advance? && e.feature == f && Unread(w, id))
    ensures Settled(Step(w, e), id, f, v) && !Reads(e, id)
  {
    hide EventId;
  }

  lemma {:induction false} SettledRun(w: World, events: seq<Event>, id: PollId, f: Feature, v: Version)
    requires IsRun(w, events) && Settled(w, id, f, v) && v != "" && !Overtaken(w, events, id, f)
    requires forall e :: e in events ==> !(e.Observe? && e.id == id)
    ensures Settled(After(w, events), id, f, v) && forall e :: e in events ==> !Reads(e, id)
  {
    if events != [] {
      hide Step, Settled;
      var n := |events| - 1;
      SettledRun(w, events[..n], id, f, v);
      assert events == events[..n] + [events[n]];
      SettledStep(After(w, events[..n]), events[n], id, f, v);
    }
  }

  /** The poll is about to find another version than the cached one, or on its way to the snapshot,
      or past it. */
  ghost predicate Bound(w: World, id: PollId, f: Feature, v: Version, read: bool) {
    if id !in w.polls then read
    else
      var p := w.polls[id];
      p.feature == f &&
      match p.stage
      case Observed => false
      case Checking(previous) => Current(w, f) == v && previous != v
      case Skipping => false
      case Fetching => true
      case Inserting(_) => read
      case Inserted(_) => read
  }

  lemma BoundStep(w: World, e: Event, id: PollId, f: Feature, v: Version, read: bool)
    requires Enabled(w, e) && Bound(w, id, f, v, read) && !(e.Observe? && e.id == id) && e != Fail(id)
    requires !(e.Advance? && e.feature == f && Unread(w, id))
    ensures Bound(Step(w, e), id, f, v, read || e == ReadSnapshot(id))
  {
    hide EventId;
  }

  lemma {:induction false} BoundRun(w: World, events: seq<Event>, id: PollId, f: Feature, v: Version)
    requires IsRun(w, events) && Bound(w, id, f, v, false) && !Overtaken(w, events, id, f)
    requires forall e :: e in events ==> !(e.Observe? && e.id == id) && e != Fail(id)
    ensures Bound(After(w, events), id, f, v, ReadSnapshot(id) in events)
  {
    if events != [] {
      hide Step, Bound;
      var n := |events| - 1;
      BoundRun(w, events[..n], id, f, v);
      assert events == events[..n] + [events[n]];
      BoundStep(After(w, events[..n]), events[n], id, f, v, ReadSnapshot(id) in events[..n]);
    }
  }

  /** If the process has the current version cached when a poll asks, and the version does not
      advance before the poll reads it again, the poll skips: it never reads the snapshot, never
      inserts, and is never about to. */
  lemma CachedPollSkips(events: seq<Event>, id: PollId, more: seq<Event>)
    requires IsRun(EMPTY, events) && Enabled(After(EMPTY, events), Begin(id))
    requires IsRun(Step(After(EMPTY, events), Begin(id)), more)
    requires forall e :: e in more ==> !(e.Observe? && e.id == id)
    requires var w := After(EMPTY, events);
      Cached(w, w.polls[id].process, w.polls[id].feature) && !Overtaken(Step(w, Begin(id)), more, id, w.polls[id].feature)
    ensures forall e :: e in more ==> !Reads(e, id)
    ensures var t := After(Step(After(EMPTY, events), Begin(id)), more);
      id in t.polls ==> t.polls[id].stage.Checking? || t.polls[id].stage.Skipping?
  {
    RunKeeps(EMPTY, events);
    var w := After(EMPTY, events);
    SettledRun(Step(w, Begin(id)), more, id, w.polls[id].feature, Current(w, w.polls[id].feature));
  }

  /** And only then: a poll that does not fail and is not overtaken comes to read the snapshot
      before it ends if and only if its process did not have the current version cached. */
  lemma PollReadsIff(events: seq<Event>, id: PollId, more: seq<Event>)
    requires IsRun(EMPTY, events) && Enabled(After(EMPTY, events), Begin(id))
    requires IsRun(Step(After(EMPTY, events), Begin(id)), more)
    requires forall e :: e in more ==> !(e.Observe? && e.id == id) && e != Fail(id)
    requires !Overtaken(Step(After(EMPTY, events), Begin(id)), more, id, After(EMPTY, events).polls[id].feature)
    requires id !in After(Step(After(EMPTY, events), Begin(id)), more).polls
    ensures var w := After(EMPTY, events);
      ReadSnapshot(id) in more <==> !Cached(w, w.polls[id].process, w.polls[id].feature)
  {
    RunKeeps(EMPTY, events);
    var w := After(EMPTY, events);
    var p := w.polls[id];
    assert PollOk(w, p);
    if Cached(w, p.process, p.feature) {
      CachedPollSkips(events, id, more);
      assert Reads(ReadSnapshot(id), id);
    } else {
      CurrentIsSome(events, p.feature);
      BoundRun(Step(w, Begin(id)), more, id, p.feature, Current(w, p.feature));
    }
  }

  /** A feature that ever had a version has one. */
  lemma {:induction false} CurrentIsSome(events: seq<Event>, f: Feature)
    requires IsRun(EMPTY, events)
    ensures forall v :: (f, v) in After(EMPTY, events).seen ==> Current(After(EMPTY, events), f) != ""
  {
    if events != [] {
      hide Step;
      var n := |events| - 1;
      CurrentIsSome(events[..n], f);
      CurrentIsSomeStep(After(EMPTY, events[..n]), events[n], f);
    }
  }

  lemma CurrentIsSomeStep(w: World, e: Event, f: Feature)
    requires Enabled(w, e) && forall v :: (f, v) in w.seen ==> Current(w, f) != ""
    ensures forall v :: (f, v) in Step(w, e).seen ==> Current(Step(w, e), f) != ""
  {
    hide EventId;
  }

  // ---------------------------------------------------------------- what a poll inserts

  predicate Concerns(e: Event, id: PollId) {
    !e.Advance? && e.id == id
  }

  lemma UnconcernedStep(w: World, e: Event, id: PollId)
    requires Enabled(w, e) && !Concerns(e, id)
    ensures id in Step(w, e).polls <==> id in w.polls
    ensures id in w.polls ==> Step(w, e).polls[id] == w.polls[id]
  {
    hide EventId;
  }

  lemma {:induction false} UnconcernedRun(w: World, events: seq<Event>, id: PollId)
    requires IsRun(w, events) && forall e :: e in events ==> !Concerns(e, id)
    ensures id in After(w, events).polls <==> id in w.polls
    ensures id in w.polls ==> After(w, events).polls[id] == w.polls[id]
  {
    if events != [] {
      hide Step;
      var n := |events| - 1;
      UnconcernedRun(w, events[..n], id);
      assert events[n] in events;
      UnconcernedStep(After(w, events[..n]), events[n], id);
    }
  }

  /** A poll inserts the version that was current when it read the snapshot, at the end of the
      table, unless the table has it; and nothing else ever inserts a row. */
  lemma PollInsertsWhatItRead(w: World, id: PollId, between: seq<Event>, acknowledged: bool)
    requires Inv(w) && Enabled(w, ReadSnapshot(id)) && IsRun(Step(w, ReadSnapshot(id)), between)
    requires forall e :: e in between ==> !Concerns(e, id)
    requires Enabled(After(Step(w, ReadSnapshot(id)), between), Insert(id, acknowledged))
    ensures var t := After(Step(w, ReadSnapshot(id)), between);
            var f, v := w.polls[id].feature, Current(w, w.polls[id].feature);
      && (Has(t, f, v) ==> Step(t, Insert(id, acknowledged)).inserts == t.inserts)
      && (!Has(t, f, v) ==> Step(t, Insert(id, acknowledged)).inserts == t.inserts + [(f, v)])
  {
    var s := Step(w, ReadSnapshot(id));
    StepKeeps(w, ReadSnapshot(id));
    RunKeeps(s, between);
    CurrentStays(w, between, id);
    UnconcernedRun(s, between, id);
    var t, f, v := After(s, between), w.polls[id].feature, Current(w, w.polls[id].feature);
    RowIff(t, f, v);
  }

  /** A snapshot read without a version ends the poll. */
  lemma CurrentStays(w: World, between: seq<Event>, id: PollId)
    requires Enabled(w, ReadSnapshot(id)) && IsRun(Step(w, ReadSnapshot(id)), between)
    requires forall e :: e in between ==> !Concerns(e, id)
    requires id in After(Step(w, ReadSnapshot(id)), between).polls
    ensures Current(w, w.polls[id].feature) != ""
  {
    assert Current(w, w.polls[id].feature) == "" ==> id !in Step(w, ReadSnapshot(id)).polls;
    UnconcernedRun(Step(w, ReadSnapshot(id)), between, id);
  }

  lemma RowIff(w: World, f: Feature, v: Version)
    requires RowsOk(w)
    ensures EventId(f, v) in w.rows <==> Has(w, f, v)
  {
    if EventId(f, v) in w.rows {
      var r :| r in w.inserts && EventId(r.0, r.1) == EventId(f, v);
      EventIdIsInjective(r.0, r.1, f, v);
    }
  }

  lemma OnlyInsertsInsert(w: World, e: Event)
    requires Enabled(w, e) && !e.Insert?
    ensures Step(w, e).inserts == w.inserts && Step(w, e).rows == w.rows
  {
  }

  /** Another poll has read the version's snapshot and not inserted it yet. */
  ghost predicate Held(w: World, f: Feature, v: Version) {
    exists id :: id in w.polls && w.polls[id].feature == f && w.polls[id].stage == Inserting(v)
  }

  /** When a poll records a version that has no row: only after it was overtaken, and the version is
      lost exactly if no other poll inserted it or holds it still. */
  lemma RecordLosesIff(events: seq<Event>, id: PollId, process: Process, f: Feature, more: seq<Event>)
    requires IsRun(EMPTY, events) && Enabled(After(EMPTY, events), Observe(id, process, f))
    requires IsRun(Step(After(EMPTY, events), Observe(id, process, f)), more)
    requires forall e :: e in more ==> !(e.Observe? && e.id == id)
    requires Enabled(After(Step(After(EMPTY, events), Observe(id, process, f)), more), Record(id))
    ensures var start := Step(After(EMPTY, events), Observe(id, process, f));
            var w, v := After(start, more), Current(start, f);
      && (process, f) in Step(w, Record(id)).cache && Step(w, Record(id)).cache[(process, f)] == v
      && (!Has(w, f, v) ==> Overtaken(start, more, id, f))
      && (Lost(Step(w, Record(id)), f, v) <==> Overtaken(start, more, id, f) && !Has(w, f, v) && !Held(w, f, v))
  {
    RunKeeps(EMPTY, events);
    var start := Step(After(EMPTY, events), Observe(id, process, f));
    var w, v := After(start, more), Current(start, f);
    StepKeeps(After(EMPTY, events), Observe(id, process, f));
    RunKeeps(start, more);
    SamePoll(start, more, id);
    if !Overtaken(start, more, id, f) {
      TrackRun(start, more, id, f, v);
    }
    RecordedIsLostIff(w, id);
  }

  lemma RecordedIsLostIff(w: World, id: PollId)
    requires Inv(w) && Enabled(w, Record(id))
    ensures var p := w.polls[id];
      Lost(Step(w, Record(id)), p.feature, p.observed) <==> !Has(w, p.feature, p.observed) && !Held(w, p.feature, p.observed)
  {
    var p := w.polls[id];
    assert PollOk(w, p);
    var t := Step(w, Record(id));
    assert t.inserts == w.inserts && t.current == w.current && t.seen == w.seen;
    if Held(w, p.feature, p.observed) {
      var k :| k in w.polls && w.polls[k].feature == p.feature && w.polls[k].stage == Inserting(p.observed);
      assert k in t.polls;
    }
  }

  // ---------------------------------------------------------------- an input on which a version is lost

  lemma RunOn(w: World, events: seq<Event>, before: World, after: World)
    requires events != [] && IsRun(w, events[..|events| - 1]) && After(w, events[..|events| - 1]) == before
    requires Enabled(before, events[|events| - 1]) && Step(before, events[|events| - 1]) == after
    ensures IsRun(w, events) && After(w, events) == after
  {
  }

  /** A poll that read version "a" and asked the cache. */
  const ASKED := World(map["f" := "a"], {("f", "a")}, map[], {}, [], map[0 := Poll(0, "f", "a", Checking(""))])

  /** A poll that read version "a", and whose snapshot read came after the advance to "b". */
  const READ_TOO_LATE :=
    World(map["f" := "b"], {("f", "a"), ("f", "b")}, map[], {}, [], map[0 := Poll(0, "f", "a", Inserting("b"))])

  const RECORDED :=
    World(map["f" := "b"], {("f", "a"), ("f", "b")}, map[(0, "f") := "a"], {EventId("f", "b")}, [("f", "b")], map[])

  lemma AskedRun(es: seq<Event>)
    requires es == [Advance("f", "a"), Observe(0, 0, "f"), Begin(0)]
    ensures IsRun(EMPTY, es) && After(EMPTY, es) == ASKED
  {
    hide EventId;
    var first := World(map["f" := "a"], {("f", "a")}, map[], {}, [], map[]);
    assert es[..1][..0] == [] && es[..2][..1] == es[..1] && es[..3] == es;
    RunOn(EMPTY, es[..1], EMPTY, first);
    var observed := first.(polls := map[0 := Poll(0, "f", "a", Observed)]);
    RunOn(EMPTY, es[..2], first, observed);
    RunOn(EMPTY, es, observed, ASKED);
  }

  lemma ReadTooLateRun(es: seq<Event>)
    requires es == [Advance("f", "b"), ReadVersion(0), ReadSnapshot(0)]
    ensures IsRun(ASKED, es) && After(ASKED, es) == READ_TOO_LATE
  {
    hide EventId;
    var advanced := ASKED.(current := map["f" := "b"], seen := {("f", "a"), ("f", "b")});
    assert es[..1][..0] == [] && es[..2][..1] == es[..1] && es[..3] == es;
    RunOn(ASKED, es[..1], ASKED, advanced);
    var fetching := advanced.(polls := map[0 := Poll(0, "f", "a", Fetching)]);
    RunOn(ASKED, es[..2], advanced, fetching);
    RunOn(ASKED, es, fetching, READ_TOO_LATE);
  }

  lemma RecordedRun(es: seq<Event>)
    requires es == [Insert(0, true), Record(0)]
    ensures IsRun(READ_TOO_LATE, es) && After(READ_TOO_LATE, es) == RECORDED
  {
    hide EventId;
    var inserted := READ_TOO_LATE.(rows := {EventId("f", "b")}, inserts := [("f", "b")],
                                   polls := map[0 := Poll(0, "f", "a", Inserted("b"))]);
    assert es[..1][..0] == [] && es[..2] == es;
    RunOn(READ_TOO_LATE, es[..1], READ_TOO_LATE, inserted);
    RunOn(READ_TOO_LATE, es, inserted, RECORDED);
  }

  lemma {:induction false} RunConcat(w: World, a: seq<Event>, b: seq<Event>)
    requires IsRun(w, a) && IsRun(After(w, a), b)
    ensures IsRun(w, a + b) && After(w, a + b) == After(After(w, a), b)
  {
    if b == [] {
      assert a + b == a;
    } else {
      var n := |b| - 1;
      RunConcat(w, a, b[..n]);
      assert (a + b)[..|a + b| - 1] == a + b[..n];
    }
  }

  /** The cache is not a record of projected versions: if the version advances while a poll is
      between its two reads, the process caches a version whose row is not there and, however
      the run goes on, never will be. */
  lemma CacheCanHoldALostVersion(events: seq<Event>, more: seq<Event>)
    requires events == [Advance("f", "a"), Observe(0, 0, "f"), Begin(0), Advance("f", "b"),
                        ReadVersion(0), ReadSnapshot(0), Insert(0, true), Record(0)]
    requires IsRun(EMPTY, events) ==> IsRun(After(EMPTY, events), more)
    ensures IsRun(EMPTY, events) && (0, "f") in After(EMPTY, events).cache && After(EMPTY, events).cache[(0, "f")] == "a"
    ensures !Has(After(After(EMPTY, events), more), "f", "a")
  {
    hide EventId, Step, Enabled;
    AskedRun(events[..3]);
    ReadTooLateRun(events[3..6]);
    RecordedRun(events[6..]);
    RunConcat(EMPTY, events[..3], events[3..6]);
    RunConcat(EMPTY, events[..3] + events[3..6], events[6..]);
    assert events == events[..3] + events[3..6] + events[6..];
    LostForGood(RECORDED, more, "f", "a");
  }
}

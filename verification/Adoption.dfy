/** Adopting an in-flight feature: a marker that is written once, only under a go landing record
    for the same candidate, and the guard that asks for it. */
module Adoption {
  import opened Text
  import opened Wrappers
  import Landing

  // ---------------------------------------------------------------- the marker record

  datatype Details = Details(
    rootDagArtifactId: int,
    rootDagSha256: string,
    rangeStart: int,
    rangeEnd: int,
    nextGroup: int,
    projectionDigest: string,
    adoptedAt: int,
    notes: string)

  datatype Record = Record(featureId: string, candidateCommit: string, deployArtifactId: string, details: Details)

  /** The validators of the marker record. */
  predicate RecordAccepted(r: Record) {
    && !Landing.Blank(r.featureId) && !Landing.Blank(r.candidateCommit) && !Landing.Blank(r.deployArtifactId)
    && !Landing.Blank(r.details.rootDagSha256) && !Landing.Blank(r.details.projectionDigest)
    && r.details.rootDagArtifactId >= 0 && r.details.nextGroup >= 0
    && 0 <= r.details.rangeStart <= r.details.rangeEnd
  }

  // ---------------------------------------------------------------- the artifact store

  /** A stored body: empty text, the serialized form of a record, or anything else. */
  datatype Body = Empty | Serialized(record: Record) | Unreadable

  const MARKER_PREFIX := "execution-control-adoption:"

  function MarkerKey(featureId: string): string {
    MARKER_PREFIX + featureId
  }

  class ArtifactStore {
    var bodies: map<string, Body>
    var puts: seq<(string, Record)>  // every write, in order

    constructor ()
      ensures bodies == map[] && puts == []
    {
      bodies, puts := map[], [];
    }

    method Put(key: string, record: Record)
      modifies this
      ensures bodies == old(bodies)[key := Serialized(record)] && puts == old(puts) + [(key, record)]
    {
      bodies := bodies[key := Serialized(record)];
      puts := puts + [(key, record)];
    }
  }

  datatype Error =
    | BlankFeature
    | NotGo
    | CommitMismatch
    | ArtifactMismatch
    | CorruptMarker
    | OtherAdoption
    | InvalidRecord
    | StoreFailed
    | NoMarker
    | BadFlag

  datatype Result<T> = Ok(value: T) | Err(error: Error)

  /** The marker of a feature as its body reads: absent when there is no body or an empty one. */
  function MarkerOf(bodies: map<string, Body>, featureId: string): Result<Option<Record>> {
    if MarkerKey(featureId) !in bodies then Ok(None)
    else match bodies[MarkerKey(featureId)]
      case Empty => Ok(None)
      case Serialized(record) => if RecordAccepted(record) then Ok(Some(record)) else Err(CorruptMarker)
      case Unreadable => Err(CorruptMarker)
  }

  /** The body stored for the feature is the serialized form of an acceptable record. */
  ghost predicate HoldsMarker(bodies: map<string, Body>, featureId: string, record: Record) {
    var key := "execution-control-adoption:" + featureId;
    key in bodies && bodies[key] == Serialized(record) && RecordAccepted(record)
  }

  lemma MarkerMeans(bodies: map<string, Body>, featureId: string)
    ensures var key := "execution-control-adoption:" + featureId;
      && (MarkerOf(bodies, featureId) == Ok(None) <==> key !in bodies || bodies[key] == Empty)
      && (forall r :: MarkerOf(bodies, featureId) == Ok(Some(r)) <==> HoldsMarker(bodies, featureId, r))
  {
    hide RecordAccepted;
    assert MarkerKey(featureId) == "execution-control-adoption:" + featureId;
  }

  /** `read_adoption_marker`; reading the store may fail. */
  function ReadMarker(bodies: map<string, Body>, featureId: string, readFails: bool): Result<Option<Record>> {
    if readFails then Err(CorruptMarker) else MarkerOf(bodies, featureId)
  }

  // ---------------------------------------------------------------- the adoption command

  /** What becomes of a write: it may be stored although the store then raises. */
  datatype WriteFate = Stored | NotStored | StoredButRaised

  /** A call of the adoption command, with what the store does to it. */
  datatype Call = Call(
    feature: string,
    landing: Landing.Record,
    candidateCommit: string,
    deployArtifactId: string,
    details: Details,
    readFails: bool,
    write: WriteFate)

  function FeatureId(c: Call): string {
    Strip(c.feature)
  }

  function NewRecord(c: Call): Record {
    Record(FeatureId(c), c.candidateCommit, c.deployArtifactId, c.details)
  }

  predicate IsGo(c: Call) {
    c.landing.passed && c.landing.decisionIsGo
  }

  /** The call is for the candidate the landing record approved. */
  predicate Approved(c: Call) {
    && IsGo(c)
    && Strip(c.candidateCommit) == Strip(c.landing.candidateCommit)
    && Strip(c.deployArtifactId) == Strip(c.landing.deployArtifactId)
  }

  predicate SameAdoption(r: Record, c: Call) {
    Strip(r.candidateCommit) == Strip(c.candidateCommit) && Strip(r.deployArtifactId) == Strip(c.deployArtifactId)
  }

  /** A call that comes to write: approved, no marker yet and a valid record. */
  predicate Reaches(bodies: map<string, Body>, c: Call) {
    && FeatureId(c) != "" && Approved(c) && !c.readFails && MarkerOf(bodies, FeatureId(c)) == Ok(None)
    && RecordAccepted(NewRecord(c))
  }

  /** A call that leaves a marker, whether or not it is told so. */
  predicate Writes(bodies: map<string, Body>, c: Call) {
    Reaches(bodies, c) && c.write != NotStored
  }

  /** A call that finds the marker it would have written. */
  predicate Repeats(bodies: map<string, Body>, c: Call) {
    && FeatureId(c) != "" && Approved(c) && !c.readFails
    && MarkerOf(bodies, FeatureId(c)).Ok? && MarkerOf(bodies, FeatureId(c)).value.Some?
    && SameAdoption(MarkerOf(bodies, FeatureId(c)).value.value, c)
  }

  /** The checks of a call against its landing record: the first one that fails. */
  function Refusal(c: Call): Option<Error> {
    if FeatureId(c) == "" then Some(BlankFeature)
    else if !IsGo(c) then Some(NotGo)
    else if Strip(c.candidateCommit) != Strip(c.landing.candidateCommit) then Some(CommitMismatch)
    else if Strip(c.deployArtifactId) != Strip(c.landing.deployArtifactId) then Some(ArtifactMismatch)
    else None
  }

  /** What a call answers. */
  function Answer(bodies: map<string, Body>, c: Call): Result<Record> {
    if Refusal(c).Some? then Err(Refusal(c).value)
    else
      match ReadMarker(bodies, FeatureId(c), c.readFails)
      case Err(error) => Err(error)
      case Ok(Some(marker)) => if SameAdoption(marker, c) then Ok(marker) else Err(OtherAdoption)
      case Ok(None) =>
        if !RecordAccepted(NewRecord(c)) then Err(InvalidRecord)
        else if c.write == Stored then Ok(NewRecord(c))
        else Err(StoreFailed)
  }

  /** A call succeeds exactly when it writes the marker undisturbed or finds it, and every refusal
      comes exactly under its condition. A store that raises after storing leaves a marker behind
      a refusal, which a later call of the same kind finds. */
  lemma AnswerIsExact(bodies: map<string, Body>, c: Call)
    ensures Answer(bodies, c).Ok? <==> (Reaches(bodies, c) && c.write == Stored) || Repeats(bodies, c)
    ensures Repeats(bodies, c) ==> Ok(Some(Answer(bodies, c).value)) == MarkerOf(bodies, FeatureId(c))
    ensures Answer(bodies, c) == Err(StoreFailed) <==> Reaches(bodies, c) && c.write != Stored
    ensures Answer(bodies, c) == Err(CorruptMarker) <==>
              FeatureId(c) != "" && Approved(c) && (c.readFails || MarkerOf(bodies, FeatureId(c)).Err?)
    ensures Answer(bodies, c) == Err(InvalidRecord) <==>
              && FeatureId(c) != "" && Approved(c) && !c.readFails && MarkerOf(bodies, FeatureId(c)) == Ok(None)
              && !RecordAccepted(NewRecord(c))
    ensures Answer(bodies, c) == Err(OtherAdoption) <==>
              && FeatureId(c) != "" && Approved(c) && !c.readFails
              && MarkerOf(bodies, FeatureId(c)).Ok? && MarkerOf(bodies, FeatureId(c)).value.Some?
              && !SameAdoption(MarkerOf(bodies, FeatureId(c)).value.value, c)
  {
    hide Strip, RecordAccepted, MarkerKey;
  }

  /** The refusals that need no store: each comes under its condition, and only then. */
  lemma RefusalIsExact(bodies: map<string, Body>, c: Call)
    ensures Refusal(c).None? <==> FeatureId(c) != "" && Approved(c)
    ensures Answer(bodies, c) == Err(BlankFeature) <==> FeatureId(c) == ""
    ensures Answer(bodies, c) == Err(NotGo) <==> FeatureId(c) != "" && !IsGo(c)
    ensures Answer(bodies, c) == Err(CommitMismatch) <==>
              FeatureId(c) != "" && IsGo(c) && Strip(c.candidateCommit) != Strip(c.landing.candidateCommit)
    ensures Answer(bodies, c) == Err(ArtifactMismatch) <==>
              && FeatureId(c) != "" && IsGo(c) && Strip(c.candidateCommit) == Strip(c.landing.candidateCommit)
              && Strip(c.deployArtifactId) != Strip(c.landing.deployArtifactId)
  {
    hide Strip, RecordAccepted, MarkerKey;
  }

  /** A call that was refused although its marker was stored succeeds when it is made again. */
  lemma RetryFinds(bodies: map<string, Body>, c: Call, again: Call)
    requires Reaches(bodies, c) && c.write == StoredButRaised && again == c.(readFails := false, write := again.write)
    ensures Answer(bodies, c) == Err(StoreFailed)
    ensures Answer(bodies[MarkerKey(FeatureId(c)) := Serialized(NewRecord(c))], again) == Ok(NewRecord(c))
  {
    hide Strip, MarkerKey;
  }

  /** `adopt_in_flight_feature`. It leaves a marker exactly when it writes one, and changes nothing
      otherwise. */
  method Adopt(store: ArtifactStore, c: Call) returns (r: Result<Record>)
    modifies store
    ensures r == Answer(old(store.bodies), c)
    ensures old(Writes(store.bodies, c)) ==>
              && store.bodies == old(store.bodies)[MarkerKey(FeatureId(c)) := Serialized(NewRecord(c))]
              && store.puts == old(store.puts) + [(MarkerKey(FeatureId(c)), NewRecord(c))]
    ensures !old(Writes(store.bodies, c)) ==> store.bodies == old(store.bodies) && store.puts == old(store.puts)
  {
    hide Strip, RecordAccepted, MarkerKey;
    RefusalIsExact(store.bodies, c);
    var refused := Refusal(c);
    if refused.Some? {
      return Err(refused.value);
    }
    var featureId := Strip(c.feature);
    var existing := ReadMarker(store.bodies, featureId, c.readFails);
    if existing.Err? {
      return Err(existing.error);
    }
    if existing.value.Some? {
      if SameAdoption(existing.value.value, c) {
        return Ok(existing.value.value);
      }
      return Err(OtherAdoption);
    }
    var record := Record(featureId, c.candidateCommit, c.deployArtifactId, c.details);
    if !RecordAccepted(record) {
      return Err(InvalidRecord);
    }
    if c.write != NotStored {
      store.Put(MarkerKey(featureId), record);
    }
    if c.write != Stored {
      return Err(StoreFailed);
    }
    r := Ok(record);
  }

  /** The state of the enablement flag. */
  datatype Flag = Unset | Disabled | Enabled | Malformed

  /** `assert_feature_adopted_or_legacy`. With the flag enabled it lets a feature pass exactly when
      a readable marker is there; without, it always passes and asks for nothing. */
  method Guard(store: ArtifactStore, feature: string, flag: Flag, readFails: bool) returns (r: Result<Option<Record>>)
    ensures flag == Malformed ==> r == Err(BadFlag)
    ensures flag != Malformed && Strip(feature) == "" ==> r == Err(BlankFeature)
    ensures (flag == Unset || flag == Disabled) && Strip(feature) != "" ==> r == Ok(None)
    ensures flag == Enabled && Strip(feature) != "" ==>
              (r.Ok? <==> !readFails && MarkerOf(store.bodies, Strip(feature)).Ok? && MarkerOf(store.bodies, Strip(feature)).value.Some?)
    ensures flag == Enabled && r.Ok? ==> r.value.Some? && r == MarkerOf(store.bodies, Strip(feature))
    ensures flag == Enabled && Strip(feature) != "" ==>
              (r.Ok? <==> !readFails && exists record :: HoldsMarker(store.bodies, Strip(feature), record))
  {
    if flag == Malformed {
      return Err(BadFlag);
    }
    var featureId := Strip(feature);
    if featureId == "" {
      return Err(BlankFeature);
    }
    if flag != Enabled {
      return Ok(None);
    }
    r := ReadMarker(store.bodies, featureId, readFails);
    MarkerMeans(store.bodies, featureId);
    hide HoldsMarker, RecordAccepted, Strip;
    if r.Ok? && r.value.None? {
      return Err(NoMarker);
    }
  }

  // ---------------------------------------------------------------- every sequence of calls

  /** The store's bodies and writes after one call. */
  datatype Shelf = Shelf(bodies: map<string, Body>, puts: seq<(string, Record)>)

  function AfterCall(s: Shelf, c: Call): Shelf {
    if Writes(s.bodies, c) then
      Shelf(s.bodies[MarkerKey(FeatureId(c)) := Serialized(NewRecord(c))], s.puts + [(MarkerKey(FeatureId(c)), NewRecord(c))])
    else s
  }

  function AfterCalls(s: Shelf, calls: seq<Call>): Shelf {
    if calls == [] then s else AfterCall(AfterCalls(s, calls[..|calls| - 1]), calls[|calls| - 1])
  }

  /** The calls one after the other. */
  method AdoptAll(store: ArtifactStore, calls: seq<Call>)
    modifies store
    ensures Shelf(store.bodies, store.puts) == AfterCalls(Shelf(old(store.bodies), old(store.puts)), calls)
  {
    for i := 0 to |calls|
      invariant Shelf(store.bodies, store.puts) == AfterCalls(Shelf(old(store.bodies), old(store.puts)), calls[..i])
    {
      assert calls[..i + 1][..i] == calls[..i];
      var _ := Adopt(store, calls[i]);
    }
    assert calls[..|calls|] == calls;
  }

  lemma KeysAreDistinct(a: string, b: string)
    requires MarkerKey(a) == MarkerKey(b)
    ensures a == b
  {
    assert MarkerKey(a)[|MARKER_PREFIX|..] == a && MarkerKey(b)[|MARKER_PREFIX|..] == b;
  }

  /** How often a key was written. */
  function Times(puts: seq<(string, Record)>, key: string): nat {
    if puts == [] then 0 else Times(puts[..|puts| - 1], key) + if puts[|puts| - 1].0 == key then 1 else 0
  }

  /** One call changes at most the marker of its own feature, and that only from none. */
  lemma OneCall(s: Shelf, c: Call, featureId: string)
    ensures var t := AfterCall(s, c);
      if Writes(s.bodies, c) && FeatureId(c) == featureId then
        && MarkerOf(s.bodies, featureId) == Ok(None) && MarkerOf(t.bodies, featureId) == Ok(Some(NewRecord(c)))
        && Times(t.puts, MarkerKey(featureId)) == Times(s.puts, MarkerKey(featureId)) + 1
      else
        && MarkerOf(t.bodies, featureId) == MarkerOf(s.bodies, featureId)
        && Times(t.puts, MarkerKey(featureId)) == Times(s.puts, MarkerKey(featureId))
  {
    hide Strip, RecordAccepted, Approved;
    if Writes(s.bodies, c) {
      if MarkerKey(FeatureId(c)) == MarkerKey(featureId) {
        KeysAreDistinct(FeatureId(c), featureId);
      }
      var puts := AfterCall(s, c).puts;
      assert puts[..|puts| - 1] == s.puts;
    }
  }

  /** A marker never changes: once a feature has one, no sequence of calls alters it or writes it again. */
  lemma {:induction false} MarkerIsForGood(s: Shelf, calls: seq<Call>, featureId: string)
    requires MarkerOf(s.bodies, featureId) != Ok(None)
    ensures MarkerOf(AfterCalls(s, calls).bodies, featureId) == MarkerOf(s.bodies, featureId)
    ensures Times(AfterCalls(s, calls).puts, MarkerKey(featureId)) == Times(s.puts, MarkerKey(featureId))
  {
    if calls != [] {
      MarkerIsForGood(s, calls[..|calls| - 1], featureId);
      OneCall(AfterCalls(s, calls[..|calls| - 1]), calls[|calls| - 1], featureId);
    }
  }

  /** A call leaves a body that holds anything as it is; what it stores, it stores under the key of
      its own feature. */
  lemma NothingIsOverwritten(s: Shelf, c: Call, key: string)
    ensures key in s.bodies && s.bodies[key] != Empty ==> key in AfterCall(s, c).bodies && AfterCall(s, c).bodies[key] == s.bodies[key]
    ensures key in AfterCall(s, c).bodies && (key in s.bodies ==> AfterCall(s, c).bodies[key] != s.bodies[key]) ==>
              key == "execution-control-adoption:" + Strip(c.feature) && AfterCall(s, c).bodies[key] == Serialized(NewRecord(c))
  {
    hide Strip, RecordAccepted, Approved;
    MarkerMeans(s.bodies, FeatureId(c));
  }

  lemma {:induction false} NothingIsEverOverwritten(s: Shelf, calls: seq<Call>, key: string)
    requires key in s.bodies && s.bodies[key] != Empty
    ensures key in AfterCalls(s, calls).bodies && AfterCalls(s, calls).bodies[key] == s.bodies[key]
  {
    if calls != [] {
      var n := |calls| - 1;
      NothingIsEverOverwritten(s, calls[..n], key);
      NothingIsOverwritten(AfterCalls(s, calls[..n]), calls[n], key);
    }
  }

  /** From an empty store, a feature's marker is written at most once in any sequence of calls. */
  lemma {:induction false} WrittenAtMostOnce(calls: seq<Call>, featureId: string)
    ensures var s := AfterCalls(Shelf(map[], []), calls);
      && Times(s.puts, MarkerKey(featureId)) <= 1
      && (Times(s.puts, MarkerKey(featureId)) == 0 <==> MarkerOf(s.bodies, featureId) == Ok(None))
      && MarkerOf(s.bodies, featureId).Ok?
  {
    if calls != [] {
      WrittenAtMostOnce(calls[..|calls| - 1], featureId);
      OneCall(AfterCalls(Shelf(map[], []), calls[..|calls| - 1]), calls[|calls| - 1], featureId);
    }
  }

  /** The call that wrote a marker was for the marker's candidate, under a landing record with
      every required gate passed and nothing in the way. */
  ghost predicate WroteUnderGo(c: Call, featureId: string, r: Record) {
    && FeatureId(c) == featureId && r == NewRecord(c) && c.landing.passed && Landing.GoReady(c.landing)
    && Strip(r.candidateCommit) == Strip(c.landing.candidateCommit)
    && Strip(r.deployArtifactId) == Strip(c.landing.deployArtifactId)
  }

  /** Every marker in the store was written by one of the calls, under a go. */
  lemma {:induction false} MarkersStandUnderGo(calls: seq<Call>, featureId: string) returns (c: Call)
    requires forall d :: d in calls ==> Landing.Constructible(d.landing)
    requires MarkerOf(AfterCalls(Shelf(map[], []), calls).bodies, featureId) != Ok(None)
    ensures c in calls && MarkerOf(AfterCalls(Shelf(map[], []), calls).bodies, featureId) == Ok(Some(NewRecord(c)))
    ensures WroteUnderGo(c, featureId, NewRecord(c))
  {
    assert calls != [];
    var before := AfterCalls(Shelf(map[], []), calls[..|calls| - 1]);
    var last := calls[|calls| - 1];
    OneCall(before, last, featureId);
    if MarkerOf(before.bodies, featureId) == Ok(None) {
      c := last;
    } else {
      c := MarkersStandUnderGo(calls[..|calls| - 1], featureId);
    }
  }
}

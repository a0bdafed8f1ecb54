/** The release gate: readiness evidence, the test matrix, and the landing record that may be
    marked passed only when every required signal is there. */
module Landing {
  import opened Text
  import opened Wrappers

  datatype GateStatus = Passed | Failed | MissingStatus | Stale

  const REQUIRED_GATES: seq<string> :=
    ["atomic_enablement", "schema_and_journal", "workspace_and_contracts", "sandbox_and_dispatcher", "verification_and_routing",
     "merge_and_checkpoint", "post_dag_business_gates", "consumers", "resource_safety", "operations"]

  predicate Blank(s: string) {
    Strip(s) == ""
  }

  predicate PresentText(s: Option<string>) {
    s.Some? && !Blank(s.value)
  }

  // ---------------------------------------------------------------- the landing record

  datatype Record = Record(
    candidateId: string,
    candidateCommit: string,
    deployArtifactId: string,
    passed: bool,
    gateResults: map<string, GateStatus>,
    ciMatrixRunId: Option<string>,
    metricsSnapshotId: Option<int>,
    decisionIsGo: bool,
    decidedBy: Option<string>,
    decidedAt: Option<int>,
    rollbackRunbookId: Option<string>,
    forbiddenControls: seq<string>,
    blockers: seq<string>)

  datatype Signal = CiMatrixRun | MetricsSnapshot | DecidedBy | DecidedAt | RollbackRunbook

  datatype Blocker =
    | RequiredGate(name: string, status: Option<GateStatus>)
    | MissingSignal(signal: Signal)
    | ForbiddenControl(name: string)
    | CallerBlocker(text: string)

  predicate HasSignal(r: Record, signal: Signal) {
    match signal
    case CiMatrixRun => r.ciMatrixRunId.Some?
    case MetricsSnapshot => r.metricsSnapshotId.Some?
    case DecidedBy => PresentText(r.decidedBy)
    case DecidedAt => r.decidedAt.Some?
    case RollbackRunbook => PresentText(r.rollbackRunbookId)
  }

  function StatusOf(r: Record, gate: string): Option<GateStatus> {
    if gate in r.gateResults then Some(r.gateResults[gate]) else None
  }

  /** What stands in the way of a go. */
  predicate Blocks(r: Record, b: Blocker) {
    match b
    case RequiredGate(name, status) => name in REQUIRED_GATES && status == StatusOf(r, name) && status != Some(Passed)
    case MissingSignal(signal) => !HasSignal(r, signal)
    case ForbiddenControl(name) => name in r.forbiddenControls
    case CallerBlocker(text) => text in r.blockers
  }

  /** Everything a go requires. */
  predicate GoReady(r: Record) {
    && (forall name :: name in REQUIRED_GATES ==> StatusOf(r, name) == Some(Passed))
    && r.ciMatrixRunId.Some? && r.metricsSnapshotId.Some? && r.decidedAt.Some?
    && PresentText(r.decidedBy) && PresentText(r.rollbackRunbookId)
    && r.forbiddenControls == [] && r.blockers == []
  }

  lemma NothingBlocksIffReady(r: Record)
    ensures (forall b :: !Blocks(r, b)) <==> GoReady(r)
  {
    assert r.forbiddenControls != [] ==> Blocks(r, ForbiddenControl(r.forbiddenControls[0]));
    assert r.blockers != [] ==> Blocks(r, CallerBlocker(r.blockers[0]));
    if forall b :: !Blocks(r, b) {
      forall name | name in REQUIRED_GATES ensures StatusOf(r, name) == Some(Passed) {
        assert !Blocks(r, RequiredGate(name, StatusOf(r, name)));
      }
      assert !Blocks(r, MissingSignal(CiMatrixRun)) && !Blocks(r, MissingSignal(MetricsSnapshot));
      assert !Blocks(r, MissingSignal(DecidedBy)) && !Blocks(r, MissingSignal(DecidedAt)) && !Blocks(r, MissingSignal(RollbackRunbook));
    }
  }

  method GateBlockers(r: Record) returns (blockers: seq<Blocker>)
    ensures forall b :: b in blockers <==> b.RequiredGate? && Blocks(r, b)
  {
    blockers := [];
    for i := 0 to |REQUIRED_GATES|
      invariant forall b :: b in blockers <==> b.RequiredGate? && Blocks(r, b) && b.name in REQUIRED_GATES[..i]
    {
      var status := StatusOf(r, REQUIRED_GATES[i]);
      assert REQUIRED_GATES[..i + 1] == REQUIRED_GATES[..i] + [REQUIRED_GATES[i]];
      if status != Some(Passed) {
        blockers := blockers + [RequiredGate(REQUIRED_GATES[i], status)];
      }
    }
    assert REQUIRED_GATES[..|REQUIRED_GATES|] == REQUIRED_GATES;
  }

  ghost predicate Listed(blockers: seq<Blocker>, r: Record, signals: set<Signal>) {
    forall b :: b in blockers <==> b.MissingSignal? && b.signal in signals && !HasSignal(r, b.signal)
  }

  method NoteSignal(blockers: seq<Blocker>, r: Record, signal: Signal, ghost before: set<Signal>) returns (after: seq<Blocker>)
    requires Listed(blockers, r, before)
    ensures Listed(after, r, before + {signal})
  {
    after := if HasSignal(r, signal) then blockers else blockers + [MissingSignal(signal)];
  }

  method SignalBlockers(r: Record) returns (blockers: seq<Blocker>)
    ensures forall b :: b in blockers <==> b.MissingSignal? && Blocks(r, b)
  {
    blockers := NoteSignal([], r, CiMatrixRun, {});
    blockers := NoteSignal(blockers, r, MetricsSnapshot, {CiMatrixRun});
    blockers := NoteSignal(blockers, r, DecidedBy, {CiMatrixRun} + {MetricsSnapshot});
    blockers := NoteSignal(blockers, r, DecidedAt, {CiMatrixRun} + {MetricsSnapshot} + {DecidedBy});
    blockers := NoteSignal(blockers, r, RollbackRunbook, {CiMatrixRun} + {MetricsSnapshot} + {DecidedBy} + {DecidedAt});
  }

  /** `evaluate_go_requires`: lists exactly what stands in the way, and passes exactly when
      everything a go requires is there. */
  method EvaluateGoRequires(r: Record) returns (passed: bool, blockers: seq<Blocker>)
    ensures forall b :: b in blockers <==> Blocks(r, b)
    ensures passed <==> GoReady(r)
  {
    var gates := GateBlockers(r);
    var signals := SignalBlockers(r);
    blockers := gates + signals;
    for i := 0 to |r.forbiddenControls|
      invariant forall b :: b in blockers <==>
                  && Blocks(r, b) && !b.CallerBlocker?
                  && (b.ForbiddenControl? ==> b.name in r.forbiddenControls[..i])
    {
      assert r.forbiddenControls[..i + 1] == r.forbiddenControls[..i] + [r.forbiddenControls[i]];
      blockers := blockers + [ForbiddenControl(r.forbiddenControls[i])];
    }
    assert r.forbiddenControls[..|r.forbiddenControls|] == r.forbiddenControls;
    for i := 0 to |r.blockers|
      invariant forall b :: b in blockers <==> Blocks(r, b) && (b.CallerBlocker? ==> b.text in r.blockers[..i])
    {
      assert r.blockers[..i + 1] == r.blockers[..i] + [r.blockers[i]];
      blockers := blockers + [CallerBlocker(r.blockers[i])];
    }
    assert r.blockers[..|r.blockers|] == r.blockers;
    passed := blockers == [];
    NothingBlocksIffReady(r);
    assert blockers != [] ==> Blocks(r, blockers[0]);
  }

  /** A landing record the constructor accepts. */
  predicate Constructible(r: Record) {
    && !Blank(r.candidateId) && !Blank(r.candidateCommit) && !Blank(r.deployArtifactId)
    && (r.passed ==> r.decisionIsGo)
    && (r.decisionIsGo ==> GoReady(r))
  }

  /** The constructor's validation. */
  method Validate(r: Record) returns (accepted: bool)
    ensures accepted <==> Constructible(r)
  {
    if Blank(r.candidateId) || Blank(r.candidateCommit) || Blank(r.deployArtifactId) {
      return false;
    }
    var ready, _ := EvaluateGoRequires(r);
    if r.passed && !ready {
      return false;
    }
    if r.decisionIsGo && !ready {
      return false;
    }
    accepted := !(r.passed && !r.decisionIsGo);
  }

  // ---------------------------------------------------------------- readiness evidence

  datatype GateEvidence = GateEvidence(gate: string, status: GateStatus, candidateCommit: string, noGoReasons: seq<string>)

  predicate EvidenceAccepted(e: GateEvidence) {
    !Blank(e.candidateCommit) && (e.status == Passed <==> e.noGoReasons == [])
  }

  datatype Surface = Surface(candidateCommit: string, deployArtifactId: string, gates: seq<GateEvidence>)

  /** A surface the constructor accepts: its evidence is all about its own candidate. */
  predicate SurfaceAccepted(s: Surface) {
    && !Blank(s.candidateCommit) && !Blank(s.deployArtifactId)
    && forall e :: e in s.gates ==> EvidenceAccepted(e) && e.candidateCommit == s.candidateCommit
  }

  /** The evidence for the gate stands here, and none later. */
  ghost predicate LatestAt(gates: seq<GateEvidence>, name: string, i: int) {
    0 <= i < |gates| && gates[i].gate == name && forall j :: i < j < |gates| ==> gates[j].gate != name
  }

  /** The last evidence for a gate. */
  function LastEvidence(gates: seq<GateEvidence>, name: string): (r: Option<GateEvidence>)
    ensures r.None? <==> forall i :: 0 <= i < |gates| ==> gates[i].gate != name
    ensures forall i :: LatestAt(gates, name, i) ==> r == Some(gates[i])
    ensures r.Some? ==> exists i :: LatestAt(gates, name, i) && gates[i] == r.value
  {
    if gates == [] then None
    else if gates[|gates| - 1].gate == name then Some(gates[|gates| - 1])
    else
      var n := |gates| - 1;
      assert forall i :: LatestAt(gates, name, i) <==> LatestAt(gates[..n], name, i);
      LastEvidence(gates[..n], name)
  }

  /** `gate_results_map`: every required gate with the status of its last evidence, missing if
      there is none. */
  method GateResultsMap(s: Surface) returns (results: map<string, GateStatus>)
    ensures forall name :: name in results <==> name in REQUIRED_GATES
    ensures forall name, i :: name in REQUIRED_GATES && LatestAt(s.gates, name, i) ==> results[name] == s.gates[i].status
    ensures forall name :: name in REQUIRED_GATES && (forall i :: 0 <= i < |s.gates| ==> s.gates[i].gate != name) ==>
              results[name] == MissingStatus
  {
    var recorded: map<string, GateStatus> := map[];
    for i := 0 to |s.gates|
      invariant forall name :: name in recorded <==> LastEvidence(s.gates[..i], name).Some?
      invariant forall name :: name in recorded ==> recorded[name] == LastEvidence(s.gates[..i], name).value.status
    {
      assert s.gates[..i + 1][..i] == s.gates[..i];
      recorded := recorded[s.gates[i].gate := s.gates[i].status];
    }
    assert s.gates[..|s.gates|] == s.gates;
    results := map name | name in REQUIRED_GATES :: if name in recorded then recorded[name] else MissingStatus;
  }

  /** A landing record filled from an evidence surface can be marked passed exactly when the last
      evidence of every required gate passed, every other signal is there, nothing forbidden and
      no blocker is listed, and the decision is go. */
  method MarkPassed(s: Surface, draft: Record) returns (r: Record, accepted: bool)
    requires SurfaceAccepted(s) && !Blank(draft.candidateId)
    ensures accepted <==>
              && (forall name :: name in REQUIRED_GATES ==> exists i :: LatestAt(s.gates, name, i) && s.gates[i].status == Passed)
              && (forall signal :: HasSignal(draft, signal))
              && draft.forbiddenControls == [] && draft.blockers == [] && draft.decisionIsGo
    ensures accepted ==> Constructible(r) && r.passed && r.candidateCommit == s.candidateCommit
  {
    var results := GateResultsMap(s);
    r := draft.(candidateCommit := s.candidateCommit, deployArtifactId := s.deployArtifactId, passed := true, gateResults := results);
    accepted := Validate(r);
    SignalsOf(draft);
    forall name | name in REQUIRED_GATES
      ensures StatusOf(r, name) == Some(Passed) <==> exists i :: LatestAt(s.gates, name, i) && s.gates[i].status == Passed
    {
      LatestStatus(s.gates, name, results[name]);
    }
  }

  lemma LatestStatus(gates: seq<GateEvidence>, name: string, status: GateStatus)
    requires forall i :: LatestAt(gates, name, i) ==> status == gates[i].status
    requires (forall i :: 0 <= i < |gates| ==> gates[i].gate != name) ==> status == MissingStatus
    ensures status == Passed <==> exists i :: LatestAt(gates, name, i) && gates[i].status == Passed
  {
    var last := LastEvidence(gates, name);
    if last.Some? {
      var i :| LatestAt(gates, name, i) && gates[i] == last.value;
    }
  }

  lemma SignalsOf(r: Record)
    ensures (forall signal :: HasSignal(r, signal)) <==>
              && r.ciMatrixRunId.Some? && r.metricsSnapshotId.Some? && r.decidedAt.Some?
              && PresentText(r.decidedBy) && PresentText(r.rollbackRunbookId)
  {
    if forall signal :: HasSignal(r, signal) {
      assert HasSignal(r, CiMatrixRun) && HasSignal(r, MetricsSnapshot) && HasSignal(r, DecidedBy);
      assert HasSignal(r, DecidedAt) && HasSignal(r, RollbackRunbook);
    }
  }

  // ---------------------------------------------------------------- the test matrix

  datatype Verdict = GroupPassed | GroupFailed | GroupMissing | GroupSkipped
  datatype Freshness = Fresh | StaleRow | Unknown

  datatype Row = Row(group: string, verdict: Verdict, freshness: Freshness)

  const REQUIRED_GROUPS: seq<string> :=
    ["static_import_and_syntax", "expanded_verification_and_regroup", "quiesce_and_resume_safety", "workspace_authority",
     "contracts_and_sandbox", "dispatcher_gates_and_router", "merge_queue_and_checkpoint_proof",
     "post_dag_and_post_test_compatibility", "supervisor_and_dashboard_read_models", "planning_compatibility", "full_regression"]

  /** The group's row stands here, and none later. */
  ghost predicate LatestRowAt(rows: seq<Row>, group: string, i: int) {
    0 <= i < |rows| && rows[i].group == group && forall j :: i < j < |rows| ==> rows[j].group != group
  }

  function LastRow(rows: seq<Row>, group: string): Option<Row> {
    if rows == [] then None
    else if rows[|rows| - 1].group == group then Some(rows[|rows| - 1])
    else LastRow(rows[..|rows| - 1], group)
  }

  lemma {:induction false} LastRowIs(rows: seq<Row>, group: string)
    ensures LastRow(rows, group).None? <==> forall i :: 0 <= i < |rows| ==> rows[i].group != group
    ensures forall i :: LatestRowAt(rows, group, i) ==> LastRow(rows, group) == Some(rows[i])
    ensures LastRow(rows, group).Some? ==> exists i :: LatestRowAt(rows, group, i) && rows[i] == LastRow(rows, group).value
  {
    if rows != [] && rows[|rows| - 1].group == group {
      assert LatestRowAt(rows, group, |rows| - 1);
    } else if rows != [] {
      var n := |rows| - 1;
      LastRowIs(rows[..n], group);
      assert forall i :: LatestRowAt(rows, group, i) <==> LatestRowAt(rows[..n], group, i);
    }
  }

  /** The last row of the group passed and is fresh. */
  ghost predicate GroupOk(rows: seq<Row>, group: string) {
    exists i :: LatestRowAt(rows, group, i) && rows[i].verdict == GroupPassed && rows[i].freshness == Fresh
  }

  lemma GroupOkIff(rows: seq<Row>, group: string)
    ensures GroupOk(rows, group) <==>
              var row := LastRow(rows, group); row.Some? && row.value.verdict == GroupPassed && row.value.freshness == Fresh
  {
    LastRowIs(rows, group);
  }

  lemma GroupsOk(rows: seq<Row>, byGroup: map<string, Row>)
    requires forall g :: g in byGroup <==> LastRow(rows, g).Some?
    requires forall g :: g in byGroup ==> Some(byGroup[g]) == LastRow(rows, g)
    ensures forall g :: GroupOk(rows, g) <==> g in byGroup && byGroup[g].verdict == GroupPassed && byGroup[g].freshness == Fresh
  {
    forall g ensures GroupOk(rows, g) <==> g in byGroup && byGroup[g].verdict == GroupPassed && byGroup[g].freshness == Fresh {
      GroupOkIff(rows, g);
    }
  }

  method RowsByGroup(rows: seq<Row>) returns (byGroup: map<string, Row>)
    ensures forall g :: g in byGroup <==> LastRow(rows, g).Some?
    ensures forall g :: g in byGroup ==> Some(byGroup[g]) == LastRow(rows, g)
  {
    byGroup := map[];
    for i := 0 to |rows|
      invariant forall g :: g in byGroup <==> LastRow(rows[..i], g).Some?
      invariant forall g :: g in byGroup ==> Some(byGroup[g]) == LastRow(rows[..i], g)
    {
      assert rows[..i + 1][..i] == rows[..i];
      byGroup := byGroup[rows[i].group := rows[i]];
    }
    assert rows[..|rows|] == rows;
  }

  /** `all_required_groups_passed`. */
  method AllRequiredGroupsPassed(rows: seq<Row>) returns (ok: bool)
    ensures ok <==> forall g :: g in REQUIRED_GROUPS ==> GroupOk(rows, g)
  {
    var byGroup := RowsByGroup(rows);
    GroupsOk(rows, byGroup);
    hide GroupOk, LastRow, REQUIRED_GROUPS;
    var groups := REQUIRED_GROUPS;
    for i := 0 to |groups|
      invariant forall k :: 0 <= k < i ==> GroupOk(rows, groups[k])
    {
      var g := groups[i];
      if g !in byGroup || byGroup[g].verdict != GroupPassed || byGroup[g].freshness != Fresh {
        assert g in groups && !GroupOk(rows, g);
        return false;
      }
    }
    ok := true;
  }

  datatype Offender = NoRow(group: string) | BadVerdict(group: string, verdict: Verdict) | NotFresh(group: string, freshness: Freshness)

  /** What the last row of a group is reported for. */
  function Offence(rows: seq<Row>, group: string): Option<Offender> {
    match LastRow(rows, group)
    case None => Some(NoRow(group))
    case Some(row) =>
      if row.verdict != GroupPassed then Some(BadVerdict(group, row.verdict))
      else if row.freshness != Fresh then Some(NotFresh(group, row.freshness))
      else None
  }

  /** How an offence is written. */
  function Report(o: Offender): string {
    match o
    case NoRow(group) => group + ":missing"
    case BadVerdict(group, verdict) => group + ":verdict=" + VerdictText(verdict)
    case NotFresh(group, freshness) => group + ":freshness=" + FreshnessText(freshness)
  }

  function VerdictText(verdict: Verdict): string {
    match verdict
    case GroupPassed => "passed"
    case GroupFailed => "failed"
    case GroupMissing => "missing"
    case GroupSkipped => "skipped"
  }

  function FreshnessText(freshness: Freshness): string {
    match freshness
    case Fresh => "fresh"
    case StaleRow => "stale"
    case Unknown => "unknown"
  }

  /** The reports on the groups, in their order. */
  function Reports(rows: seq<Row>, groups: seq<string>): seq<string> {
    if groups == [] then []
    else
      var n := |groups| - 1;
      Reports(rows, groups[..n]) + (match Offence(rows, groups[n]) case None => [] case Some(o) => [Report(o)])
  }

  ghost predicate Reported(rows: seq<Row>, groups: seq<string>, report: string) {
    exists g :: g in groups && Offence(rows, g).Some? && Report(Offence(rows, g).value) == report
  }

  /** A report is among them exactly if it is that of some offending group. */
  lemma {:induction false} ReportsExact(rows: seq<Row>, groups: seq<string>, report: string)
    ensures report in Reports(rows, groups) <==> Reported(rows, groups, report)
  {
    hide Report, Offence;
    if groups != [] {
      var n := |groups| - 1;
      ReportsExact(rows, groups[..n], report);
      assert groups == groups[..n] + [groups[n]];
    }
  }

  /** `missing_or_failing_groups`: each offending group once, with its first offence, sorted. */
  method MissingOrFailingGroups(rows: seq<Row>) returns (offenders: seq<string>)
    ensures Ascending(offenders) && multiset(offenders) == multiset(Reports(rows, REQUIRED_GROUPS))
    ensures forall x :: x in offenders <==> Reported(rows, REQUIRED_GROUPS, x)
  {
    hide Report, REQUIRED_GROUPS, LastRow;
    var byGroup := RowsByGroup(rows);
    var groups := REQUIRED_GROUPS;
    var found: seq<string> := [];
    for i := 0 to |groups|
      invariant found == Reports(rows, groups[..i])
    {
      var g := groups[i];
      assert groups[..i + 1][..i] == groups[..i];
      if g !in byGroup {
        found := found + [Report(NoRow(g))];
      } else if byGroup[g].verdict != GroupPassed {
        found := found + [Report(BadVerdict(g, byGroup[g].verdict))];
      } else if byGroup[g].freshness != Fresh {
        found := found + [Report(NotFresh(g, byGroup[g].freshness))];
      }
    }
    assert groups[..|groups|] == groups;
    offenders := SortTexts(found);
    SortedReports(rows, groups, found, offenders);
  }

  lemma SortedReports(rows: seq<Row>, groups: seq<string>, found: seq<string>, sorted: seq<string>)
    requires found == Reports(rows, groups) && multiset(sorted) == multiset(found)
    ensures forall x :: x in sorted <==> Reported(rows, groups, x)
  {
    forall x ensures x in sorted <==> Reported(rows, groups, x) {
      assert x in multiset(sorted) <==> x in multiset(found);
      ReportsExact(rows, groups, x);
    }
  }

  /** The two methods of the matrix agree: it passes exactly when nobody is reported. */
  method MatrixAgrees(rows: seq<Row>) returns (ok: bool, offenders: seq<string>)
    ensures ok <==> offenders == []
    ensures ok <==> forall g :: g in REQUIRED_GROUPS ==> GroupOk(rows, g)
  {
    ok := AllRequiredGroupsPassed(rows);
    offenders := MissingOrFailingGroups(rows);
    OffendersEmptyIff(rows, offenders);
  }

  lemma OffendersEmptyIff(rows: seq<Row>, offenders: seq<string>)
    requires forall x :: x in offenders <==> Reported(rows, REQUIRED_GROUPS, x)
    ensures offenders == [] <==> forall g :: g in REQUIRED_GROUPS ==> GroupOk(rows, g)
  {
    forall g ensures GroupOk(rows, g) <==> Offence(rows, g).None? {
      GroupOkIff(rows, g);
    }
    hide REQUIRED_GROUPS, Report, GroupOk, Offence;
    forall g | g in REQUIRED_GROUPS ensures GroupOk(rows, g) || Report(Offence(rows, g).value) in offenders {
      if !GroupOk(rows, g) {
        assert Reported(rows, REQUIRED_GROUPS, Report(Offence(rows, g).value));
      }
    }
    if offenders != [] {
      assert Reported(rows, REQUIRED_GROUPS, offenders[0]);
    }
  }
}

/** The release metrics: rates collected from counters, and the verdict over ten conditions. */
module Metrics {

  datatype Typed = Typed(
    completed: nat,
    retries: nat,
    commitFailures: nat,
    staleProjections: nat,
    aliasOrAclFailures: nat,
    checkpointRegressions: nat,
    escalations: nat,
    dragSeconds: map<string, real>,
    wallClockHours: real,
    weightSum: real,
    rssBytes: nat,
    postgresBytes: nat)

  datatype Baseline = Baseline(
    completed: int,
    retries: int,
    commitFailures: int,
    staleProjections: int,
    dragHours: real,
    wallClockHours: real,
    weightSum: real,
    rssBytes: int,
    postgresBytes: int)

  datatype Metrics = Metrics(
    retriesPerTask: real,
    commitFailuresPerTask: real,
    staleProjections: int,
    aliasOrAclFailures: int,
    checkpointRegressions: int,
    dragHours: real,
    escalations: int,
    rssRegressionPct: real,
    postgresGrowthPct: real,
    adjustedTasksPerHour: real,
    baseRetriesPerTask: real,
    baseCommitFailuresPerTask: real,
    baseStaleProjections: int,
    baseDragHours: real,
    baseAdjustedTasksPerHour: real)

  // ---------------------------------------------------------------- collecting

  function SafeRatio(numerator: real, denominator: real): real {
    if denominator == 0.0 then 0.0 else numerator / denominator
  }

  function SafeRegressionPct(current: real, baseline: real): real {
    if baseline == 0.0 then 0.0 else 100.0 * (current - baseline) / baseline
  }

  /** Tasks per hour, weighted by complexity. */
  function Throughput(completed: int, weightSum: real, hours: real): real {
    SafeRatio(completed as real, weightSum * hours)
  }

  const DRAG_CLASSES: seq<string> :=
    ["worktree_alias", "acl_workability", "stale_projection", "commit_hygiene", "runtime_provider", "merge_conflict",
     "checkpoint_contradiction"]

  function Held(m: map<string, real>, k: string): real {
    if k in m then m[k] else 0.0
  }

  function SumOver(m: map<string, real>, classes: seq<string>): real {
    if classes == [] then 0.0 else SumOver(m, classes[..|classes| - 1]) + Held(m, classes[|classes| - 1])
  }

  function DragHours(m: map<string, real>): real {
    SumOver(m, DRAG_CLASSES) / 3600.0
  }

  /** `collect`. */
  function Collect(t: Typed, b: Baseline): Metrics {
    Metrics(
      SafeRatio(t.retries as real, t.completed as real),
      SafeRatio(t.commitFailures as real, t.completed as real),
      t.staleProjections, t.aliasOrAclFailures, t.checkpointRegressions,
      DragHours(t.dragSeconds),
      t.escalations,
      SafeRegressionPct(t.rssBytes as real, b.rssBytes as real),
      SafeRegressionPct(t.postgresBytes as real, b.postgresBytes as real),
      Throughput(t.completed, t.weightSum, t.wallClockHours),
      SafeRatio(b.retries as real, b.completed as real),
      SafeRatio(b.commitFailures as real, b.completed as real),
      b.staleProjections, b.dragHours,
      Throughput(b.completed, b.weightSum, b.wallClockHours))
  }

  // ---------------------------------------------------------------- the verdict

  datatype Condition =
    | RetryCycles | WorkflowDrag | CommitFailures | StaleProjections | AdjustedThroughput
    | CheckpointSafety | Escalations | AliasOrAcl | Rss | PostgresGrowth

  function RetryThreshold(m: Metrics): real {
    if m.baseRetriesPerTask < 0.3125 then 0.25 else 0.8 * m.baseRetriesPerTask
  }

  function CommitThreshold(m: Metrics): real {
    if m.baseCommitFailuresPerTask < 0.0667 then 0.05 else 0.75 * m.baseCommitFailuresPerTask
  }

  function StaleThreshold(m: Metrics): real {
    if m.baseStaleProjections < 3 then 1.0 else 0.5 * m.baseStaleProjections as real
  }

  /** Whether one condition of success holds. */
  predicate Holds(m: Metrics, c: Condition) {
    match c
    case RetryCycles => m.retriesPerTask <= RetryThreshold(m)
    case WorkflowDrag => m.dragHours <= 0.7 * m.baseDragHours
    case CommitFailures => m.commitFailuresPerTask <= CommitThreshold(m)
    case StaleProjections => m.staleProjections as real <= StaleThreshold(m)
    case AdjustedThroughput => m.adjustedTasksPerHour >= 0.95 * m.baseAdjustedTasksPerHour
    case CheckpointSafety => m.checkpointRegressions == 0
    case Escalations => m.escalations == 0
    case AliasOrAcl => m.aliasOrAclFailures == 0
    case Rss => m.rssRegressionPct < 10.0
    case PostgresGrowth => m.postgresGrowthPct < 10.0
  }

  ghost predicate Success(m: Metrics) {
    forall c :: Holds(m, c)
  }

  /** The conditions with a threshold taken from the baseline. */
  method ThresholdReasons(m: Metrics) returns (reasons: seq<Condition>)
    ensures forall c :: c in reasons <==>
              c in {RetryCycles, WorkflowDrag, CommitFailures, StaleProjections, AdjustedThroughput} && !Holds(m, c)
  {
    reasons := [];
    var retryThreshold := 0.8 * m.baseRetriesPerTask;
    if m.baseRetriesPerTask < 0.3125 {
      retryThreshold := 0.25;
    }
    if m.retriesPerTask > retryThreshold {
      reasons := reasons + [RetryCycles];
    }
    if m.dragHours > 0.7 * m.baseDragHours {
      reasons := reasons + [WorkflowDrag];
    }
    var commitThreshold := 0.75 * m.baseCommitFailuresPerTask;
    if m.baseCommitFailuresPerTask < 0.0667 {
      commitThreshold := 0.05;
    }
    if m.commitFailuresPerTask > commitThreshold {
      reasons := reasons + [CommitFailures];
    }
    var staleThreshold := 0.5 * m.baseStaleProjections as real;
    if m.baseStaleProjections < 3 {
      staleThreshold := 1.0;
    }
    if m.staleProjections as real > staleThreshold {
      reasons := reasons + [StaleProjections];
    }
    if m.adjustedTasksPerHour < 0.95 * m.baseAdjustedTasksPerHour {
      reasons := reasons + [AdjustedThroughput];
    }
  }

  /** The conditions with a fixed bound. */
  method FixedReasons(m: Metrics) returns (reasons: seq<Condition>)
    ensures forall c :: c in reasons <==>
              c in {CheckpointSafety, Escalations, AliasOrAcl, Rss, PostgresGrowth} && !Holds(m, c)
  {
    reasons := [];
    if m.checkpointRegressions != 0 {
      reasons := reasons + [CheckpointSafety];
    }
    if m.escalations != 0 {
      reasons := reasons + [Escalations];
    }
    if m.aliasOrAclFailures != 0 {
      reasons := reasons + [AliasOrAcl];
    }
    if m.rssRegressionPct >= 10.0 {
      reasons := reasons + [Rss];
    }
    if m.postgresGrowthPct >= 10.0 {
      reasons := reasons + [PostgresGrowth];
    }
  }

  /** `evaluate_metrics_success`: the reasons are exactly the conditions that fail. */
  method EvaluateMetricsSuccess(m: Metrics) returns (passed: bool, reasons: seq<Condition>)
    ensures forall c :: c in reasons <==> !Holds(m, c)
    ensures passed <==> Success(m)
  {
    var threshold := ThresholdReasons(m);
    var fixed := FixedReasons(m);
    reasons := threshold + fixed;
    passed := reasons == [];
    assert reasons != [] ==> reasons[0] in reasons;
  }

  // ---------------------------------------------------------------- the verdict on the counters

  /** Nothing that is counted or measured is negative. */
  predicate Counted(t: Typed, b: Baseline) {
    && t.weightSum >= 0.0 && t.wallClockHours >= 0.0 && b.weightSum >= 0.0 && b.wallClockHours >= 0.0
    && b.completed >= 0 && b.retries >= 0 && b.commitFailures >= 0 && b.rssBytes >= 0 && b.postgresBytes >= 0
  }

  /** Fewer than 0.0667 commit failures per task, or no task at all, is next to none. */
  predicate HardlyFails(b: Baseline) {
    b.completed == 0 || b.commitFailures as real < 0.0667 * b.completed as real
  }

  function TotalDrag(m: map<string, real>): real {
    Held(m, "worktree_alias") + Held(m, "acl_workability") + Held(m, "stale_projection") + Held(m, "commit_hygiene")
    + Held(m, "runtime_provider") + Held(m, "merge_conflict") + Held(m, "checkpoint_contradiction")
  }

  /** At least 95 tasks done, by hour and weight, for 100 of the baseline; nothing is asked for when
      the baseline has no hours or no weight, and nothing is had without hours or weight. */
  predicate KeepsUp(completed: real, d: real, baseCompleted: real, e: real) {
    e == 0.0 || (if d == 0.0 then baseCompleted <= 0.0 else 100.0 * completed * e >= 95.0 * baseCompleted * d)
  }

  /** What each condition asks of the counters, without a division. */
  predicate Meets(t: Typed, b: Baseline, c: Condition) {
    match c
    case RetryCycles =>
      || 4 * t.retries <= t.completed || t.completed == 0
      || (b.completed > 0 && 10.0 * t.retries as real * b.completed as real <= 8.0 * b.retries as real * t.completed as real)
    case WorkflowDrag => TotalDrag(t.dragSeconds) <= 2520.0 * b.dragHours
    case CommitFailures =>
      || t.completed == 0
      || (if HardlyFails(b) then 20 * t.commitFailures <= t.completed
          else 4.0 * t.commitFailures as real * b.completed as real <= 3.0 * b.commitFailures as real * t.completed as real)
    case StaleProjections => t.staleProjections <= 1 || 2 * t.staleProjections <= b.staleProjections
    case AdjustedThroughput =>
      KeepsUp(t.completed as real, t.weightSum * t.wallClockHours, b.completed as real, b.weightSum * b.wallClockHours)
    case CheckpointSafety => t.checkpointRegressions == 0
    case Escalations => t.escalations == 0
    case AliasOrAcl => t.aliasOrAclFailures == 0
    case Rss => b.rssBytes == 0 || 10 * t.rssBytes < 11 * b.rssBytes
    case PostgresGrowth => b.postgresBytes == 0 || 10 * t.postgresBytes < 11 * b.postgresBytes
  }

  lemma DivideAtMost(a: real, c: real, y: real)
    requires c > 0.0
    ensures a / c <= y <==> a <= y * c
  {
    var x := a / c;
    assert x * c == a;
    if a <= y * c {
      Cancel(x, y, c);
    }
  }

  lemma TimesMore(x: real, y: real, c: real)
    requires c > 0.0
    ensures x <= y <==> x * c <= y * c
  {
  }

  /** One ratio against a multiple of another, multiplied out. */
  lemma CrossRatios(a: real, c: real, p: real, q: real, k: real)
    requires c > 0.0 && q > 0.0
    ensures a / c <= k * (p / q) <==> a * q <= k * p * c
  {
    var y := p / q;
    assert y * q == p;
    DivideAtMost(a, c, k * y);
    TimesMore(a, k * y * c, q);
    assert k * y * c * q == k * (y * q) * c;
  }

  lemma RetriesMean(t: Typed, b: Baseline)
    requires Counted(t, b)
    ensures Holds(Collect(t, b), RetryCycles) <==> Meets(t, b, RetryCycles)
  {
    var r, n, p, q := t.retries as real, t.completed as real, b.retries as real, b.completed as real;
    var base := SafeRatio(p, q);
    if n > 0.0 {
      DivideAtMost(r, n, 0.25);
      if q > 0.0 {
        CrossRatios(r, n, p, q, 0.8);
      }
    } else if q > 0.0 {
      DivideAtMost(0.0 - p, q, 0.0);
    }
  }

  lemma CommitsMean(t: Typed, b: Baseline)
    requires Counted(t, b)
    ensures Holds(Collect(t, b), CommitFailures) <==> Meets(t, b, CommitFailures)
  {
    var r, n, p, q := t.commitFailures as real, t.completed as real, b.commitFailures as real, b.completed as real;
    if q > 0.0 {
      DivideAtMost(0.0 - p, q, 0.0 - 0.0667);
      assert (0.0 - p) / q == 0.0 - p / q;
      if n > 0.0 {
        CrossRatios(r, n, p, q, 0.75);
      }
    }
    if n > 0.0 {
      DivideAtMost(r, n, 0.05);
    }
  }

  lemma DragMeans(t: Typed, b: Baseline)
    ensures Holds(Collect(t, b), WorkflowDrag) <==> Meets(t, b, WorkflowDrag)
  {
    SumIsTotal(t.dragSeconds);
    DivideAtMost(TotalDrag(t.dragSeconds), 3600.0, 0.7 * b.dragHours);
  }

  lemma SumIsTotal(m: map<string, real>)
    ensures SumOver(m, DRAG_CLASSES) == TotalDrag(m)
  {
    var all := DRAG_CLASSES;
    SumTo(m, all, 0);
    SumTo(m, all, 1);
    SumTo(m, all, 2);
    SumTo(m, all, 3);
    SumTo(m, all, 4);
    SumTo(m, all, 5);
    SumTo(m, all, 6);
    assert all[..7] == all;
    hide Held;
    assert SumOver(m, all[..0]) == 0.0;
  }

  lemma SumTo(m: map<string, real>, classes: seq<string>, k: nat)
    requires k < |classes|
    ensures SumOver(m, classes[..k + 1]) == SumOver(m, classes[..k]) + Held(m, classes[k])
  {
    assert classes[..k + 1][..k] == classes[..k];
  }

  lemma ThroughputMeans(t: Typed, b: Baseline)
    requires Counted(t, b)
    ensures Holds(Collect(t, b), AdjustedThroughput) <==> Meets(t, b, AdjustedThroughput)
  {
    var d, e := t.weightSum * t.wallClockHours, b.weightSum * b.wallClockHours;
    assert d >= 0.0 && e >= 0.0;
    KeepsUpMeans(t.completed as real, d, b.completed as real, e);
    hide SafeRatio, KeepsUp, SafeRegressionPct, DragHours;
    assert Collect(t, b).adjustedTasksPerHour == SafeRatio(t.completed as real, d);
    assert Collect(t, b).baseAdjustedTasksPerHour == SafeRatio(b.completed as real, e);
  }

  lemma KeepsUpMeans(completed: real, d: real, baseCompleted: real, e: real)
    requires d >= 0.0 && e >= 0.0 && completed >= 0.0 && baseCompleted >= 0.0
    ensures SafeRatio(completed, d) >= 0.95 * SafeRatio(baseCompleted, e) <==> KeepsUp(completed, d, baseCompleted, e)
  {
    if d > 0.0 {
      DivideAtMost(0.0 - completed, d, 0.0);
      assert (0.0 - completed) / d == 0.0 - completed / d;
    }
    if e > 0.0 {
      DivideAtMost(baseCompleted, e, 0.0);
      if d > 0.0 {
        CrossRatios(baseCompleted, e, completed, d, 1.0 / 0.95);
      }
    }
  }

  lemma GrowthMeans(current: real, baseline: real)
    requires baseline >= 0.0
    ensures SafeRegressionPct(current, baseline) < 10.0 <==> baseline == 0.0 || 10.0 * current < 11.0 * baseline
  {
    if baseline > 0.0 {
      var grown := 100.0 * (current - baseline);
      DivideAtMost(0.0 - grown, baseline, 0.0 - 10.0);
      assert (0.0 - grown) / baseline == 0.0 - grown / baseline;
    }
  }

  /** The verdict on the counters: the metrics pass exactly when every condition is met by the
      counters themselves, multiplied out. */
  lemma VerdictMeans(t: Typed, b: Baseline)
    requires Counted(t, b)
    ensures forall c :: Holds(Collect(t, b), c) <==> Meets(t, b, c)
    ensures Success(Collect(t, b)) <==> forall c :: Meets(t, b, c)
  {
    forall c ensures Holds(Collect(t, b), c) <==> Meets(t, b, c) {
      match c
      case RetryCycles => RetriesMean(t, b);
      case WorkflowDrag => DragMeans(t, b);
      case CommitFailures => CommitsMean(t, b);
      case AdjustedThroughput => ThroughputMeans(t, b);
      case Rss => GrowthMeans(t.rssBytes as real, b.rssBytes as real);
      case PostgresGrowth => GrowthMeans(t.postgresBytes as real, b.postgresBytes as real);
      case _ =>
    }
  }

  // ---------------------------------------------------------------- better counters, better verdict

  /** No counter is worse: at least as many tasks done, and no failure, drag, hour, weight or
      memory figure higher. */
  ghost predicate NoWorse(t: Typed, u: Typed) {
    && t.completed <= u.completed
    && u.retries <= t.retries && u.commitFailures <= t.commitFailures && u.staleProjections <= t.staleProjections
    && u.aliasOrAclFailures <= t.aliasOrAclFailures && u.checkpointRegressions <= t.checkpointRegressions
    && u.escalations <= t.escalations
    && (forall k :: k in DRAG_CLASSES ==> Held(u.dragSeconds, k) <= Held(t.dragSeconds, k))
    && u.wallClockHours <= t.wallClockHours && u.weightSum <= t.weightSum
    && u.rssBytes <= t.rssBytes && u.postgresBytes <= t.postgresBytes
  }

  lemma RatioFalls(a: real, c: real, a': real, c': real)
    requires 0.0 <= a' <= a && 0.0 < c <= c'
    ensures a' / c' <= a / c
  {
    var x, y := a / c, a' / c';
    assert x * c == a && y * c' == a' && y >= 0.0;
    ScaleKeeps(c, c', y);
    Cancel(y, x, c);
  }

  lemma ScaleKeeps(a: real, b: real, y: real)
    requires a <= b && y >= 0.0
    ensures y * a <= y * b
  {
  }

  lemma Cancel(y: real, x: real, c: real)
    requires c > 0.0 && y * c <= x * c
    ensures y <= x
  {
  }

  lemma RatioRises(a: real, c: real, a': real, c': real)
    requires 0.0 <= a <= a' && 0.0 < c' <= c
    ensures a' / c' >= a / c
  {
    RatioFalls(a', c', a, c);
  }

  lemma SafeRatioRises(a: real, c: real, a': real, c': real)
    requires 0.0 <= a <= a' && 0.0 < c' <= c
    ensures SafeRatio(a', c') >= SafeRatio(a, c)
  {
    RatioRises(a, c, a', c');
  }

  lemma ProductFalls(w: real, h: real, w': real, h': real)
    requires 0.0 < w' <= w && 0.0 < h' <= h
    ensures 0.0 < w' * h' <= w * h
  {
    assert w' * h' <= w * h' <= w * h;
  }

  lemma PctFalls(current: real, current': real, baseline: real)
    requires current' <= current && baseline >= 0.0
    ensures SafeRegressionPct(current', baseline) <= SafeRegressionPct(current, baseline)
  {
    if baseline > 0.0 {
      var x, y := 100.0 * (current' - baseline), 100.0 * (current - baseline);
      assert x <= y;
      DivideKeeps(x, y, baseline);
    }
  }

  lemma DivideKeeps(x: real, y: real, d: real)
    requires x <= y && d > 0.0
    ensures x / d <= y / d
  {
  }

  lemma {:induction false} SumFalls(m: map<string, real>, m': map<string, real>, classes: seq<string>)
    requires forall k :: k in classes ==> Held(m', k) <= Held(m, k)
    ensures SumOver(m', classes) <= SumOver(m, classes)
  {
    if classes != [] {
      SumFalls(m, m', classes[..|classes| - 1]);
    }
  }

  /** The denominators of the throughput are positive. */
  predicate Measured(t: Typed) {
    t.weightSum > 0.0 && t.wallClockHours > 0.0
  }

  /** Conditions that a better run keeps whatever its denominators are. */
  lemma PlainConditionsKept(t: Typed, u: Typed, b: Baseline, c: Condition)
    requires NoWorse(t, u) && b.rssBytes >= 0 && b.postgresBytes >= 0
    requires c !in {RetryCycles, CommitFailures, AdjustedThroughput}
    requires Holds(Collect(t, b), c)
    ensures Holds(Collect(u, b), c)
  {
    match c
    case WorkflowDrag =>
      SumFalls(t.dragSeconds, u.dragSeconds, DRAG_CLASSES);
      DivideKeeps(SumOver(u.dragSeconds, DRAG_CLASSES), SumOver(t.dragSeconds, DRAG_CLASSES), 3600.0);
    case Rss => PctFalls(t.rssBytes as real, u.rssBytes as real, b.rssBytes as real);
    case PostgresGrowth => PctFalls(t.postgresBytes as real, u.postgresBytes as real, b.postgresBytes as real);
    case _ =>
  }

  lemma RatiosKept(t: Typed, u: Typed, b: Baseline)
    requires NoWorse(t, u) && t.completed > 0
    requires Holds(Collect(t, b), RetryCycles) && Holds(Collect(t, b), CommitFailures)
    ensures Holds(Collect(u, b), RetryCycles) && Holds(Collect(u, b), CommitFailures)
  {
    RatioFalls(t.retries as real, t.completed as real, u.retries as real, u.completed as real);
    RatioFalls(t.commitFailures as real, t.completed as real, u.commitFailures as real, u.completed as real);
  }

  lemma ThroughputRises(c: nat, w: real, h: real, c': nat, w': real, h': real)
    requires c <= c' && 0.0 < w' <= w && 0.0 < h' <= h
    ensures Throughput(c, w, h) <= Throughput(c', w', h')
  {
    ProductFalls(w, h, w', h');
    SafeRatioRises(c as real, w * h, c' as real, w' * h');
  }

  lemma HigherThroughputKept(m: Metrics, n: Metrics)
    requires m.adjustedTasksPerHour <= n.adjustedTasksPerHour && m.baseAdjustedTasksPerHour == n.baseAdjustedTasksPerHour
    requires Holds(m, AdjustedThroughput)
    ensures Holds(n, AdjustedThroughput)
  {
  }

  lemma ThroughputKept(t: Typed, u: Typed, b: Baseline)
    requires NoWorse(t, u) && Measured(u) && Holds(Collect(t, b), AdjustedThroughput)
    ensures Holds(Collect(u, b), AdjustedThroughput)
  {
    ThroughputRises(t.completed, t.weightSum, t.wallClockHours, u.completed, u.weightSum, u.wallClockHours);
    HigherThroughputKept(Collect(t, b), Collect(u, b));
  }

  /** Better counters never turn a passing verdict into a failing one, as long as some task was
      done before and the hours and weights stay positive. */
  lemma BetterKeepsPassing(t: Typed, u: Typed, b: Baseline)
    requires NoWorse(t, u) && b.rssBytes >= 0 && b.postgresBytes >= 0
    requires t.completed > 0 && Measured(u)
    requires Success(Collect(t, b))
    ensures Success(Collect(u, b))
  {
    forall c ensures Holds(Collect(u, b), c) {
      assert Holds(Collect(t, b), RetryCycles) && Holds(Collect(t, b), CommitFailures) && Holds(Collect(t, b), AdjustedThroughput);
      assert Holds(Collect(t, b), c);
      RatiosKept(t, u, b);
      ThroughputKept(t, u, b);
      if c !in {RetryCycles, CommitFailures, AdjustedThroughput} {
        PlainConditionsKept(t, u, b, c);
      }
    }
  }

  /** The two zero denominators are exactly what can spoil it: a better run passes if and only if
      its throughput is measured or none is asked for, and, when no task was done before, its own
      ratios are within bounds. */
  lemma BetterPassesIff(t: Typed, u: Typed, b: Baseline)
    requires NoWorse(t, u) && b.rssBytes >= 0 && b.postgresBytes >= 0
    requires u.weightSum >= 0.0 && u.wallClockHours >= 0.0
    requires Success(Collect(t, b))
    ensures Success(Collect(u, b)) <==>
              && (Measured(u) || Collect(u, b).baseAdjustedTasksPerHour <= 0.0)
              && (t.completed > 0 || (Holds(Collect(u, b), RetryCycles) && Holds(Collect(u, b), CommitFailures)))
  {
    assert Holds(Collect(t, b), RetryCycles) && Holds(Collect(t, b), CommitFailures) && Holds(Collect(t, b), AdjustedThroughput);
    if t.completed > 0 {
      RatiosKept(t, u, b);
    }
    if Measured(u) {
      ThroughputKept(t, u, b);
    } else {
      UnmeasuredThroughput(u, b);
    }
    forall c | c !in {RetryCycles, CommitFailures, AdjustedThroughput} ensures Holds(Collect(u, b), c) {
      assert Holds(Collect(t, b), c);
      PlainConditionsKept(t, u, b, c);
    }
    var m := Collect(u, b);
    assert Success(m) ==> Holds(m, RetryCycles) && Holds(m, CommitFailures) && Holds(m, AdjustedThroughput);
  }

  lemma UnmeasuredThroughput(u: Typed, b: Baseline)
    requires u.weightSum >= 0.0 && u.wallClockHours >= 0.0 && !Measured(u)
    ensures Holds(Collect(u, b), AdjustedThroughput) <==> Collect(u, b).baseAdjustedTasksPerHour <= 0.0
  {
    assert u.weightSum * u.wallClockHours == 0.0;
  }

  /** Doing one task instead of none can turn a passing verdict into a failing one. */
  lemma FirstTaskCanFail(none: Typed, one: Typed, b: Baseline)
    requires none == Typed(0, 1, 0, 0, 0, 0, 0, map[], 1.0, 1.0, 0, 0)
    requires one == none.(completed := 1)
    requires b == Baseline(0, 0, 0, 0, 0.0, 0.0, 0.0, 0, 0)
    ensures NoWorse(none, one) && Success(Collect(none, b)) && !Success(Collect(one, b))
  {
    NoDrag(DRAG_CLASSES);
    assert !Holds(Collect(one, b), RetryCycles);
  }

  lemma {:induction false} NoDrag(classes: seq<string>)
    ensures SumOver(map[], classes) == 0.0
  {
    if classes != [] {
      NoDrag(classes[..|classes| - 1]);
    }
  }
}

/** The evaluation catalog: suite snapshots, the candidate they add up to, and the gate that compares a
    candidate with the accepted baseline. */
module RegressionGate {
  import opened Text

  datatype Category =
    | PerAgent | Router | Answer | Trajectory | MultiTurn | Memory | Safety | Latency | Token | Cost
    | Planner | Adapter | Action | Identity | Governance | Privacy

  const REQUIRED_CATEGORIES :=
    {PerAgent, Router, Answer, Trajectory, MultiTurn, Memory, Safety, Latency, Token, Cost}

  datatype Suite = Suite(id: string, schema: string, categories: set<Category>, required: bool)
  datatype Catalog = Catalog(id: string, version: string, suites: seq<Suite>)

  /** What the catalog model admits: distinct suite ids, and every required category covered by a required
      suite. */
  ghost predicate ValidCatalog(c: Catalog) {
    && c.suites != []
    && (forall i, j | 0 <= i < j < |c.suites| :: c.suites[i].id != c.suites[j].id)
    && forall k | k in REQUIRED_CATEGORIES :: Covered(c, k)
  }

  predicate Covered(c: Catalog, k: Category) {
    exists s | s in c.suites :: s.required && k in s.categories
  }

  datatype Tally = TotalCases | PassedCases | TotalChecks | PassedChecks

  /** Counts by name; a count that is missing or not an integer is absent. */
  type Counts = map<Tally, int>

  /** A suite's result as read: the schema, the counts if they can be read, and the number of failures
      if they are a list. */
  datatype SuiteResult = SuiteResult(schema: Option<string>, counts: Option<Counts>, failures: Option<nat>)

  datatype Error =
    | SchemaMismatch(suite: string) | CountsMissing | CountsNegative | CountsInvalid | FailuresNotAList(suite: string)

  datatype Snapshot = Snapshot(
    id: string, schema: string, categories: set<Category>,
    totalCases: nat, passedCases: nat, totalChecks: nat, passedChecks: nat, failures: nat
  )

  predicate Sound(s: Snapshot) {
    s.passedCases <= s.totalCases && s.passedChecks <= s.totalChecks
  }

  function SummaryCounts(r: SuiteResult): Result<(nat, nat, nat, nat), Error> {
    if r.counts.None? || !({TotalCases, PassedCases, TotalChecks, PassedChecks} <= r.counts.value.Keys) then Err(CountsMissing)
    else
      var c := r.counts.value;
      if c[TotalCases] < 0 || c[PassedCases] < 0 || c[TotalChecks] < 0 || c[PassedChecks] < 0 then Err(CountsNegative)
      else if c[PassedCases] > c[TotalCases] || c[PassedChecks] > c[TotalChecks] then Err(CountsInvalid)
      else Ok((c[TotalCases], c[PassedCases], c[TotalChecks], c[PassedChecks]))
  }

  function SuiteSnapshot(suite: Suite, r: SuiteResult): (s: Result<Snapshot, Error>)
    ensures s.Ok? ==> Sound(s.value) && s.value.id == suite.id && s.value.schema == suite.schema && r.schema == Some(suite.schema)
  {
    if r.schema != Some(suite.schema) then Err(SchemaMismatch(suite.id))
    else
      match SummaryCounts(r)
      case Err(e) => Err(e)
      case Ok(n) =>
        if r.failures.None? then Err(FailuresNotAList(suite.id))
        else Ok(Snapshot(suite.id, suite.schema, suite.categories, n.0, n.1, n.2, n.3, r.failures.value))
  }

  function Snapshots(suites: seq<Suite>, results: seq<SuiteResult>): (s: Result<seq<Snapshot>, Error>)
    requires |suites| == |results|
    ensures s.Ok? ==> |s.value| == |suites|
  {
    if suites == [] then Ok([])
    else
      var n := |suites| - 1;
      match Snapshots(suites[..n], results[..n])
      case Err(e) => Err(e)
      case Ok(front) =>
        match SuiteSnapshot(suites[n], results[n])
        case Err(e) => Err(e)
        case Ok(last) => Ok(front + [last])
  }

  // ---------- the candidate ----------

  datatype Metric = QualityScore | SafetyScore | LatencyRegressions | TokenRegressions | CostRegressions

  datatype Measured = Measured(schema: string, counts: Counts)

  /** A candidate as compared: a suite that is not an object is None; a metric that is no number is absent. */
  datatype Candidate = Candidate(
    catalogId: string, version: string, suites: map<string, Option<Measured>>, metrics: map<Metric, real>
  )

  /** The totals over all suites, and what the gate compares. */
  datatype Evaluation = Evaluation(
    suites: nat, passedSuites: nat, totalCases: nat, passedCases: nat, totalChecks: nat, passedChecks: nat,
    candidate: Candidate
  )

  function Rate(passed: nat, total: nat): real {
    if total == 0 then 1.0 else passed as real / total as real
  }

  function Checks(s: seq<Snapshot>): nat {
    if s == [] then 0 else Checks(s[..|s| - 1]) + s[|s| - 1].totalChecks
  }

  function Passed(s: seq<Snapshot>): nat {
    if s == [] then 0 else Passed(s[..|s| - 1]) + s[|s| - 1].passedChecks
  }

  function Cases(s: seq<Snapshot>): nat {
    if s == [] then 0 else Cases(s[..|s| - 1]) + s[|s| - 1].totalCases
  }

  function PassedCasesOf(s: seq<Snapshot>): nat {
    if s == [] then 0 else PassedCasesOf(s[..|s| - 1]) + s[|s| - 1].passedCases
  }

  function WithoutFailures(s: seq<Snapshot>): nat {
    if s == [] then 0 else WithoutFailures(s[..|s| - 1]) + if s[|s| - 1].failures == 0 then 1 else 0
  }

  function Failures(s: seq<Snapshot>, category: Category): nat {
    if s == [] then 0
    else Failures(s[..|s| - 1], category) + if category in s[|s| - 1].categories then s[|s| - 1].failures else 0
  }

  function CheckRate(s: Snapshot): real {
    Rate(s.passedChecks, s.totalChecks)
  }

  /** The lowest check rate of the suites of a category; zero if there are none. */
  function Lowest(s: seq<Snapshot>, category: Category): Option<real> {
    if s == [] then None
    else
      var front, last := Lowest(s[..|s| - 1], category), s[|s| - 1];
      if category !in last.categories then front
      else if front.Some? && front.value <= CheckRate(last) then front
      else Some(CheckRate(last))
  }

  function MeasuredOf(s: Snapshot): Measured {
    Measured(s.schema, map[TotalCases := s.totalCases, PassedCases := s.passedCases,
                           TotalChecks := s.totalChecks, PassedChecks := s.passedChecks])
  }

  function SuiteMap(s: seq<Snapshot>): map<string, Option<Measured>> {
    if s == [] then map[] else SuiteMap(s[..|s| - 1])[s[|s| - 1].id := Some(MeasuredOf(s[|s| - 1]))]
  }

  function Metrics(s: seq<Snapshot>): map<Metric, real> {
    map[QualityScore := Rate(Passed(s), Checks(s)), SafetyScore := Lowest(s, Safety).GetOr(0.0),
        LatencyRegressions := Failures(s, Latency) as real, TokenRegressions := Failures(s, Token) as real,
        CostRegressions := Failures(s, Cost) as real]
  }

  function CandidateOf(c: Catalog, s: seq<Snapshot>): Candidate {
    Candidate(c.id, c.version, SuiteMap(s), Metrics(s))
  }

  function EvaluationOf(c: Catalog, s: seq<Snapshot>): Evaluation {
    Evaluation(|s|, WithoutFailures(s), Cases(s), PassedCasesOf(s), Checks(s), Passed(s), CandidateOf(c, s))
  }

  /** Suite by suite, stopping at the first result that cannot be used. */
  method EvaluateCatalog(c: Catalog, results: seq<SuiteResult>) returns (evaluation: Result<Evaluation, Error>)
    requires |results| == |c.suites|
    ensures match Snapshots(c.suites, results)
            case Err(e) => evaluation == Err(e)
            case Ok(s) => evaluation == Ok(EvaluationOf(c, s))
  {
    var snapshots: seq<Snapshot> := [];
    for i := 0 to |c.suites|
      invariant Snapshots(c.suites[..i], results[..i]) == Ok(snapshots)
    {
      assert c.suites[..i + 1][..i] == c.suites[..i] && results[..i + 1][..i] == results[..i];
      var snapshot := SuiteSnapshot(c.suites[i], results[i]);
      if snapshot.Err? {
        StoppedBy(c.suites, results, i + 1, snapshot.error);
        return Err(snapshot.error);
      }
      snapshots := snapshots + [snapshot.value];
    }
    assert c.suites[..|c.suites|] == c.suites && results[..|results|] == results;
    evaluation := Ok(EvaluationOf(c, snapshots));
  }

  lemma {:induction false} StoppedBy(suites: seq<Suite>, results: seq<SuiteResult>, n: nat, e: Error)
    requires |suites| == |results| && n <= |suites| && Snapshots(suites[..n], results[..n]) == Err(e)
    ensures Snapshots(suites, results) == Err(e)
  {
    if n == |suites| {
      assert suites[..n] == suites && results[..n] == results;
    } else {
      var m := |suites| - 1;
      assert suites[..m][..n] == suites[..n] && results[..m][..n] == results[..n];
      StoppedBy(suites[..m], results[..m], n, e);
    }
  }

  // ---------- the gate ----------

  datatype Direction = Min | Max
  datatype Threshold = Threshold(direction: Direction, delta: real)

  datatype Baseline = Baseline(
    catalogId: string, version: string, suites: map<string, Measured>,
    metrics: map<Metric, real>, thresholds: map<Metric, Threshold>
  )

  function DirectionOf(m: Metric): Direction {
    if m.QualityScore? || m.SafetyScore? then Min else Max
  }

  const METRICS := {QualityScore, SafetyScore, LatencyRegressions, TokenRegressions, CostRegressions}
  const TALLIES := [TotalCases, PassedCases, TotalChecks, PassedChecks]

  predicate ValidBaseline(b: Baseline) {
    && b.metrics.Keys == METRICS && b.thresholds.Keys == METRICS
    && (forall m | m in METRICS :: b.thresholds[m].direction == DirectionOf(m) && b.thresholds[m].delta >= 0.0)
    && forall id | id in b.suites :: b.suites[id].counts.Keys == {TotalCases, PassedCases, TotalChecks, PassedChecks}
  }

  function Required(c: Catalog): set<string> {
    set s | s in c.suites && s.required :: s.id
  }

  predicate CountKept(candidate: Measured, baseline: Measured, t: Tally)
    requires t in baseline.counts
  {
    t in candidate.counts && candidate.counts[t] >= baseline.counts[t]
  }

  predicate SuiteKept(candidate: Candidate, b: Baseline, id: string)
    requires ValidBaseline(b)
  {
    && id in candidate.suites && candidate.suites[id].Some? && id in b.suites
    && candidate.suites[id].value.schema == b.suites[id].schema
    && forall i | 0 <= i < |TALLIES| :: CountKept(candidate.suites[id].value, b.suites[id], TALLIES[i])
  }

  predicate Within(threshold: Threshold, value: real, accepted: real) {
    match threshold.direction
    case Min => value + threshold.delta >= accepted
    case Max => value <= accepted + threshold.delta
  }

  predicate MetricKept(candidate: Candidate, b: Baseline, m: Metric)
    requires ValidBaseline(b) && m in METRICS
  {
    m in candidate.metrics && Within(b.thresholds[m], candidate.metrics[m], b.metrics[m])
  }

  predicate SameCatalog(c: Catalog, candidate: Candidate, b: Baseline) {
    candidate.catalogId == b.catalogId == c.id && candidate.version == b.version == c.version
  }

  predicate SameSuites(c: Catalog, candidate: Candidate, b: Baseline) {
    candidate.suites.Keys == b.suites.Keys == Required(c)
  }

  /** What passing means. */
  predicate Passes(c: Catalog, candidate: Candidate, b: Baseline)
    requires ValidBaseline(b)
  {
    && SameCatalog(c, candidate, b) && SameSuites(c, candidate, b)
    && (forall id | id in Required(c) :: SuiteKept(candidate, b, id))
    && forall m | m in METRICS :: MetricKept(candidate, b, m)
  }

  datatype Report = Report(passed: bool, totalChecks: nat, passedChecks: nat)

  predicate All(checks: seq<bool>) {
    forall i | 0 <= i < |checks| :: checks[i]
  }

  function Trues(checks: seq<bool>): nat {
    if checks == [] then 0 else Trues(checks[..|checks| - 1]) + if checks[|checks| - 1] then 1 else 0
  }

  lemma {:induction false} AllAreTrue(checks: seq<bool>)
    ensures Trues(checks) <= |checks| && (Trues(checks) == |checks| <==> All(checks))
  {
    if checks != [] {
      AllAreTrue(checks[..|checks| - 1]);
    }
  }

  lemma AllConcat(a: seq<bool>, b: seq<bool>)
    ensures All(a + b) <==> All(a) && All(b)
  {
    if All(a + b) {
      forall i | 0 <= i < |a| ensures a[i] {
        assert (a + b)[i];
      }
      forall i | 0 <= i < |b| ensures b[i] {
        assert (a + b)[|a| + i];
      }
    }
  }

  lemma AllOne(check: bool)
    ensures All([check]) <==> check
  {
    assert [check][0] == check;
  }

  /** The checks of one required suite. */
  method CompareSuite(candidate: Candidate, b: Baseline, id: string) returns (checks: seq<bool>)
    requires ValidBaseline(b)
    ensures All(checks) <==> SuiteKept(candidate, b, id)
    ensures checks != []
  {
    if id !in candidate.suites || candidate.suites[id].None? || id !in b.suites {
      checks := [false];
      assert !checks[0];
      return;
    }
    var found, accepted := candidate.suites[id].value, b.suites[id];
    checks := [found.schema == accepted.schema];
    AllOne(checks[0]);
    for i := 0 to |TALLIES|
      invariant checks != []
      invariant All(checks) <==> found.schema == accepted.schema && forall j | 0 <= j < i :: CountKept(found, accepted, TALLIES[j])
    {
      var t := TALLIES[i];
      AllConcat(checks, [t in found.counts && found.counts[t] >= accepted.counts[t]]);
      AllOne(CountKept(found, accepted, t));
      checks := checks + [t in found.counts && found.counts[t] >= accepted.counts[t]];
    }
  }

  method CompareMetric(candidate: Candidate, b: Baseline, m: Metric) returns (kept: bool)
    requires ValidBaseline(b) && m in METRICS
    ensures kept == MetricKept(candidate, b, m)
  {
    kept := false;
    if m in candidate.metrics {
      var value, accepted, threshold := candidate.metrics[m], b.metrics[m], b.thresholds[m];
      if threshold.direction.Min? {
        kept := value + threshold.delta >= accepted;
      } else {
        kept := value <= accepted + threshold.delta;
      }
    }
  }

  /** The checks of the catalog id, the schema version and the suite set. */
  method CompareIdentity(c: Catalog, candidate: Candidate, b: Baseline) returns (checks: seq<bool>)
    ensures All(checks) <==> SameCatalog(c, candidate, b) && SameSuites(c, candidate, b)
    ensures |checks| == 3
  {
    checks := [candidate.catalogId == b.catalogId == c.id];
    AllOne(checks[0]);
    var second := [candidate.version == b.version == c.version];
    AllOne(second[0]);
    AllConcat(checks, second);
    checks := checks + second;
    var third := [candidate.suites.Keys == b.suites.Keys == Required(c)];
    AllOne(third[0]);
    AllConcat(checks, third);
    checks := checks + third;
  }

  /** The checks of all required suites. */
  method CompareSuites(c: Catalog, candidate: Candidate, b: Baseline) returns (checks: seq<bool>)
    requires ValidBaseline(b)
    ensures All(checks) <==> forall id | id in Required(c) :: SuiteKept(candidate, b, id)
  {
    checks := [];
    var left := Required(c);
    while left != {}
      invariant left <= Required(c)
      invariant All(checks) <==> forall id | id in Required(c) - left :: SuiteKept(candidate, b, id)
      decreases left
    {
      var id :| id in left;
      var more := CompareSuite(candidate, b, id);
      AllConcat(checks, more);
      checks := checks + more;
      assert Required(c) - (left - {id}) == (Required(c) - left) + {id};
      left := left - {id};
    }
    assert Required(c) - left == Required(c);
  }

  /** The checks of all metrics. */
  method CompareMetrics(candidate: Candidate, b: Baseline) returns (checks: seq<bool>)
    requires ValidBaseline(b)
    ensures All(checks) <==> forall m | m in METRICS :: MetricKept(candidate, b, m)
  {
    checks := [];
    var metrics := METRICS;
    while metrics != {}
      invariant metrics <= METRICS
      invariant All(checks) <==> forall m | m in METRICS - metrics :: MetricKept(candidate, b, m)
      decreases metrics
    {
      var m :| m in metrics;
      var kept := CompareMetric(candidate, b, m);
      AllOne(kept);
      AllConcat(checks, [kept]);
      checks := checks + [kept];
      assert METRICS - (metrics - {m}) == (METRICS - metrics) + {m};
      metrics := metrics - {m};
    }
  }

  /** Identity, suite set, each required suite, then each metric; a candidate passes if no check fails. */
  method CompareCandidateToBaseline(c: Catalog, candidate: Candidate, b: Baseline) returns (report: Report)
    requires ValidBaseline(b)
    ensures report.passed <==> Passes(c, candidate, b)
    ensures report.passedChecks <= report.totalChecks && (report.passed <==> report.passedChecks == report.totalChecks)
  {
    var checks := CompareIdentity(c, candidate, b);
    var suites := CompareSuites(c, candidate, b);
    AllConcat(checks, suites);
    checks := checks + suites;
    var metrics := CompareMetrics(candidate, b);
    AllConcat(checks, metrics);
    checks := checks + metrics;
    AllAreTrue(checks);
    report := Report(Trues(checks) == |checks|, |checks|, Trues(checks));
  }
}

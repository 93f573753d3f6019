/** What the gate guarantees: it accepts the baseline, stays passing under improvement, and what the metrics
    of an evaluated catalog say. */
module GateLaws {
  import opened Sequences
  import opened Text
  import opened RegressionGate

  // ---------- the gate ----------

  /** The baseline, presented as a candidate. */
  function AsCandidate(b: Baseline): Candidate {
    Candidate(b.catalogId, b.version, map id | id in b.suites :: Some(b.suites[id]), b.metrics)
  }

  /** The gate accepts the baseline itself exactly when it is a baseline of this catalog. */
  lemma BaselineIsAccepted(c: Catalog, b: Baseline)
    requires ValidBaseline(b)
    ensures Passes(c, AsCandidate(b), b) <==> b.catalogId == c.id && b.version == c.version && b.suites.Keys == Required(c)
  {
  }

  predicate NoFewer(before: Measured, after: Measured) {
    after.schema == before.schema
    && forall i | 0 <= i < |TALLIES| :: CountGrows(before, after, TALLIES[i])
  }

  predicate CountGrows(before: Measured, after: Measured, t: Tally) {
    t in before.counts ==> t in after.counts && before.counts[t] <= after.counts[t]
  }

  predicate SuiteGrows(before: Candidate, after: Candidate, id: string) {
    id in before.suites && before.suites[id].Some? ==>
      id in after.suites && after.suites[id].Some? && NoFewer(before.suites[id].value, after.suites[id].value)
  }

  predicate Better(m: Metric, before: real, after: real) {
    match DirectionOf(m)
    case Min => before <= after
    case Max => after <= before
  }

  predicate MetricGrows(before: Candidate, after: Candidate, m: Metric) {
    m in before.metrics ==> m in after.metrics && Better(m, before.metrics[m], after.metrics[m])
  }

  /** No count is lower, no score lower and no number of regressions higher. */
  predicate NoWorse(before: Candidate, after: Candidate) {
    && after.catalogId == before.catalogId && after.version == before.version
    && after.suites.Keys == before.suites.Keys
    && (forall id | id in before.suites :: SuiteGrows(before, after, id))
    && forall m | m in METRICS :: MetricGrows(before, after, m)
  }

  /** A candidate that is no worse than one that passes, passes. */
  lemma ImprovementKeepsPassing(c: Catalog, before: Candidate, after: Candidate, b: Baseline)
    requires ValidBaseline(b) && Passes(c, before, b) && NoWorse(before, after)
    ensures Passes(c, after, b)
  {
  }

  // ---------- what an evaluated catalog is measured by ----------

  lemma {:induction false} SnapshotsKeepIds(suites: seq<Suite>, results: seq<SuiteResult>)
    requires |suites| == |results| && Snapshots(suites, results).Ok?
    ensures var s := Snapshots(suites, results).value;
            forall i | 0 <= i < |suites| ::
              s[i].id == suites[i].id && s[i].schema == suites[i].schema && s[i].categories == suites[i].categories && Sound(s[i])
  {
    if suites != [] {
      SnapshotsKeepIds(suites[..|suites| - 1], results[..|suites| - 1]);
    }
  }

  function Ids(suites: seq<Suite>): set<string> {
    set s | s in suites :: s.id
  }

  predicate Holds(s: seq<Snapshot>, id: string) {
    exists i | 0 <= i < |s| :: s[i].id == id
  }

  lemma {:induction false} InSuiteMap(s: seq<Snapshot>, id: string)
    ensures id in SuiteMap(s) <==> Holds(s, id)
  {
    if s != [] {
      var n := |s| - 1;
      InSuiteMap(s[..n], id);
      if Holds(s, id) {
        var i :| 0 <= i < |s| && s[i].id == id;
        assert i < n ==> s[..n][i].id == id;
      }
      if Holds(s[..n], id) {
        var i :| 0 <= i < n && s[..n][i].id == id;
        assert s[i].id == id;
      }
    }
  }

  lemma {:induction false} HoldsSuite(s: seq<Snapshot>, suites: seq<Suite>, id: string)
    requires |s| == |suites| && forall i | 0 <= i < |suites| :: s[i].id == suites[i].id
    ensures Holds(s, id) <==> id in Ids(suites)
  {
    if Holds(s, id) {
      var i :| 0 <= i < |s| && s[i].id == id;
      assert suites[i] in suites;
    }
    if id in Ids(suites) {
      var i :| 0 <= i < |suites| && suites[i].id == id;
      assert s[i].id == id;
    }
  }

  lemma CandidateSuites(c: Catalog, results: seq<SuiteResult>, id: string)
    requires |results| == |c.suites| && Snapshots(c.suites, results).Ok?
    ensures id in CandidateOf(c, Snapshots(c.suites, results).value).suites <==> id in Ids(c.suites)
  {
    var s := Snapshots(c.suites, results).value;
    SnapshotsKeepIds(c.suites, results);
    InSuiteMap(s, id);
    HoldsSuite(s, c.suites, id);
  }

  /** The totals of an evaluation are sound: nothing passes that was not counted, every suite passes
      exactly when none has a failure, and all cases or checks pass exactly when they do in every suite. */
  lemma {:induction false} TotalsAreSound(c: Catalog, s: seq<Snapshot>)
    requires forall x | x in s :: Sound(x)
    ensures var e := EvaluationOf(c, s);
            && e.passedSuites <= e.suites && e.passedCases <= e.totalCases && e.passedChecks <= e.totalChecks
            && (e.passedSuites == e.suites <==> forall x | x in s :: x.failures == 0)
            && (e.passedCases == e.totalCases <==> forall x | x in s :: x.passedCases == x.totalCases)
            && (e.passedChecks == e.totalChecks <==> forall x | x in s :: x.passedChecks == x.totalChecks)
  {
    if s != [] {
      var front, last := s[..|s| - 1], s[|s| - 1];
      TotalsAreSound(c, front);
      assert s == front + [last] && last in s;
      assert forall x :: x in s <==> x in front || x == last;
    }
  }

  lemma OptionalIsNotRequired(c: Catalog, optional: nat)
    requires ValidCatalog(c) && optional < |c.suites| && !c.suites[optional].required
    ensures c.suites[optional].id !in Required(c)
  {
    var id := c.suites[optional].id;
    if id in Required(c) {
      var i :| 0 <= i < |c.suites| && c.suites[i].required && c.suites[i].id == id;
    }
  }

  lemma AllRequiredIds(c: Catalog)
    requires ValidCatalog(c)
    ensures Required(c) <= Ids(c.suites)
    ensures Ids(c.suites) == Required(c) <==> forall s | s in c.suites :: s.required
  {
    forall s | s in c.suites && !s.required ensures s.id in Ids(c.suites) && s.id !in Required(c) {
      var i :| 0 <= i < |c.suites| && c.suites[i] == s;
      OptionalIsNotRequired(c, i);
    }
  }

  /** The gate asks for exactly the required suites, while an evaluated candidate holds all suites: the
      suite sets match only if the catalog has no optional suite, so with one no evaluated candidate passes. */
  lemma EvaluatedSuitesMatch(c: Catalog, results: seq<SuiteResult>, b: Baseline)
    requires |results| == |c.suites| && Snapshots(c.suites, results).Ok? && ValidCatalog(c)
    ensures SameSuites(c, CandidateOf(c, Snapshots(c.suites, results).value), b)
       <==> b.suites.Keys == Required(c) && forall s | s in c.suites :: s.required
  {
    var suites := CandidateOf(c, Snapshots(c.suites, results).value).suites;
    forall id ensures id in suites <==> id in Ids(c.suites) {
      CandidateSuites(c, results, id);
    }
    assert suites.Keys == Ids(c.suites);
    AllRequiredIds(c);
  }

  // ---------- the quality score ----------

  lemma RateTimes(passed: nat, total: nat)
    requires total > 0
    ensures Rate(passed, total) * total as real == passed as real
  {
  }

  lemma RateOrder(passed: nat, total: nat, bound: real)
    requires total > 0
    ensures Rate(passed, total) <= bound <==> passed as real <= bound * total as real
    ensures Rate(passed, total) >= bound <==> passed as real >= bound * total as real
  {
    var r, t := Rate(passed, total), total as real;
    RateTimes(passed, total);
    assert (bound - r) * t == bound * t - passed as real;
    SameSign(bound - r, t);
  }

  lemma SameSign(x: real, t: real)
    requires t > 0.0
    ensures x >= 0.0 <==> x * t >= 0.0
    ensures x <= 0.0 <==> x * t <= 0.0
  {
  }

  predicate AtLeast(passed: nat, total: nat, bound: real) {
    passed as real >= bound * total as real
  }

  predicate AtMost(passed: nat, total: nat, bound: real) {
    passed as real <= bound * total as real
  }

  lemma Adds(p: nat, t: nat, q: nat, u: nat, bound: real)
    ensures AtLeast(p, t, bound) && AtLeast(q, u, bound) ==> AtLeast(p + q, t + u, bound)
    ensures AtMost(p, t, bound) && AtMost(q, u, bound) ==> AtMost(p + q, t + u, bound)
  {
    assert bound * (t + u) as real == bound * t as real + bound * u as real;
  }

  lemma NoChecks(s: Snapshot, bound: real)
    requires Sound(s) && s.totalChecks == 0
    ensures AtLeast(s.passedChecks, s.totalChecks, bound) && AtMost(s.passedChecks, s.totalChecks, bound)
  {
  }

  lemma RateBounds(passed: nat, total: nat, bound: real)
    requires total > 0
    ensures Rate(passed, total) <= bound <==> AtMost(passed, total, bound)
    ensures Rate(passed, total) >= bound <==> AtLeast(passed, total, bound)
  {
    RateOrder(passed, total, bound);
  }

  /** The suite has no checks, or a check rate within these bounds. */
  predicate RatedBetween(x: Snapshot, lowest: real, highest: real) {
    Sound(x) && (x.totalChecks > 0 ==> lowest <= CheckRate(x) <= highest)
  }

  lemma SuiteBetween(x: Snapshot, lowest: real, highest: real)
    requires RatedBetween(x, lowest, highest)
    ensures AtLeast(x.passedChecks, x.totalChecks, lowest) && AtMost(x.passedChecks, x.totalChecks, highest)
  {
    if x.totalChecks == 0 {
      NoChecks(x, lowest);
      NoChecks(x, highest);
    } else {
      RateBounds(x.passedChecks, x.totalChecks, lowest);
      RateBounds(x.passedChecks, x.totalChecks, highest);
    }
  }

  lemma {:induction false} SumBetween(s: seq<Snapshot>, lowest: real, highest: real)
    requires forall x | x in s :: RatedBetween(x, lowest, highest)
    ensures AtLeast(Passed(s), Checks(s), lowest) && AtMost(Passed(s), Checks(s), highest)
  {
    if s != [] {
      var front, last := s[..|s| - 1], s[|s| - 1];
      SumBetween(front, lowest, highest);
      assert last in s;
      SuiteBetween(last, lowest, highest);
      Adds(Passed(front), Checks(front), last.passedChecks, last.totalChecks, lowest);
      Adds(Passed(front), Checks(front), last.passedChecks, last.totalChecks, highest);
    }
  }

  /** With any checks at all, the quality score lies between the lowest and the highest check rate of the
      suites that have checks; without any it is one. */
  lemma QualityIsBetweenRates(s: seq<Snapshot>, lowest: real, highest: real)
    requires forall x | x in s :: RatedBetween(x, lowest, highest)
    ensures Checks(s) > 0 ==> lowest <= Metrics(s)[QualityScore] <= highest
    ensures Checks(s) == 0 ==> Metrics(s)[QualityScore] == 1.0
  {
    if Checks(s) > 0 {
      SumBetween(s, lowest, highest);
      RateBounds(Passed(s), Checks(s), lowest);
      RateBounds(Passed(s), Checks(s), highest);
    }
  }

  /** low is a check rate of a suite of the category, and none of theirs is lower. */
  ghost predicate IsLowest(s: seq<Snapshot>, k: Category, low: real) {
    && (forall x | x in s && k in x.categories :: low <= CheckRate(x))
    && exists x :: x in s && k in x.categories && low == CheckRate(x)
  }

  lemma {:induction false} LowestIsLowest(s: seq<Snapshot>, k: Category)
    ensures var low := Lowest(s, k); if low.Some? then IsLowest(s, k, low.value) else forall x | x in s :: k !in x.categories
  {
    if s != [] {
      var front, last := s[..|s| - 1], s[|s| - 1];
      LowestIsLowest(front, k);
      assert s == front + [last];
      assert forall x :: x in s <==> x in front || x == last;
    }
  }

  lemma SafetyIsCovered(c: Catalog, results: seq<SuiteResult>)
    requires |results| == |c.suites| && Snapshots(c.suites, results).Ok? && ValidCatalog(c)
    ensures exists x :: x in Snapshots(c.suites, results).value && Safety in x.categories
  {
    var s := Snapshots(c.suites, results).value;
    SnapshotsKeepIds(c.suites, results);
    assert Covered(c, Safety);
    var i :| 0 <= i < |c.suites| && c.suites[i].required && Safety in c.suites[i].categories;
    assert s[i] in s && Safety in s[i].categories;
  }

  lemma SafetyScoreIsLowest(s: seq<Snapshot>)
    requires exists x :: x in s && Safety in x.categories
    ensures IsLowest(s, Safety, Metrics(s)[SafetyScore])
  {
    LowestIsLowest(s, Safety);
    assert Metrics(s)[SafetyScore] == Lowest(s, Safety).GetOr(0.0);
  }

  /** In a valid catalog the safety score is the lowest check rate of the safety suites, of which there is
      at least one. */
  lemma SafetyScoreIsTheLowestRate(c: Catalog, results: seq<SuiteResult>)
    requires |results| == |c.suites| && Snapshots(c.suites, results).Ok? && ValidCatalog(c)
    ensures var s := Snapshots(c.suites, results).value; IsLowest(s, Safety, Metrics(s)[SafetyScore])
  {
    SafetyIsCovered(c, results);
    SafetyScoreIsLowest(Snapshots(c.suites, results).value);
  }

  // ---------- the candidate and the verdict, written out ----------

  /** The counts that a suite must report. */
  predicate ReportsAll(r: SuiteResult) {
    r.counts.Some? && TotalCases in r.counts.value && PassedCases in r.counts.value
    && TotalChecks in r.counts.value && PassedChecks in r.counts.value
  }

  /** A suite's result is taken over, with its own four counts and its number of failures, exactly if it has
      the schema of its suite, four counts none of which is negative, no more passed than there are, and a list
      of failures; the first of these that fails is the error. */
  lemma SnapshotExactly(suite: Suite, r: SuiteResult)
    ensures var s := SuiteSnapshot(suite, r);
            if r.schema != Some(suite.schema) then s == Err(SchemaMismatch(suite.id))
            else if !ReportsAll(r) then s == Err(CountsMissing)
            else
              var c := r.counts.value;
              if exists t | t in {TotalCases, PassedCases, TotalChecks, PassedChecks} :: c[t] < 0 then s == Err(CountsNegative)
              else if c[TotalCases] < c[PassedCases] || c[TotalChecks] < c[PassedChecks] then s == Err(CountsInvalid)
              else if r.failures.None? then s == Err(FailuresNotAList(suite.id))
              else
                && s.Ok? && s.value.id == suite.id && s.value.schema == suite.schema && s.value.categories == suite.categories
                && s.value.totalCases == c[TotalCases] && s.value.passedCases == c[PassedCases]
                && s.value.totalChecks == c[TotalChecks] && s.value.passedChecks == c[PassedChecks]
                && s.value.failures == r.failures.value
  {
    if r.schema == Some(suite.schema) && ReportsAll(r) {
      var c := r.counts.value;
      if t :| t in {TotalCases, PassedCases, TotalChecks, PassedChecks} && c[t] < 0 {
      }
    }
  }

  predicate DistinctIds(s: seq<Snapshot>) {
    forall i, j | 0 <= i < j < |s| :: s[i].id != s[j].id
  }

  /** The candidate shows each suite under its id with its schema and its four counts. */
  predicate Shows(suites: map<string, Option<Measured>>, x: Snapshot) {
    && x.id in suites && suites[x.id].Some? && suites[x.id].value.schema == x.schema
    && suites[x.id].value.counts.Keys == {TotalCases, PassedCases, TotalChecks, PassedChecks}
    && suites[x.id].value.counts[TotalCases] == x.totalCases && suites[x.id].value.counts[PassedCases] == x.passedCases
    && suites[x.id].value.counts[TotalChecks] == x.totalChecks && suites[x.id].value.counts[PassedChecks] == x.passedChecks
  }

  lemma {:induction false} SuiteMapShows(s: seq<Snapshot>, i: nat)
    requires DistinctIds(s) && i < |s|
    ensures Shows(SuiteMap(s), s[i])
    decreases |s|
  {
    var n: nat := |s| - 1;
    if i < n {
      assert DistinctIds(s[..n]);
      SuiteMapShows(s[..n], i);
    }
  }

  function FailuresOf(k: Category): Snapshot -> nat { (x: Snapshot) => if k in x.categories then x.failures else 0 }
  function PassedChecksOf(): Snapshot -> nat { (x: Snapshot) => x.passedChecks }
  function AllChecksOf(): Snapshot -> nat { (x: Snapshot) => x.totalChecks }
  function PassedCaseCount(): Snapshot -> nat { (x: Snapshot) => x.passedCases }
  function AllCaseCount(): Snapshot -> nat { (x: Snapshot) => x.totalCases }

  lemma {:induction false} TotalsAreSums(s: seq<Snapshot>)
    ensures Passed(s) == Sum(s, PassedChecksOf()) && Checks(s) == Sum(s, AllChecksOf())
    ensures PassedCasesOf(s) == Sum(s, PassedCaseCount()) && Cases(s) == Sum(s, AllCaseCount())
    decreases |s|
  {
    if s != [] {
      TotalsAreSums(s[..|s| - 1]);
    }
  }

  lemma {:induction false} FailuresAreSums(s: seq<Snapshot>, k: Category)
    ensures Failures(s, k) == Sum(s, FailuresOf(k))
    decreases |s|
  {
    if s != [] {
      FailuresAreSums(s[..|s| - 1], k);
    }
  }

  lemma MetricsAre(s: seq<Snapshot>)
    ensures var m := Metrics(s);
            && m.Keys == {QualityScore, SafetyScore, LatencyRegressions, TokenRegressions, CostRegressions}
            && m[QualityScore] == (if Checks(s) == 0 then 1.0 else Passed(s) as real / Checks(s) as real)
            && m[LatencyRegressions] == Sum(s, FailuresOf(Latency)) as real
            && m[TokenRegressions] == Sum(s, FailuresOf(Token)) as real
            && m[CostRegressions] == Sum(s, FailuresOf(Cost)) as real
  {
    FailuresAreSums(s, Latency);
    FailuresAreSums(s, Token);
    FailuresAreSums(s, Cost);
  }

  /** What an evaluation says: the catalog's identity, every suite with its own counts, the totals as sums over
      the suites, quality as the share of passed checks, and for latency, tokens and cost the failures of the
      suites of just that category. */
  lemma EvaluationIs(c: Catalog, s: seq<Snapshot>, i: nat)
    requires DistinctIds(s)
    ensures var e := EvaluationOf(c, s);
            var m := e.candidate.metrics;
            && e.candidate.catalogId == c.id && e.candidate.version == c.version
            && (i < |s| ==> Shows(e.candidate.suites, s[i])) && e.suites == |s|
            && e.totalCases == Sum(s, AllCaseCount()) && e.passedCases == Sum(s, PassedCaseCount())
            && e.totalChecks == Sum(s, AllChecksOf()) && e.passedChecks == Sum(s, PassedChecksOf())
            && m.Keys == {QualityScore, SafetyScore, LatencyRegressions, TokenRegressions, CostRegressions}
            && m[QualityScore] == (if e.totalChecks == 0 then 1.0 else e.passedChecks as real / e.totalChecks as real)
            && m[LatencyRegressions] == Sum(s, FailuresOf(Latency)) as real
            && m[TokenRegressions] == Sum(s, FailuresOf(Token)) as real
            && m[CostRegressions] == Sum(s, FailuresOf(Cost)) as real
  {
    if i < |s| {
      SuiteMapShows(s, i);
    }
    TotalsAreSums(s);
    MetricsAre(s);
  }

  /** Without a safety suite the safety score is zero. */
  lemma NoSafetyScore(s: seq<Snapshot>)
    requires forall x | x in s :: Safety !in x.categories
    ensures Metrics(s)[SafetyScore] == 0.0
  {
    LowestIsLowest(s, Safety);
  }

  lemma CheckRateIs(x: Snapshot)
    ensures CheckRate(x) == if x.totalChecks == 0 then 1.0 else x.passedChecks as real / x.totalChecks as real
  {
  }

  predicate AtLeastAsMany(found: Measured, accepted: Measured, t: Tally) {
    t in accepted.counts && t in found.counts && accepted.counts[t] <= found.counts[t]
  }

  /** Every suite of the set is in both, with one schema and none of its four counts lower than accepted. */
  predicate SuitesKept(candidate: Candidate, b: Baseline, ids: set<string>) {
    forall id | id in ids ::
      && id in candidate.suites && candidate.suites[id].Some? && id in b.suites
      && b.suites[id].schema == candidate.suites[id].value.schema
      && AtLeastAsMany(candidate.suites[id].value, b.suites[id], TotalCases)
      && AtLeastAsMany(candidate.suites[id].value, b.suites[id], PassedCases)
      && AtLeastAsMany(candidate.suites[id].value, b.suites[id], TotalChecks)
      && AtLeastAsMany(candidate.suites[id].value, b.suites[id], PassedChecks)
  }

  /** A score may fall, and a number of regressions rise, by at most what the baseline allows. */
  predicate ScoreKept(candidate: Candidate, b: Baseline, m: Metric) {
    m in candidate.metrics && m in b.metrics && m in b.thresholds
    && b.metrics[m] - b.thresholds[m].delta <= candidate.metrics[m]
  }

  predicate RegressionsKept(candidate: Candidate, b: Baseline, m: Metric) {
    m in candidate.metrics && m in b.metrics && m in b.thresholds
    && candidate.metrics[m] - b.thresholds[m].delta <= b.metrics[m]
  }

  predicate IsRequired(c: Catalog, id: string) {
    exists i | 0 <= i < |c.suites| :: c.suites[i].required && c.suites[i].id == id
  }

  /** The gate, written out: three identities, each required suite, two scores and three regression counts. */
  lemma PassesExactly(c: Catalog, candidate: Candidate, b: Baseline)
    requires ValidBaseline(b)
    ensures Passes(c, candidate, b) <==>
            && candidate.catalogId == c.id && b.catalogId == c.id && candidate.version == c.version && b.version == c.version
            && (forall id :: id in candidate.suites <==> IsRequired(c, id)) && (forall id :: id in b.suites <==> IsRequired(c, id))
            && SuitesKept(candidate, b, b.suites.Keys)
            && ScoreKept(candidate, b, QualityScore) && ScoreKept(candidate, b, SafetyScore)
            && RegressionsKept(candidate, b, LatencyRegressions) && RegressionsKept(candidate, b, TokenRegressions)
            && RegressionsKept(candidate, b, CostRegressions)
  {
    RequiredIs(c);
    SuitesKeptIs(candidate, b);
    MetricsKeptAre(candidate, b);
  }

  lemma RequiredIs(c: Catalog)
    ensures forall id :: id in Required(c) <==> IsRequired(c, id)
  {
    forall id ensures id in Required(c) <==> IsRequired(c, id) {
      if id in Required(c) {
        var s :| s in c.suites && s.required && s.id == id;
        var i :| 0 <= i < |c.suites| && c.suites[i] == s;
      }
    }
  }

  lemma SuiteKeptIs(candidate: Candidate, b: Baseline, id: string)
    requires ValidBaseline(b)
    ensures SuiteKept(candidate, b, id) <==> SuitesKept(candidate, b, {id})
  {
    assert TALLIES[0] == TotalCases && TALLIES[1] == PassedCases && TALLIES[2] == TotalChecks && TALLIES[3] == PassedChecks;
    if SuitesKept(candidate, b, {id}) {
      assert id in {id};
    }
  }

  lemma SuitesKeptIs(candidate: Candidate, b: Baseline)
    requires ValidBaseline(b)
    ensures (forall id | id in b.suites :: SuiteKept(candidate, b, id)) <==> SuitesKept(candidate, b, b.suites.Keys)
  {
    forall id | id in b.suites ensures SuiteKept(candidate, b, id) <==> SuitesKept(candidate, b, {id}) {
      SuiteKeptIs(candidate, b, id);
    }
    assert SuitesKept(candidate, b, b.suites.Keys) <==> forall id | id in b.suites :: SuitesKept(candidate, b, {id});
  }

  lemma MetricsKeptAre(candidate: Candidate, b: Baseline)
    requires ValidBaseline(b)
    ensures (forall m | m in METRICS :: MetricKept(candidate, b, m)) <==>
            && ScoreKept(candidate, b, QualityScore) && ScoreKept(candidate, b, SafetyScore)
            && RegressionsKept(candidate, b, LatencyRegressions) && RegressionsKept(candidate, b, TokenRegressions)
            && RegressionsKept(candidate, b, CostRegressions)
  {
    assert QualityScore in METRICS && SafetyScore in METRICS;
    assert LatencyRegressions in METRICS && TokenRegressions in METRICS && CostRegressions in METRICS;
  }
}

/** Outcome metrics of captured tasks: nearest-rank percentiles, rates and ratios. */
module QualityMetrics {
  import opened Sequences
  import opened Text

  // ---------- sorting ----------

  function Insert(x: real, s: seq<real>): seq<real> {
    if s == [] || x <= s[0] then [x] + s else [s[0]] + Insert(x, s[1..])
  }

  function Sorted(values: seq<real>): seq<real> {
    if values == [] then [] else Insert(values[|values| - 1], Sorted(values[..|values| - 1]))
  }

  predicate Ascending(s: seq<real>) {
    forall i, j | 0 <= i <= j < |s| :: s[i] <= s[j]
  }

  lemma HeadAndTail<T>(s: seq<T>)
    requires s != []
    ensures s == [s[0]] + s[1..] && multiset(s[1..]) == multiset(s) - multiset{s[0]}
    ensures multiset(s) == multiset(s[1..]) + multiset{s[0]}
  {
    assert s == [s[0]] + s[1..];
  }

  lemma {:induction false} InsertKeepsValues(x: real, s: seq<real>)
    ensures multiset(Insert(x, s)) == multiset(s) + multiset{x}
    ensures forall y | y in Insert(x, s) :: y == x || y in s
  {
    if s != [] && x > s[0] {
      HeadAndTail(s);
      InsertKeepsValues(x, s[1..]);
    }
  }

  lemma PutFirst(x: real, s: seq<real>)
    requires Ascending(s) && forall y | y in s :: x <= y
    ensures Ascending([x] + s)
  {
    forall i, j | 0 <= i <= j < |s| + 1 ensures ([x] + s)[i] <= ([x] + s)[j] {
      assert j > 0 ==> s[j - 1] in s;
    }
  }

  lemma {:induction false} InsertKeepsOrder(x: real, s: seq<real>)
    requires Ascending(s)
    ensures Ascending(Insert(x, s))
  {
    if s == [] || x <= s[0] {
      PutFirst(x, s);
    } else {
      InsertKeepsOrder(x, s[1..]);
      InsertKeepsValues(x, s[1..]);
      PutFirst(s[0], Insert(x, s[1..]));
    }
  }

  lemma {:induction false} SortedIsSorted(values: seq<real>)
    ensures Ascending(Sorted(values)) && multiset(Sorted(values)) == multiset(values)
    ensures |Sorted(values)| == |values|
  {
    if values != [] {
      var n := |values| - 1;
      SortedIsSorted(values[..n]);
      InsertKeepsOrder(values[n], Sorted(values[..n]));
      InsertKeepsValues(values[n], Sorted(values[..n]));
      assert values == values[..n] + [values[n]];
      assert |multiset(Sorted(values))| == |multiset(values)|;
    }
  }

  lemma SmallestFirst(s: seq<real>, t: seq<real>)
    requires Ascending(s) && Ascending(t) && multiset(s) == multiset(t) && s != [] && t != []
    ensures s[0] == t[0]
  {
    SameMembers(s, t);
    assert s[0] in t && t[0] in s;
  }

  /** Two ascending arrangements of the same values are the same. */
  lemma {:induction false} OneAscendingOrder(s: seq<real>, t: seq<real>)
    requires Ascending(s) && Ascending(t) && multiset(s) == multiset(t)
    ensures s == t
    decreases |s|
  {
    assert |s| == |multiset(s)| == |multiset(t)| == |t|;
    if s != [] {
      SmallestFirst(s, t);
      TailsAgree(s, t);
      OneAscendingOrder(s[1..], t[1..]);
      SameHeadAndTail(s, t);
    }
  }

  lemma TailsAgree(s: seq<real>, t: seq<real>)
    requires Ascending(s) && Ascending(t) && multiset(s) == multiset(t) && s != [] && t != [] && s[0] == t[0]
    ensures Ascending(s[1..]) && Ascending(t[1..]) && multiset(s[1..]) == multiset(t[1..])
  {
    HeadAndTail(s);
    HeadAndTail(t);
  }

  lemma SameHeadAndTail(s: seq<real>, t: seq<real>)
    requires s != [] && t != [] && s[0] == t[0] && s[1..] == t[1..]
    ensures s == t
  {
    assert s == [s[0]] + s[1..] && t == [t[0]] + t[1..];
  }

  // ---------- percentiles ----------

  function Ceiling(x: real): int {
    -(-x).Floor
  }

  function Rank(n: nat, p: real): int
    requires n > 0
  {
    var index := Ceiling(n as real * p) - 1;
    var atLeast := if index < 0 then 0 else index;
    if n - 1 < atLeast then n - 1 else atLeast
  }

  function Percentile(values: seq<real>, p: real): Option<real> {
    if values == [] then None
    else
      SortedIsSorted(values);
      Some(Sorted(values)[Rank(|values|, p)])
  }

  function AtMost(bound: real): real -> nat { (v: real) => if v <= bound then 1 else 0 }
  function AtLeast(bound: real): real -> nat { (v: real) => if v >= bound then 1 else 0 }

  lemma {:induction false} AllCounted(s: seq<real>, f: real -> nat)
    requires forall i | 0 <= i < |s| :: f(s[i]) == 1
    ensures Sum(s, f) == |s|
  {
    if s != [] {
      AllCounted(s[..|s| - 1], f);
    }
  }

  lemma SumOfParts<T>(s: seq<T>, i: nat, j: nat, f: T -> nat)
    requires i <= j <= |s|
    ensures Sum(s, f) == Sum(s[..i], f) + Sum(s[i..j], f) + Sum(s[j..], f)
  {
    assert s == s[..i] + s[i..j] + s[j..];
    SumConcat(s[..i] + s[i..j], s[j..], f);
    SumConcat(s[..i], s[i..j], f);
  }

  lemma PartCounted(s: seq<real>, i: nat, j: nat, f: real -> nat)
    requires i <= j <= |s| && forall k | i <= k < j :: f(s[k]) == 1
    ensures Sum(s, f) >= j - i
  {
    SumOfParts(s, i, j, f);
    AllCounted(s[i..j], f);
  }

  /** r has at least this many values not above it, and all but one less not below it. */
  predicate HasRank(values: seq<real>, r: real, c: int) {
    r in values && Sum(values, AtMost(r)) >= c && Sum(values, AtLeast(r)) >= |values| - c + 1
  }

  /** The percentile is one of the values; as many values as its rank, and one more, are not above it, and
      the others and itself are not below it. */
  lemma PercentileIsNearestRank(values: seq<real>, p: real, rank: nat)
    requires values != [] && rank == Rank(|values|, p)
    ensures HasRank(values, Percentile(values, p).value, rank + 1)
  {
    var s := Sorted(values);
    SortedIsSorted(values);
    SameMembers(s, values);
    var r := s[rank];
    PartCounted(s, 0, rank + 1, AtMost(r));
    PartCounted(s, rank, |s|, AtLeast(r));
    SumPermuted(s, values, AtMost(r));
    SumPermuted(s, values, AtLeast(r));
  }

  lemma RankIsCeiling(n: nat, p: real)
    requires n > 0 && 0.0 < p <= 1.0
    ensures 1 <= Ceiling(n as real * p) <= n && Rank(n, p) == Ceiling(n as real * p) - 1
  {
    assert 0.0 < n as real * p <= n as real;
  }

  /** For a percentile above zero and at most one, that rank is ceil(n * p) exactly. */
  lemma PercentileCounts(values: seq<real>, p: real, c: int)
    requires values != [] && 0.0 < p <= 1.0 && c == Ceiling(|values| as real * p)
    ensures HasRank(values, Percentile(values, p).value, c)
  {
    RankIsCeiling(|values|, p);
    PercentileIsNearestRank(values, p, c - 1);
  }

  /** The order of the values does not matter. */
  lemma PercentileIgnoresOrder(values: seq<real>, other: seq<real>, p: real)
    requires multiset(values) == multiset(other)
    ensures Percentile(values, p) == Percentile(other, p)
  {
    assert |values| == |multiset(values)| == |multiset(other)| == |other|;
    SortedIsSorted(values);
    SortedIsSorted(other);
    OneAscendingOrder(Sorted(values), Sorted(other));
  }

  lemma RankGrows(n: nat, p: real, q: real)
    requires n > 0 && p <= q
    ensures Rank(n, p) <= Rank(n, q)
  {
    assert n as real * p <= n as real * q;
  }

  /** Percentiles grow with p and are never above the maximum. */
  lemma PercentilesGrow(values: seq<real>, p: real, q: real)
    requires values != [] && p <= q
    ensures Percentile(values, p).value <= Percentile(values, q).value
    ensures exists top :: top in values && Percentile(values, q).value <= top && forall v | v in values :: v <= top
  {
    RankGrows(|values|, p, q);
    SortedIsSorted(values);
    var s := Sorted(values);
    SameMembers(s, values);
    var top := s[|s| - 1];
    assert top in values;
    forall v | v in values ensures v <= top {
      assert v in s;
    }
  }

  // ---------- outcomes ----------

  datatype Outcome = Outcome(
    executionOk: bool, qualityPassed: bool, requiredConstraints: int, correctConstraints: int,
    recommendations: int, violations: int, requiredEvidence: int, supportedEvidence: int, latency: Option<real>,
    tokens: Option<int>, cost: Option<real>
  )

  datatype Metrics = Metrics(
    successRate: real, executionRate: real, constraintAccuracy: Option<real>, violationRate: real,
    evidenceRecall: Option<real>, meanLatency: Option<real>, p50: Option<real>, p95: Option<real>,
    meanTokens: Option<real>, meanCost: Option<real>
  )

  function Total(outcomes: seq<Outcome>, f: Outcome -> int): int {
    if outcomes == [] then 0 else Total(outcomes[..|outcomes| - 1], f) + f(outcomes[|outcomes| - 1])
  }

  function Ratio(numerator: int, denominator: int): Option<real> {
    if denominator <= 0 then None else Some(numerator as real / denominator as real)
  }

  function Latencies(outcomes: seq<Outcome>): seq<real> {
    if outcomes == [] then []
    else
      var last := outcomes[|outcomes| - 1].latency;
      Latencies(outcomes[..|outcomes| - 1]) + if last.Some? then [last.value] else []
  }

  function TokenCounts(outcomes: seq<Outcome>): seq<real> {
    if outcomes == [] then []
    else
      var last := outcomes[|outcomes| - 1].tokens;
      TokenCounts(outcomes[..|outcomes| - 1]) + if last.Some? then [last.value as real] else []
  }

  function Costs(outcomes: seq<Outcome>): seq<real> {
    if outcomes == [] then []
    else
      var last := outcomes[|outcomes| - 1].cost;
      Costs(outcomes[..|outcomes| - 1]) + if last.Some? then [last.value] else []
  }

  function Added(values: seq<real>): real {
    if values == [] then 0.0 else Added(values[..|values| - 1]) + values[|values| - 1]
  }

  function Mean(values: seq<real>): Option<real> {
    if values == [] then None else Some(Added(values) / |values| as real)
  }

  function Indicator(f: Outcome -> bool): Outcome -> int {
    (o: Outcome) => if f(o) then 1 else 0
  }

  function AggregateQualityMetrics(outcomes: seq<Outcome>): Option<Metrics> {
    if outcomes == [] then None
    else
      var n := |outcomes| as real;
      var latency := Latencies(outcomes);
      Some(Metrics(
        Total(outcomes, Indicator((o: Outcome) => o.qualityPassed)) as real / n,
        Total(outcomes, Indicator((o: Outcome) => o.executionOk)) as real / n,
        Ratio(Total(outcomes, (o: Outcome) => o.correctConstraints), Total(outcomes, (o: Outcome) => o.requiredConstraints)),
        Ratio(Total(outcomes, (o: Outcome) => o.violations), Total(outcomes, (o: Outcome) => o.recommendations)).GetOr(0.0),
        Ratio(Total(outcomes, (o: Outcome) => o.supportedEvidence), Total(outcomes, (o: Outcome) => o.requiredEvidence)),
        Mean(latency), Percentile(latency, 0.5), Percentile(latency, 0.95), Mean(TokenCounts(outcomes)), Mean(Costs(outcomes))))
  }

  lemma {:induction false} TotalOrdered(outcomes: seq<Outcome>, f: Outcome -> int, g: Outcome -> int)
    requires forall o | o in outcomes :: f(o) <= g(o)
    ensures Total(outcomes, f) <= Total(outcomes, g)
  {
    if outcomes != [] {
      TotalOrdered(outcomes[..|outcomes| - 1], f, g);
      assert outcomes[|outcomes| - 1] in outcomes;
    }
  }

  /** If each task's success implies its execution, the success rate is at most the execution rate. */
  lemma SuccessNeedsExecution(outcomes: seq<Outcome>)
    requires outcomes != [] && forall o | o in outcomes :: o.qualityPassed ==> o.executionOk
    ensures AggregateQualityMetrics(outcomes).value.successRate <= AggregateQualityMetrics(outcomes).value.executionRate
  {
    var f, g := Indicator((o: Outcome) => o.qualityPassed), Indicator((o: Outcome) => o.executionOk);
    TotalOrdered(outcomes, f, g);
    DividedOrder(Total(outcomes, f) as real, Total(outcomes, g) as real, |outcomes| as real);
  }

  lemma DividedOrder(a: real, b: real, c: real)
    requires a <= b && c > 0.0
    ensures a / c <= b / c
  {
  }

  /** The median latency is at most the 95th percentile, and both are missing exactly when no task
      reports a latency. */
  lemma MedianBelowP95(outcomes: seq<Outcome>)
    requires outcomes != []
    ensures var m := AggregateQualityMetrics(outcomes).value;
            && (m.p50.None? <==> forall o | o in outcomes :: o.latency.None?) && (m.p95.None? <==> m.p50.None?)
            && (m.p50.Some? ==> m.p50.value <= m.p95.value)
  {
    var latency := Latencies(outcomes);
    NoLatencies(outcomes);
    if latency != [] {
      PercentilesGrow(latency, 0.5, 0.95);
    }
  }

  lemma {:induction false} NoLatencies(outcomes: seq<Outcome>)
    ensures Latencies(outcomes) == [] <==> forall o | o in outcomes :: o.latency.None?
  {
    if outcomes != [] {
      NoLatencies(outcomes[..|outcomes| - 1]);
      assert outcomes == outcomes[..|outcomes| - 1] + [outcomes[|outcomes| - 1]];
      assert outcomes[|outcomes| - 1] in outcomes;
    }
  }

  // ---------- the metrics, written out ----------

  function IntSum<T>(s: seq<T>, f: T -> int): int {
    if s == [] then 0 else f(s[0]) + IntSum(s[1..], f)
  }

  lemma {:induction false} IntSumAppend<T>(s: seq<T>, x: T, f: T -> int)
    ensures IntSum(s + [x], f) == IntSum(s, f) + f(x)
    decreases |s|
  {
    if s == [] {
      assert s + [x] == [x] && [x][1..] == [];
    } else {
      assert (s + [x])[1..] == s[1..] + [x];
      IntSumAppend(s[1..], x, f);
    }
  }

  lemma {:induction false} TotalIsSum(outcomes: seq<Outcome>, f: Outcome -> int)
    ensures Total(outcomes, f) == IntSum(outcomes, f)
    decreases |outcomes|
  {
    if outcomes != [] {
      var front, last := outcomes[..|outcomes| - 1], outcomes[|outcomes| - 1];
      TotalIsSum(front, f);
      assert outcomes == front + [last];
      IntSumAppend(front, last, f);
    }
  }

  lemma {:induction false} SameIntSum<T>(s: seq<T>, f: T -> int, g: T -> int)
    requires forall x :: f(x) == g(x)
    ensures IntSum(s, f) == IntSum(s, g)
  {
    if s != [] {
      SameIntSum(s[1..], f, g);
    }
  }

  lemma TotalIs(outcomes: seq<Outcome>, f: Outcome -> int, g: Outcome -> int)
    requires forall o :: f(o) == g(o)
    ensures Total(outcomes, f) == IntSum(outcomes, g)
  {
    TotalIsSum(outcomes, f);
    SameIntSum(outcomes, f, g);
  }

  function Passed(): Outcome -> int { (o: Outcome) => if o.qualityPassed then 1 else 0 }
  function Executed(): Outcome -> int { (o: Outcome) => if o.executionOk then 1 else 0 }
  function Correct(): Outcome -> int { (o: Outcome) => o.correctConstraints }
  function Required(): Outcome -> int { (o: Outcome) => o.requiredConstraints }
  function Violations(): Outcome -> int { (o: Outcome) => o.violations }
  function Recommended(): Outcome -> int { (o: Outcome) => o.recommendations }
  function Supported(): Outcome -> int { (o: Outcome) => o.supportedEvidence }
  function Needed(): Outcome -> int { (o: Outcome) => o.requiredEvidence }

  /** x is the ratio of two sums over the outcomes, and missing if the second is not positive. */
  predicate IsRatio(outcomes: seq<Outcome>, x: Option<real>, part: Outcome -> int, whole: Outcome -> int) {
    var p, w := IntSum(outcomes, part), IntSum(outcomes, whole);
    x == if w > 0 then Some(p as real / w as real) else None
  }

  lemma RatioIs(outcomes: seq<Outcome>, f: Outcome -> int, g: Outcome -> int, part: Outcome -> int, whole: Outcome -> int)
    requires forall o :: f(o) == part(o) && g(o) == whole(o)
    ensures IsRatio(outcomes, Ratio(Total(outcomes, f), Total(outcomes, g)), part, whole)
  {
    TotalIs(outcomes, f, part);
    TotalIs(outcomes, g, whole);
  }

  /** Success and execution rates are shares of the tasks; the other three are ratios of sums, the violation
      rate being zero when nothing was recommended. */
  lemma RatesAre(outcomes: seq<Outcome>)
    requires outcomes != []
    ensures AggregateQualityMetrics(outcomes).Some?
    ensures var m, n := AggregateQualityMetrics(outcomes).value, |outcomes| as real;
            && m.successRate == IntSum(outcomes, Passed()) as real / n
            && m.executionRate == IntSum(outcomes, Executed()) as real / n
            && IsRatio(outcomes, m.constraintAccuracy, Correct(), Required())
            && (m.violationRate == 0.0 || IsRatio(outcomes, Some(m.violationRate), Violations(), Recommended()))
            && (IntSum(outcomes, Recommended()) > 0 ==> IsRatio(outcomes, Some(m.violationRate), Violations(), Recommended()))
            && IsRatio(outcomes, m.evidenceRecall, Supported(), Needed())
  {
    TotalIs(outcomes, Indicator((o: Outcome) => o.qualityPassed), Passed());
    TotalIs(outcomes, Indicator((o: Outcome) => o.executionOk), Executed());
    RatioIs(outcomes, (o: Outcome) => o.correctConstraints, (o: Outcome) => o.requiredConstraints, Correct(), Required());
    RatioIs(outcomes, (o: Outcome) => o.violations, (o: Outcome) => o.recommendations, Violations(), Recommended());
    RatioIs(outcomes, (o: Outcome) => o.supportedEvidence, (o: Outcome) => o.requiredEvidence, Supported(), Needed());
  }

  function HasLatency(): Outcome -> bool { (o: Outcome) => o.latency.Some? }
  function LatencyOf(): Outcome -> real { (o: Outcome) => o.latency.GetOr(0.0) }
  function HasTokens(): Outcome -> bool { (o: Outcome) => o.tokens.Some? }
  function TokensOf(): Outcome -> real { (o: Outcome) => o.tokens.GetOr(0) as real }
  function HasCost(): Outcome -> bool { (o: Outcome) => o.cost.Some? }
  function CostOf(): Outcome -> real { (o: Outcome) => o.cost.GetOr(0.0) }

  lemma ReportedAppend(front: seq<Outcome>, last: Outcome, has: Outcome -> bool, of: Outcome -> real)
    ensures Map(Filter(front + [last], has), of) == Map(Filter(front, has), of) + if has(last) then [of(last)] else []
  {
    FilterAppend(front, last, has);
    MapConcat(Filter(front, has), if has(last) then [last] else [], of);
    MapOne(last, of);
  }

  lemma {:induction false} LatenciesAre(outcomes: seq<Outcome>)
    ensures Latencies(outcomes) == Map(Filter(outcomes, HasLatency()), LatencyOf())
    decreases |outcomes|
  {
    if outcomes != [] {
      var front, last := outcomes[..|outcomes| - 1], outcomes[|outcomes| - 1];
      LatenciesAre(front);
      assert outcomes == front + [last];
      ReportedAppend(front, last, HasLatency(), LatencyOf());
    }
  }

  lemma {:induction false} TokenCountsAre(outcomes: seq<Outcome>)
    ensures TokenCounts(outcomes) == Map(Filter(outcomes, HasTokens()), TokensOf())
    decreases |outcomes|
  {
    if outcomes != [] {
      var front, last := outcomes[..|outcomes| - 1], outcomes[|outcomes| - 1];
      TokenCountsAre(front);
      assert outcomes == front + [last];
      ReportedAppend(front, last, HasTokens(), TokensOf());
    }
  }

  lemma {:induction false} CostsAre(outcomes: seq<Outcome>)
    ensures Costs(outcomes) == Map(Filter(outcomes, HasCost()), CostOf())
    decreases |outcomes|
  {
    if outcomes != [] {
      var front, last := outcomes[..|outcomes| - 1], outcomes[|outcomes| - 1];
      CostsAre(front);
      assert outcomes == front + [last];
      ReportedAppend(front, last, HasCost(), CostOf());
    }
  }

  function RealSum(values: seq<real>): real {
    if values == [] then 0.0 else values[0] + RealSum(values[1..])
  }

  lemma {:induction false} RealSumAppend(values: seq<real>, x: real)
    ensures RealSum(values + [x]) == RealSum(values) + x
    decreases |values|
  {
    if values == [] {
      assert values + [x] == [x] && [x][1..] == [];
    } else {
      assert (values + [x])[1..] == values[1..] + [x];
      RealSumAppend(values[1..], x);
    }
  }

  lemma {:induction false} AddedIs(values: seq<real>)
    ensures Added(values) == RealSum(values)
    decreases |values|
  {
    if values != [] {
      var front, last := values[..|values| - 1], values[|values| - 1];
      AddedIs(front);
      assert values == front + [last];
      RealSumAppend(front, last);
    }
  }

  /** x is the mean of the values, and missing without any. */
  predicate IsMean(values: seq<real>, x: Option<real>) {
    x == if values == [] then None else Some(RealSum(values) / |values| as real)
  }

  lemma MeanIs(values: seq<real>)
    ensures IsMean(values, Mean(values))
  {
    AddedIs(values);
  }

  /** Means are over the tasks that report a value. */
  lemma MeansAre(outcomes: seq<Outcome>)
    requires outcomes != []
    ensures var m := AggregateQualityMetrics(outcomes).value;
            && IsMean(Map(Filter(outcomes, HasLatency()), LatencyOf()), m.meanLatency)
            && IsMean(Map(Filter(outcomes, HasTokens()), TokensOf()), m.meanTokens)
            && IsMean(Map(Filter(outcomes, HasCost()), CostOf()), m.meanCost)
  {
    LatenciesAre(outcomes);
    TokenCountsAre(outcomes);
    CostsAre(outcomes);
    MeanIs(Latencies(outcomes));
    MeanIs(TokenCounts(outcomes));
    MeanIs(Costs(outcomes));
  }

  /** x has the rank among the values, or is missing without any. */
  predicate IsRanked(values: seq<real>, x: Option<real>, rank: int) {
    if values == [] then x == None else x.Some? && HasRank(values, x.value, rank)
  }

  lemma HalfIsRanked(values: seq<real>)
    ensures IsRanked(values, Percentile(values, 0.5), (|values| + 1) / 2)
  {
    if values != [] {
      CeilingOfHalf(|values|);
      PercentileCounts(values, 0.5, (|values| + 1) / 2);
    }
  }

  lemma MostIsRanked(values: seq<real>)
    ensures IsRanked(values, Percentile(values, 0.95), (95 * |values| + 99) / 100)
  {
    if values != [] {
      CeilingOfMost(|values|);
      PercentileCounts(values, 0.95, (95 * |values| + 99) / 100);
    }
  }

  /** The median of the reported latencies has rank ceil(n / 2), the other percentile rank ceil(n * 95 / 100). */
  lemma PercentilesAre(outcomes: seq<Outcome>, latency: seq<real>)
    requires outcomes != [] && latency == Map(Filter(outcomes, HasLatency()), LatencyOf())
    ensures var m := AggregateQualityMetrics(outcomes).value;
            && IsRanked(latency, m.p50, (|latency| + 1) / 2) && IsRanked(latency, m.p95, (95 * |latency| + 99) / 100)
  {
    LatenciesAre(outcomes);
    HalfIsRanked(latency);
    MostIsRanked(latency);
  }

  lemma CeilingOfHalf(n: nat)
    ensures Ceiling(n as real * 0.5) == (n + 1) / 2
  {
  }

  lemma CeilingOfMost(n: nat)
    ensures Ceiling(n as real * 0.95) == (95 * n + 99) / 100
  {
  }
}

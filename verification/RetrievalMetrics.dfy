/** Ranked retrieval metrics over evidence ids: hit, recall and reciprocal rank at k, and their averages. */
module RetrievalMetrics {
  import opened Sequences
  import opened Text

  datatype Case = Case(hit: real, recall: real, reciprocalRank: real)
  datatype Error = KNotPositive | NothingRelevant | NoCases

  function Normalized(values: seq<Option<string>>): seq<string> {
    if values == [] then []
    else
      var last := values[|values| - 1];
      Normalized(values[..|values| - 1]) + if last.Some? && Strip(last.value) != "" then [Strip(last.value)] else []
  }

  function Top(ranked: seq<string>, k: nat): seq<string> {
    if k < |ranked| then ranked[..k] else ranked
  }

  function IdSet(s: seq<string>): set<string> { set x | x in s }

  function Hits(top: seq<string>, relevant: set<string>): seq<string> {
    if top == [] then []
    else (if top[0] in relevant then [top[0]] else []) + Hits(top[1..], relevant)
  }

  /** The position, from one, of the first relevant id. */
  function FirstRank(top: seq<string>, relevant: set<string>): Option<nat> {
    if top == [] then None
    else if top[0] in relevant then Some(1)
    else
      match FirstRank(top[1..], relevant)
      case None => None
      case Some(n) => Some(n + 1)
  }

  function HitOf(top: seq<string>, relevant: set<string>): real {
    if Hits(top, relevant) != [] then 1.0 else 0.0
  }

  function Share(part: nat, whole: nat): real
    requires whole > 0
  {
    part as real / whole as real
  }

  function RecallOf(top: seq<string>, relevant: set<string>): real
    requires relevant != {}
  {
    Share(|IdSet(Hits(top, relevant))|, |relevant|)
  }

  function RankOf(top: seq<string>, relevant: set<string>): real {
    var rank := FirstRank(top, relevant);
    if rank.None? || rank.value == 0 then 0.0 else Share(1, rank.value)
  }

  function Scores(ranked: seq<string>, relevant: set<string>, k: nat): Case
    requires relevant != {}
  {
    var top := Top(ranked, k);
    Case(HitOf(top, relevant), RecallOf(top, relevant), RankOf(top, relevant))
  }

  function EvaluateRetrievalCase(retrieved: seq<Option<string>>, relevant: seq<Option<string>>, k: int): Result<Case, Error> {
    if k <= 0 then Err(KNotPositive)
    else
      var ids := IdSet(Normalized(relevant));
      if ids == {} then Err(NothingRelevant) else Ok(Scores(Normalized(retrieved), ids, k))
  }

  // ---------- an independent reading of the scores ----------

  predicate RelevantAt(ranked: seq<string>, relevant: set<string>, i: nat) {
    i < |ranked| && ranked[i] in relevant
  }

  lemma {:induction false} HitsAre(top: seq<string>, relevant: set<string>)
    ensures IdSet(Hits(top, relevant)) == IdSet(top) * relevant
  {
    if top != [] {
      HitsAre(top[1..], relevant);
      assert top == [top[0]] + top[1..];
      assert IdSet(top) == {top[0]} + IdSet(top[1..]);
      var more := Hits(top[1..], relevant);
      assert IdSet([top[0]] + more) == {top[0]} + IdSet(more);
      assert [] + more == more;
    }
  }

  lemma SomeHit(top: seq<string>, relevant: set<string>)
    ensures Hits(top, relevant) != [] <==> exists i: nat :: RelevantAt(top, relevant, i)
  {
    var hits := Hits(top, relevant);
    HitsAre(top, relevant);
    if hits != [] {
      assert hits[0] in IdSet(hits);
      var i :| 0 <= i < |top| && top[i] == hits[0];
      assert RelevantAt(top, relevant, i);
    }
    if i: nat :| RelevantAt(top, relevant, i) {
      assert top[i] in IdSet(hits);
    }
  }

  lemma {:induction false} FirstRankIs(top: seq<string>, relevant: set<string>)
    ensures var rank := FirstRank(top, relevant);
            if rank.Some? then
              && rank.value > 0 && RelevantAt(top, relevant, rank.value - 1)
              && forall i: nat | i < rank.value - 1 :: !RelevantAt(top, relevant, i)
            else forall i: nat :: !RelevantAt(top, relevant, i)
  {
    if top != [] {
      FirstRankIs(top[1..], relevant);
      if top[0] !in relevant {
        var rank := FirstRank(top[1..], relevant);
        forall i: nat | (rank.Some? ==> i < rank.value) ensures !RelevantAt(top, relevant, i) {
          if i > 0 {
            assert !RelevantAt(top[1..], relevant, i - 1);
          }
        }
      }
    }
  }

  lemma Fewer<T>(a: set<T>, b: set<T>)
    requires a <= b
    ensures |a| <= |b|
    ensures |a| == |b| ==> a == b
  {
    assert b == a + (b - a);
  }

  lemma DivideBoth(a: real, b: real, c: real)
    requires a <= b && c > 0.0
    ensures a / c <= b / c
  {
  }

  lemma ShareBounds(part: nat, whole: nat)
    requires part <= whole && whole > 0
    ensures 0.0 <= Share(part, whole) <= 1.0
    ensures Share(part, whole) == 1.0 <==> part == whole
    ensures Share(part, whole) > 0.0 <==> part > 0
    ensures Share(part, whole) * whole as real == part as real
  {
  }

  /** The recall is the share of relevant ids in the list; it is one exactly when all are there. */
  lemma RecallIs(top: seq<string>, relevant: set<string>)
    requires relevant != {}
    ensures RecallOf(top, relevant) == Share(|IdSet(top) * relevant|, |relevant|)
    ensures 0.0 <= RecallOf(top, relevant) <= 1.0
    ensures RecallOf(top, relevant) == 1.0 <==> relevant <= IdSet(top)
    ensures RecallOf(top, relevant) > 0.0 <==> HitOf(top, relevant) == 1.0
  {
    var found := IdSet(top) * relevant;
    HitsAre(top, relevant);
    Fewer(found, relevant);
    ShareBounds(|found|, |relevant|);
    assert relevant <= IdSet(top) <==> found == relevant;
    var hits := Hits(top, relevant);
    if hits != [] {
      assert hits[0] in IdSet(hits);
    } else {
      assert IdSet(hits) == {};
    }
  }

  lemma RankIs(top: seq<string>, relevant: set<string>)
    ensures 0.0 <= RankOf(top, relevant) <= 1.0
    ensures RankOf(top, relevant) > 0.0 <==> HitOf(top, relevant) == 1.0
  {
    SomeHit(top, relevant);
    FirstRankIs(top, relevant);
    var rank := FirstRank(top, relevant);
    if rank.Some? {
      ShareBounds(1, rank.value);
    }
  }

  /** Recall and reciprocal rank are at most the hit, which is one exactly when either is positive. */
  lemma ScoresAreOrdered(ranked: seq<string>, relevant: set<string>, k: nat)
    requires relevant != {}
    ensures Ordered(Scores(ranked, relevant, k))
    ensures var s := Scores(ranked, relevant, k);
            (s.hit == 1.0 <==> s.recall > 0.0) && (s.hit == 1.0 <==> s.reciprocalRank > 0.0) && (s.hit == 0.0 || s.hit == 1.0)
  {
    RecallIs(Top(ranked, k), relevant);
    RankIs(Top(ranked, k), relevant);
  }

  predicate Ordered(c: Case) {
    0.0 <= c.recall <= c.hit <= 1.0 && 0.0 <= c.reciprocalRank <= c.hit
  }

  predicate NotWorse(a: Case, b: Case) {
    a.hit <= b.hit && a.recall <= b.recall && a.reciprocalRank <= b.reciprocalRank
  }

  // ---------- looking further, and dropping repeats ----------

  /** Every id of the first list occurs in the second, no later. */
  predicate Earlier(a: seq<string>, b: seq<string>) {
    forall i | 0 <= i < |a| :: OccursBy(b, a[i], i)
  }

  predicate OccursBy(b: seq<string>, id: string, i: nat) {
    exists j | 0 <= j < |b| && j <= i :: b[j] == id
  }

  lemma EarlierShowsMore(x: seq<string>, y: seq<string>)
    requires Earlier(x, y)
    ensures IdSet(x) <= IdSet(y)
  {
    forall id | id in x ensures id in y {
      var i :| 0 <= i < |x| && x[i] == id;
      assert OccursBy(y, x[i], i);
    }
  }

  lemma EarlierRecallsMore(x: seq<string>, y: seq<string>, relevant: set<string>)
    requires relevant != {} && Earlier(x, y)
    ensures RecallOf(x, relevant) <= RecallOf(y, relevant) && HitOf(x, relevant) <= HitOf(y, relevant)
  {
    RecallIs(x, relevant);
    RecallIs(y, relevant);
    EarlierShowsMore(x, y);
    Fewer(IdSet(x) * relevant, IdSet(y) * relevant);
    DivideBoth(|IdSet(x) * relevant| as real, |IdSet(y) * relevant| as real, |relevant| as real);
  }

  lemma EarlierRanksHigher(x: seq<string>, y: seq<string>, relevant: set<string>)
    requires Earlier(x, y)
    ensures RankOf(x, relevant) <= RankOf(y, relevant)
  {
    FirstRankIs(x, relevant);
    FirstRankIs(y, relevant);
    RankIs(y, relevant);
    var rank := FirstRank(x, relevant);
    if rank.Some? {
      assert OccursBy(y, x[rank.value - 1], rank.value - 1);
      var j :| 0 <= j < |y| && j <= rank.value - 1 && y[j] == x[rank.value - 1];
      assert RelevantAt(y, relevant, j);
      RankDivides(FirstRank(y, relevant).value, rank.value);
    }
  }

  lemma NonNegativeFactor(p: real, d: real)
    requires d > 0.0 && p * d >= 0.0
    ensures p >= 0.0
  {
  }

  lemma LargerFactor(y: real, c: real, d: real)
    requires y >= 0.0 && c <= d
    ensures y * c <= y * d
  {
  }

  lemma RankDivides(m: nat, n: nat)
    requires 0 < m <= n
    ensures Share(1, n) <= Share(1, m)
  {
    var x, y := Share(1, n), Share(1, m);
    ShareBounds(1, n);
    ShareBounds(1, m);
    LargerFactor(y, m as real, n as real);
    assert (y - x) * n as real == y * n as real - x * n as real;
    NonNegativeFactor(y - x, n as real);
  }

  /** A ranking that shows the same ids no later scores no worse. */
  lemma EarlierIsNotWorse(a: seq<string>, b: seq<string>, relevant: set<string>, k: nat, m: nat)
    requires relevant != {} && Earlier(Top(a, k), Top(b, m))
    ensures NotWorse(Scores(a, relevant, k), Scores(b, relevant, m))
  {
    EarlierRecallsMore(Top(a, k), Top(b, m), relevant);
    EarlierRanksHigher(Top(a, k), Top(b, m), relevant);
  }

  /** All three scores grow with k. */
  lemma LookingFurtherIsNotWorse(ranked: seq<string>, relevant: set<string>, k: nat, m: nat)
    requires relevant != {} && k <= m
    ensures NotWorse(Scores(ranked, relevant, k), Scores(ranked, relevant, m))
  {
    var x, y := Top(ranked, k), Top(ranked, m);
    forall i | 0 <= i < |x| ensures OccursBy(y, x[i], i) {
      assert y[i] == x[i];
    }
    EarlierIsNotWorse(ranked, ranked, relevant, k, m);
  }

  /** A case is scored exactly when k is positive and something relevant is left after stripping; then its
      scores are ordered, and a larger k scores no worse. */
  lemma EvaluationGrowsWithK(retrieved: seq<Option<string>>, relevant: seq<Option<string>>, k: int, m: int)
    requires k <= m
    ensures var a, b := EvaluateRetrievalCase(retrieved, relevant, k), EvaluateRetrievalCase(retrieved, relevant, m);
            && (a.Ok? <==> k > 0 && Normalized(relevant) != [])
            && (a.Ok? ==> Ordered(a.value) && b.Ok? && NotWorse(a.value, b.value))
  {
    var names := Normalized(relevant);
    if k > 0 && names != [] {
      assert names[0] in IdSet(names);
      ScoresAreOrdered(Normalized(retrieved), IdSet(names), k);
      LookingFurtherIsNotWorse(Normalized(retrieved), IdSet(names), k, m);
    }
  }

  /** Each id once, where it first occurs. */
  function Unrepeated(ranked: seq<string>): seq<string> {
    if ranked == [] then []
    else
      var front, last := Unrepeated(ranked[..|ranked| - 1]), ranked[|ranked| - 1];
      if last in front then front else front + [last]
  }

  lemma {:induction false} UnrepeatedIsEarlier(ranked: seq<string>)
    ensures |Unrepeated(ranked)| <= |ranked|
    ensures Earlier(ranked, Unrepeated(ranked))
  {
    if ranked != [] {
      var n := |ranked| - 1;
      var front, all := Unrepeated(ranked[..n]), Unrepeated(ranked);
      UnrepeatedIsEarlier(ranked[..n]);
      forall i | 0 <= i < |ranked| ensures OccursBy(all, ranked[i], i) {
        if i < n {
          assert ranked[i] == ranked[..n][i] && OccursBy(front, ranked[..n][i], i);
          var j :| 0 <= j < |front| && j <= i && front[j] == ranked[i];
          assert all[j] == ranked[i];
        } else if ranked[n] in front {
          var j :| 0 <= j < |front| && front[j] == ranked[n];
          assert all[j] == ranked[n];
        } else {
          assert all[|front|] == ranked[n];
        }
      }
    }
  }

  lemma EarlierAtTop(a: seq<string>, b: seq<string>, k: nat)
    requires Earlier(a, b)
    ensures Earlier(Top(a, k), Top(b, k))
  {
    forall i | 0 <= i < |Top(a, k)| ensures OccursBy(Top(b, k), Top(a, k)[i], i) {
      assert OccursBy(b, a[i], i);
      var j :| 0 <= j < |b| && j <= i && b[j] == a[i];
      assert Top(b, k)[j] == a[i];
    }
  }

  /** Repeated ids can only take up places: dropping them lowers no score. */
  lemma DroppingRepeatsIsNotWorse(ranked: seq<string>, relevant: set<string>, k: nat)
    requires relevant != {}
    ensures NotWorse(Scores(ranked, relevant, k), Scores(Unrepeated(ranked), relevant, k))
  {
    UnrepeatedIsEarlier(ranked);
    EarlierAtTop(ranked, Unrepeated(ranked), k);
    EarlierIsNotWorse(ranked, Unrepeated(ranked), relevant, k, k);
  }

  // ---------- averages ----------

  function Total(cases: seq<Case>): Case {
    if cases == [] then Case(0.0, 0.0, 0.0)
    else
      var front, last := Total(cases[..|cases| - 1]), cases[|cases| - 1];
      Case(front.hit + last.hit, front.recall + last.recall, front.reciprocalRank + last.reciprocalRank)
  }

  function AggregateRetrievalMetrics(cases: seq<Case>): Result<Case, Error> {
    if cases == [] then Err(NoCases)
    else
      var total, n := Total(cases), |cases| as real;
      Ok(Case(total.hit / n, total.recall / n, total.reciprocalRank / n))
  }

  lemma {:induction false} TotalsAreOrdered(cases: seq<Case>)
    requires forall c | c in cases :: Ordered(c)
    ensures var t := Total(cases);
            0.0 <= t.recall <= t.hit <= |cases| as real && 0.0 <= t.reciprocalRank <= t.hit
  {
    if cases != [] {
      TotalsAreOrdered(cases[..|cases| - 1]);
      assert cases[|cases| - 1] in cases;
    }
  }

  /** Averaging keeps the order of the three scores. */
  lemma AveragesAreOrdered(cases: seq<Case>)
    requires cases != [] && forall c | c in cases :: Ordered(c)
    ensures Ordered(AggregateRetrievalMetrics(cases).value)
  {
    TotalsAreOrdered(cases);
    var t, n := Total(cases), |cases| as real;
    DivideBoth(t.recall, t.hit, n);
    DivideBoth(t.reciprocalRank, t.hit, n);
    DivideBoth(t.hit, n, n);
    DivideBoth(0.0, t.recall, n);
    DivideBoth(0.0, t.reciprocalRank, n);
  }

  lemma {:induction false} TotalsAreNotWorse(a: seq<Case>, b: seq<Case>)
    requires |a| == |b| && forall i | 0 <= i < |a| :: NotWorse(a[i], b[i])
    ensures NotWorse(Total(a), Total(b))
  {
    if a != [] {
      TotalsAreNotWorse(a[..|a| - 1], b[..|b| - 1]);
    }
  }

  /** If no case is worse, no average is. */
  lemma AveragesAreNotWorse(a: seq<Case>, b: seq<Case>)
    requires a != [] && |a| == |b| && forall i | 0 <= i < |a| :: NotWorse(a[i], b[i])
    ensures NotWorse(AggregateRetrievalMetrics(a).value, AggregateRetrievalMetrics(b).value)
  {
    TotalsAreNotWorse(a, b);
    var s, t, n := Total(a), Total(b), |a| as real;
    DivideBoth(s.hit, t.hit, n);
    DivideBoth(s.recall, t.recall, n);
    DivideBoth(s.reciprocalRank, t.reciprocalRank, n);
  }

  // ---------- the scores, written out ----------

  /** An id that is there and not blank. */
  function IsId(): Option<string> -> bool { (v: Option<string>) => v.Some? && Strip(v.value) != "" }
  function IdText(): Option<string> -> string { (v: Option<string>) => Strip(v.GetOr("")) }

  /** The ids of a list: the stripped texts of its values that are there and not blank, in order. */
  function Ids(values: seq<Option<string>>): seq<string> {
    Map(Filter(values, IsId()), IdText())
  }

  lemma {:induction false} NormalizedAre(values: seq<Option<string>>)
    ensures Normalized(values) == Ids(values)
    decreases |values|
  {
    if values != [] {
      var front, last := values[..|values| - 1], values[|values| - 1];
      NormalizedAre(front);
      assert values == front + [last];
      FilterAppend(front, last, IsId());
      MapConcat(Filter(front, IsId()), if IsId()(last) then [last] else [], IdText());
      MapOne(last, IdText());
    }
  }

  /** Place i, counted from zero, is that of the first relevant id, and among the first k. */
  predicate FirstAt(ranked: seq<string>, relevant: set<string>, k: nat, i: nat) {
    i < |ranked| && i < k && ranked[i] in relevant && forall j | 0 <= j < i :: ranked[j] !in relevant
  }

  predicate NoneAmong(ranked: seq<string>, relevant: set<string>, k: nat) {
    forall i | 0 <= i < |ranked| && i < k :: ranked[i] !in relevant
  }

  lemma RankAtTop(ranked: seq<string>, relevant: set<string>, k: nat)
    ensures match FirstRank(Top(ranked, k), relevant)
            case None => NoneAmong(ranked, relevant, k)
            case Some(n) => n > 0 && FirstAt(ranked, relevant, k, n - 1)
  {
    var top := Top(ranked, k);
    FirstRankIs(top, relevant);
    match FirstRank(top, relevant)
    case None =>
      forall i | 0 <= i < |ranked| && i < k ensures ranked[i] !in relevant {
        assert !RelevantAt(top, relevant, i);
      }
    case Some(n) =>
      assert RelevantAt(top, relevant, n - 1);
      forall j | 0 <= j < n - 1 ensures ranked[j] !in relevant {
        assert !RelevantAt(top, relevant, j);
      }
  }

  lemma ReciprocalRankIs(ranked: seq<string>, relevant: set<string>, k: nat, i: nat)
    ensures FirstAt(ranked, relevant, k, i) ==> RankOf(Top(ranked, k), relevant) == 1.0 / (i + 1) as real
    ensures NoneAmong(ranked, relevant, k) ==> RankOf(Top(ranked, k), relevant) == 0.0
  {
    RankAtTop(ranked, relevant, k);
    if FirstAt(ranked, relevant, k, i) {
      var rank := FirstRank(Top(ranked, k), relevant).value;
      assert FirstAt(ranked, relevant, k, rank - 1);
      assert rank == i + 1;
    }
  }

  lemma HitIs(ranked: seq<string>, relevant: set<string>, k: nat)
    ensures HitOf(Top(ranked, k), relevant) == if NoneAmong(ranked, relevant, k) then 0.0 else 1.0
  {
    var top := Top(ranked, k);
    SomeHit(top, relevant);
    if i :| 0 <= i < |ranked| && i < k && ranked[i] in relevant {
      assert RelevantAt(top, relevant, i);
    }
    if i: nat :| RelevantAt(top, relevant, i) {
      assert i < k && ranked[i] in relevant;
    }
  }

  lemma CaseSucceeds(retrieved: seq<Option<string>>, relevant: seq<Option<string>>, k: int)
    ensures var r := EvaluateRetrievalCase(retrieved, relevant, k);
            if k <= 0 then r == Err(KNotPositive)
            else if IdSet(Ids(relevant)) == {} then r == Err(NothingRelevant)
            else r == Ok(Scores(Ids(retrieved), IdSet(Ids(relevant)), k))
  {
    NormalizedAre(retrieved);
    NormalizedAre(relevant);
  }

  /** A case is scored exactly when k is positive and some relevant id is given: the hit is whether one is
      among the first k ids, the recall the share of them that are, and the reciprocal rank one over the
      place of the first, counted from one. */
  lemma CaseIs(retrieved: seq<Option<string>>, relevant: seq<Option<string>>, k: int, i: nat)
    ensures var r, ranked, ids := EvaluateRetrievalCase(retrieved, relevant, k), Ids(retrieved), IdSet(Ids(relevant));
            if k <= 0 then r == Err(KNotPositive)
            else if ids == {} then r == Err(NothingRelevant)
            else
              && r.Ok? && r.value.hit == (if NoneAmong(ranked, ids, k) then 0.0 else 1.0)
              && r.value.recall == |IdSet(ranked[..Min(k, |ranked|)]) * ids| as real / |ids| as real
              && (FirstAt(ranked, ids, k, i) ==> r.value.reciprocalRank == 1.0 / (i + 1) as real)
              && (NoneAmong(ranked, ids, k) ==> r.value.reciprocalRank == 0.0)
  {
    CaseSucceeds(retrieved, relevant, k);
    if k > 0 && IdSet(Ids(relevant)) != {} {
      ScoresAre(Ids(retrieved), IdSet(Ids(relevant)), k, i);
    }
  }

  lemma ScoresAre(ranked: seq<string>, ids: set<string>, k: nat, i: nat)
    requires k > 0 && ids != {}
    ensures var scores := Scores(ranked, ids, k);
            && scores.hit == (if NoneAmong(ranked, ids, k) then 0.0 else 1.0)
            && scores.recall == |IdSet(ranked[..Min(k, |ranked|)]) * ids| as real / |ids| as real
            && (FirstAt(ranked, ids, k, i) ==> scores.reciprocalRank == 1.0 / (i + 1) as real)
            && (NoneAmong(ranked, ids, k) ==> scores.reciprocalRank == 0.0)
  {
    HitIs(ranked, ids, k);
    ReciprocalRankIs(ranked, ids, k, i);
    RecallIs(Top(ranked, k), ids);
    assert Top(ranked, k) == ranked[..Min(k, |ranked|)];
  }

  function Min(a: int, b: int): int { if a < b then a else b }

  function RealSum<T>(s: seq<T>, f: T -> real): real {
    if s == [] then 0.0 else f(s[0]) + RealSum(s[1..], f)
  }

  lemma {:induction false} RealSumAppend<T>(s: seq<T>, x: T, f: T -> real)
    ensures RealSum(s + [x], f) == RealSum(s, f) + f(x)
    decreases |s|
  {
    if s == [] {
      assert s + [x] == [x] && [x][1..] == [];
    } else {
      assert (s + [x])[1..] == s[1..] + [x];
      RealSumAppend(s[1..], x, f);
    }
  }

  function HitScore(): Case -> real { (c: Case) => c.hit }
  function RecallScore(): Case -> real { (c: Case) => c.recall }
  function RankScore(): Case -> real { (c: Case) => c.reciprocalRank }

  lemma {:induction false} TotalIs(cases: seq<Case>)
    ensures Total(cases) == Case(RealSum(cases, HitScore()), RealSum(cases, RecallScore()), RealSum(cases, RankScore()))
    decreases |cases|
  {
    if cases != [] {
      var front, last := cases[..|cases| - 1], cases[|cases| - 1];
      TotalIs(front);
      assert cases == front + [last];
      RealSumAppend(front, last, HitScore());
      RealSumAppend(front, last, RecallScore());
      RealSumAppend(front, last, RankScore());
    }
  }

  /** Each average is the sum of that score over the cases, divided by their number. */
  lemma AveragesAre(cases: seq<Case>)
    ensures if cases == [] then AggregateRetrievalMetrics(cases) == Err(NoCases)
            else
              var n := |cases| as real;
              AggregateRetrievalMetrics(cases)
              == Ok(Case(RealSum(cases, HitScore()) / n, RealSum(cases, RecallScore()) / n, RealSum(cases, RankScore()) / n))
  {
    TotalIs(cases);
  }
}

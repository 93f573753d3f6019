/** What a seed report says: every presented row is counted once, insertions are the growth of the tables,
    and the totals of a run over several files. */
module SeedCounts {
  import opened CatalogSeed
  import opened SeedLaws
  import opened SeedGuarantees
  import opened Sequences

  function Counted(report: Counts, kind: Kind, outcome: Outcome): nat {
    match outcome
    case Inserted => Tally(report.inserted, kind)
    case Updated => Tally(report.updated, kind)
    case Skipped => Tally(report.skipped, kind)
  }

  /** How many of these rows are of this kind and come to this outcome. */
  function Happened(c: Catalog, rows: seq<Presented>, replace: bool, kind: Kind, outcome: Outcome): nat {
    if rows == [] then 0
    else
      var front, last := rows[..|rows| - 1], rows[|rows| - 1];
      var before := UpsertAll(c, front, replace);
      Happened(c, front, replace, kind, outcome)
      + if KindOf(last.key) == kind && OutcomeOf(before, last.key, last.source, replace) == outcome then 1 else 0
  }

  lemma CountAdds(report: Counts, kind: Kind, outcome: Outcome, k: Kind, o: Outcome)
    ensures Counted(Count(report, kind, outcome), k, o)
         == Counted(report, k, o) + if k == kind && o == outcome then 1 else 0
  {
  }

  lemma {:induction false} ReportOfRows(s: Seeding, rows: seq<Presented>, replace: bool, kind: Kind, outcome: Outcome)
    ensures Counted(PresentAll(Presenting(replace), s, rows).report, kind, outcome)
         == Counted(s.report, kind, outcome) + Happened(s.catalog, rows, replace, kind, outcome)
  {
    if rows != [] {
      var front, last := rows[..|rows| - 1], rows[|rows| - 1];
      ReportOfRows(s, front, replace, kind, outcome);
      CatalogOfPresentAll(s, front, replace);
      var before := PresentAll(Presenting(replace), s, front);
      CountAdds(before.report, KindOf(last.key), OutcomeOf(before.catalog, last.key, last.source, replace), kind, outcome);
    }
  }

  // ---------- every row is counted once ----------

  function OfKind(rows: seq<Presented>, kind: Kind): nat {
    if rows == [] then 0
    else OfKind(rows[..|rows| - 1], kind) + if KindOf(rows[|rows| - 1].key) == kind then 1 else 0
  }

  lemma {:induction false} OfKindConcat(a: seq<Presented>, b: seq<Presented>, kind: Kind)
    ensures OfKind(a + b, kind) == OfKind(a, kind) + OfKind(b, kind)
  {
    if b == [] {
      ConcatNothing(a);
    } else {
      ConcatLast(a, b);
      OfKindConcat(a, b[..|b| - 1], kind);
    }
  }

  lemma {:induction false} HappenedOnce(c: Catalog, rows: seq<Presented>, replace: bool, kind: Kind)
    ensures Happened(c, rows, replace, kind, Inserted) + Happened(c, rows, replace, kind, Updated)
          + Happened(c, rows, replace, kind, Skipped) == OfKind(rows, kind)
  {
    if rows != [] {
      HappenedOnce(c, rows[..|rows| - 1], replace, kind);
    }
  }

  /** What one seed presents of each kind. */
  function Presents(seed: Seed, kind: Kind): nat {
    match kind
    case Categories => 1
    case Attributes => |seed.attributes|
    case _ => |seed.products|
  }

  function PresentsInAll(seeds: seq<Seed>, kind: Kind): nat {
    if seeds == [] then 0 else PresentsInAll(seeds[..|seeds| - 1], kind) + Presents(seeds[|seeds| - 1], kind)
  }

  lemma {:induction false} AttributeKinds(seed: Seed, categoryId: nat, n: nat, kind: Kind)
    requires n <= |seed.attributes|
    ensures OfKind(AttributeRows(seed, categoryId, n), kind) == if kind == Attributes then n else 0
  {
    if n > 0 {
      AttributeKinds(seed, categoryId, n - 1, kind);
      var rows := AttributeRows(seed, categoryId, n);
      assert rows[..|rows| - 1] == AttributeRows(seed, categoryId, n - 1);
    }
  }

  lemma OfThreeKinds(x: Presented, y: Presented, z: Presented, kind: Kind)
    ensures OfKind([x, y, z], kind) == (if KindOf(x.key) == kind then 1 else 0)
          + (if KindOf(y.key) == kind then 1 else 0) + (if KindOf(z.key) == kind then 1 else 0)
  {
    assert [x, y, z][..2] == [x, y] && [x, y][..1] == [x] && [x][..0] == [];
    assert OfKind([x], kind) == if KindOf(x.key) == kind then 1 else 0;
    assert OfKind([x, y], kind) == OfKind([x], kind) + if KindOf(y.key) == kind then 1 else 0;
  }

  lemma OneProductKinds(seed: Seed, p: ProductSeed, final: Catalog, categoryId: nat, kind: Kind)
    ensures OfKind(ProductRows(seed, p, final, categoryId), kind)
         == if kind == Products || kind == Skus || kind == Inventory then 1 else 0
  {
    OfThreeKinds(ProductRow(seed, p, categoryId), SkuRow(seed, p, IdOf(final, ProductKey(p.code))),
                 InventoryRow(seed, p, IdOf(final, SkuKey(p.sku.code))), kind);
  }

  lemma {:induction false} SameKinds<T>(s: seq<T>, n: nat, f: T -> seq<Presented>, kind: Kind, each: bool)
    requires n <= |s| && forall x :: x in s ==> OfKind(f(x), kind) == if each then 1 else 0
    ensures OfKind(ConcatOf(s, n, f), kind) == if each then n else 0
  {
    if n > 0 {
      SameKinds(s, n - 1, f, kind, each);
      assert s[n - 1] in s;
      OfKindConcat(ConcatOf(s, n - 1, f), f(s[n - 1]), kind);
    }
  }

  lemma ProductKinds(seed: Seed, final: Catalog, categoryId: nat, n: nat, kind: Kind)
    requires n <= |seed.products|
    ensures OfKind(AllProductRows(seed, final, categoryId, n), kind)
         == if kind == Products || kind == Skus || kind == Inventory then n else 0
  {
    var f := RowsOfProduct(seed, final, categoryId);
    var each := kind == Products || kind == Skus || kind == Inventory;
    forall p | p in seed.products ensures OfKind(f(p), kind) == if each then 1 else 0 {
      OneProductKinds(seed, p, final, categoryId, kind);
    }
    SameKinds(seed.products, n, f, kind, each);
  }

  lemma SeedKinds(seed: Seed, final: Catalog, kind: Kind)
    ensures OfKind(RowsOf(seed, final), kind) == Presents(seed, kind)
  {
    var categoryId := IdOf(final, CategoryKey(seed.category));
    var attributes := AttributeRows(seed, categoryId, |seed.attributes|);
    var products := AllProductRows(seed, final, categoryId, |seed.products|);
    AttributeKinds(seed, categoryId, |seed.attributes|, kind);
    ProductKinds(seed, final, categoryId, |seed.products|, kind);
    OfKindConcat(attributes, products, kind);
    OfKindConcat([CategoryRow(seed)], attributes + products, kind);
    assert [CategoryRow(seed)][..0] == [];
  }

  /** Whatever the catalog held and whatever the mode: per kind, inserted, updated and skipped rows add
      up to the rows the seed presents. */
  lemma EveryRowIsCounted(c: Catalog, seed: Seed, replace: bool, kind: Kind)
    ensures var report := SeedOne(Presenting(replace), Seeding(c, NO_COUNTS), seed).report;
            Counted(report, kind, Inserted) + Counted(report, kind, Updated) + Counted(report, kind, Skipped)
            == Presents(seed, kind)
  {
    var s := Seeding(c, NO_COUNTS);
    PresentingExtends(replace);
    var after := SeedIsRows(Presenting(replace), s, seed);
    var rows := RowsOf(seed, after.catalog);
    ReportOfRows(s, rows, replace, kind, Inserted);
    ReportOfRows(s, rows, replace, kind, Updated);
    ReportOfRows(s, rows, replace, kind, Skipped);
    HappenedOnce(c, rows, replace, kind);
    SeedKinds(seed, after.catalog, kind);
  }

  // ---------- insertions are growth ----------

  function KeysOf(c: Catalog, kind: Kind): set<Key> {
    set k | k in c.rows && KindOf(k) == kind
  }

  lemma UpsertGrows(c: Catalog, row: Presented, replace: bool, kind: Kind)
    ensures |KeysOf(Upsert(c, row.key, row.values, row.source, replace), kind)| == |KeysOf(c, kind)|
          + if KindOf(row.key) == kind && OutcomeOf(c, row.key, row.source, replace) == Inserted then 1 else 0
  {
    var after := Upsert(c, row.key, row.values, row.source, replace);
    if KindOf(row.key) == kind && row.key !in c.rows {
      assert KeysOf(after, kind) == KeysOf(c, kind) + {row.key};
    } else {
      assert KeysOf(after, kind) == KeysOf(c, kind);
    }
  }

  lemma {:induction false} InsertionsAreGrowth(c: Catalog, rows: seq<Presented>, replace: bool, kind: Kind)
    ensures |KeysOf(UpsertAll(c, rows, replace), kind)| == |KeysOf(c, kind)| + Happened(c, rows, replace, kind, Inserted)
  {
    if rows != [] {
      var front := rows[..|rows| - 1];
      InsertionsAreGrowth(c, front, replace, kind);
      UpsertGrows(UpsertAll(c, front, replace), rows[|rows| - 1], replace, kind);
    }
  }

  lemma ReportOfFiles(c: Catalog, seeds: seq<Seed>, replace: bool, kind: Kind, outcome: Outcome)
    ensures Counted(SeedFiles(Presenting(replace), Seeding(c, NO_COUNTS), seeds).report, kind, outcome)
         == Happened(c, RowsOfFiles(seeds, Seeded(c, seeds, replace)), replace, kind, outcome)
  {
    PresentingExtends(replace);
    var s := Seeding(c, NO_COUNTS);
    var after := FilesAreRows(Presenting(replace), s, seeds);
    ReportOfRows(s, RowsOfFiles(seeds, after.catalog), replace, kind, outcome);
  }

  /** The insertions a run reports are, kind by kind, the rows its tables gained. */
  lemma ReportedInsertionsAreGrowth(c: Catalog, seeds: seq<Seed>, replace: bool, kind: Kind)
    ensures var after := SeedFiles(Presenting(replace), Seeding(c, NO_COUNTS), seeds);
            |KeysOf(after.catalog, kind)| == |KeysOf(c, kind)| + Counted(after.report, kind, Inserted)
  {
    var after := Seeded(c, seeds, replace);
    ReportOfFiles(c, seeds, replace, kind, Inserted);
    RunIsUpsert(c, seeds, replace);
    InsertionsAreGrowth(c, RowsOfFiles(seeds, after), replace, kind);
  }

  /** After a run in either mode, another run of the same files in either mode inserts nothing. */
  lemma SecondRunInsertsNothing(c: Catalog, seeds: seq<Seed>, first: bool, second: bool, kind: Kind)
    ensures var s := Seeding(Seeded(c, seeds, first), NO_COUNTS);
            Counted(SeedFiles(Presenting(second), s, seeds).report, kind, Inserted) == 0
  {
    var before := Seeded(c, seeds, first);
    var after := Seeded(before, seeds, second);
    var rows := RowsOfFiles(seeds, before);
    RunIsUpsert(c, seeds, first);
    RunIsUpsert(before, seeds, second);
    RunAgainKeepsRows(c, seeds, first, second);
    PresentedKeysExist(c, rows, first);
    NothingToInsert(before, rows, second);
    ReportedInsertionsAreGrowth(before, seeds, second, kind);
    assert KeysOf(before, kind) == KeysOf(after, kind);
  }

  // ---------- totals of a run over several files ----------

  /** What one file of a run leaves, and reports. */
  function SeedFrom(c: Catalog, seed: Seed, replace: bool): Seeding {
    SeedOne(Presenting(replace), Seeding(c, NO_COUNTS), seed)
  }

  /** Two states with the same catalog present the same rows of a seed. */
  lemma SameRows(s: Seeding, t: Seeding, seed: Seed, replace: bool) returns (rows: seq<Presented>)
    requires s.catalog == t.catalog
    ensures SeedOne(Presenting(replace), s, seed) == PresentAll(Presenting(replace), s, rows)
    ensures SeedOne(Presenting(replace), t, seed) == PresentAll(Presenting(replace), t, rows)
  {
    var pr := Presenting(replace);
    PresentingExtends(replace);
    ModesPresentAlike(replace, replace);
    var a := SeedIsRows(pr, s, seed);
    var b := SeedIsRows(pr, t, seed);
    SeedAlike(pr, pr, s, t, seed);
    RowsStable(seed, a.catalog, b.catalog);
    rows := RowsOf(seed, a.catalog);
  }

  ghost predicate Adds(sum: Counts, a: Counts, b: Counts) {
    forall k, o :: Counted(sum, k, o) == Counted(a, k, o) + Counted(b, k, o)
  }

  lemma RowsAreCountedAlike(c: Catalog, report: Counts, rows: seq<Presented>, replace: bool)
    ensures var a, b := PresentAll(Presenting(replace), Seeding(c, report), rows),
                        PresentAll(Presenting(replace), Seeding(c, NO_COUNTS), rows);
            a.catalog == b.catalog && Adds(a.report, report, b.report)
  {
    CatalogOfPresentAll(Seeding(c, report), rows, replace);
    CatalogOfPresentAll(Seeding(c, NO_COUNTS), rows, replace);
    var a, b := PresentAll(Presenting(replace), Seeding(c, report), rows),
                PresentAll(Presenting(replace), Seeding(c, NO_COUNTS), rows);
    forall k, o ensures Counted(a.report, k, o) == Counted(report, k, o) + Counted(b.report, k, o) {
      ReportOfRows(Seeding(c, report), rows, replace, k, o);
      ReportOfRows(Seeding(c, NO_COUNTS), rows, replace, k, o);
    }
  }

  /** A seed's rows and outcomes do not depend on what the report already holds. */
  lemma ReportIsNotRead(c: Catalog, report: Counts, seed: Seed, replace: bool)
    ensures var a, b := SeedOne(Presenting(replace), Seeding(c, report), seed), SeedFrom(c, seed, replace);
            a.catalog == b.catalog && Adds(a.report, report, b.report)
  {
    var rows := SameRows(Seeding(c, report), Seeding(c, NO_COUNTS), seed, replace);
    RowsAreCountedAlike(c, report, rows, replace);
  }

  const KINDS := [Categories, Attributes, Products, Skus, Inventory]

  /** Per kind, the sums of two tallies; the seeder adds up all kinds. */
  method AddTallies(a: map<Kind, nat>, b: map<Kind, nat>) returns (sum: map<Kind, nat>)
    ensures forall k: Kind :: Tally(sum, k) == Tally(a, k) + Tally(b, k)
  {
    sum := a;
    for i := 0 to |KINDS|
      invariant forall j | 0 <= j < i :: Tally(sum, KINDS[j]) == Tally(a, KINDS[j]) + Tally(b, KINDS[j])
      invariant forall j | i <= j < |KINDS| :: Tally(sum, KINDS[j]) == Tally(a, KINDS[j])
    {
      sum := sum[KINDS[i] := Tally(sum, KINDS[i]) + Tally(b, KINDS[i])];
    }
    forall k: Kind ensures Tally(sum, k) == Tally(a, k) + Tally(b, k) {
      assert k == KINDS[0] || k == KINDS[1] || k == KINDS[2] || k == KINDS[3] || k == KINDS[4];
    }
  }

  /** The catalog the next file of a run finds: a dry run seeds each against the untouched one. */
  function Reached(c: Catalog, seeds: seq<Seed>, replace: bool, dryRun: bool): Catalog {
    if dryRun then c else Seeded(c, seeds, replace)
  }

  /** What the files of a run report together. */
  function RunCount(c: Catalog, seeds: seq<Seed>, replace: bool, dryRun: bool, kind: Kind, outcome: Outcome): nat {
    if seeds == [] then 0
    else
      var front := seeds[..|seeds| - 1];
      RunCount(c, front, replace, dryRun, kind, outcome)
      + Counted(SeedFrom(Reached(c, front, replace, dryRun), seeds[|seeds| - 1], replace).report, kind, outcome)
  }

  ghost predicate IsTotal(total: Counts, c: Catalog, seeds: seq<Seed>, replace: bool, dryRun: bool) {
    forall k: Kind, o: Outcome :: Counted(total, k, o) == RunCount(c, seeds, replace, dryRun, k, o)
  }

  method AddReport(total: SeedReport, current: SeedReport)
    requires total != current
    modifies total
    ensures Adds(total.Counted(), old(total.Counted()), current.Counted())
  {
    total.inserted := AddTallies(total.inserted, current.inserted);
    total.updated := AddTallies(total.updated, current.updated);
    total.skipped := AddTallies(total.skipped, current.skipped);
  }

  /** One file of a run. */
  method SeedNext(session: CatalogSession, seed: Seed, replace: bool, dryRun: bool, total: SeedReport)
    modifies session, total
    ensures session.Contents() == if dryRun then old(session.Contents()) else SeedFrom(old(session.Contents()), seed, replace).catalog
    ensures Adds(total.Counted(), old(total.Counted()), SeedFrom(old(session.Contents()), seed, replace).report)
  {
    var current := session.SeedCatalog(seed, replace, dryRun);
    AddReport(total, current);
  }

  lemma RunStep(c: Catalog, front: seq<Seed>, last: Seed, replace: bool, dryRun: bool, before: Counts, after: Counts)
    requires IsTotal(before, c, front, replace, dryRun)
    requires Adds(after, before, SeedFrom(Reached(c, front, replace, dryRun), last, replace).report)
    ensures IsTotal(after, c, front + [last], replace, dryRun)
    ensures Seeded(c, front + [last], replace) == SeedFrom(Seeded(c, front, replace), last, replace).catalog
  {
    assert (front + [last])[..|front|] == front;
    ReportIsNotRead(Seeded(c, front, replace), SeedFiles(Presenting(replace), Seeding(c, NO_COUNTS), front).report,
                    last, replace);
  }

  method RunSeed(session: CatalogSession, seeds: seq<Seed>, replace: bool, dryRun: bool) returns (total: SeedReport)
    modifies session
    ensures session.Contents() == Reached(old(session.Contents()), seeds, replace, dryRun)
    ensures fresh(total) && IsTotal(total.Counted(), old(session.Contents()), seeds, replace, dryRun)
  {
    ghost var c := session.Contents();
    total := new SeedReport();
    for i := 0 to |seeds|
      invariant fresh(total) && session.Contents() == Reached(c, seeds[..i], replace, dryRun)
      invariant IsTotal(total.Counted(), c, seeds[..i], replace, dryRun)
    {
      ghost var before := total.Counted();
      SeedNext(session, seeds[i], replace, dryRun, total);
      RunStep(c, seeds[..i], seeds[i], replace, dryRun, before, total.Counted());
      TakeOneMore(seeds, i);
    }
    TakeAll(seeds);
  }

  /** The totals of a real run are those of its rows, and of any run the rows presented. */
  lemma {:induction false} TotalsOfRun(c: Catalog, seeds: seq<Seed>, replace: bool, kind: Kind, outcome: Outcome)
    ensures RunCount(c, seeds, replace, false, kind, outcome)
         == Counted(SeedFiles(Presenting(replace), Seeding(c, NO_COUNTS), seeds).report, kind, outcome)
  {
    if seeds != [] {
      var front := seeds[..|seeds| - 1];
      TotalsOfRun(c, front, replace, kind, outcome);
      ReportIsNotRead(Seeded(c, front, replace), SeedFiles(Presenting(replace), Seeding(c, NO_COUNTS), front).report,
                      seeds[|seeds| - 1], replace);
    }
  }

  lemma {:induction false} EveryRowOfARunIsCounted(c: Catalog, seeds: seq<Seed>, replace: bool, dryRun: bool, kind: Kind)
    ensures RunCount(c, seeds, replace, dryRun, kind, Inserted) + RunCount(c, seeds, replace, dryRun, kind, Updated)
          + RunCount(c, seeds, replace, dryRun, kind, Skipped) == PresentsInAll(seeds, kind)
  {
    if seeds != [] {
      var front := seeds[..|seeds| - 1];
      EveryRowOfARunIsCounted(c, front, replace, dryRun, kind);
      EveryRowIsCounted(if dryRun then c else Seeded(c, front, replace), seeds[|seeds| - 1], replace, kind);
    }
  }
}

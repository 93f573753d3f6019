/** Seeding the catalog: keyed rows are inserted when missing and overwritten only in replacement mode
    and only when the same seed source owns them. A row can be looked up as soon as it is added, as in a
    session that flushes before every lookup; SeedFlush is about one that does not. */
module CatalogSeed {
  import opened Sequences
  import opened Text

  /** A column value; Ref is a row id. */
  datatype Value = Str(s: string) | Flag(b: bool) | Ref(id: nat) | Json(j: string)

  type Values = map<string, Value>

  /** The lookup key of a row in its table. */
  datatype Key =
    | CategoryKey(code: string)
    | AttributeKey(category: nat, code: string)
    | ProductKey(productCode: string)
    | SkuKey(skuCode: string)
    | InventoryKey(sku: nat)

  datatype Row = Row(id: nat, values: Values)

  /** The tables of the catalog, with the next unused row id. */
  datatype Catalog = Catalog(rows: map<Key, Row>, nextId: nat)

  datatype SkuSeed = SkuSeed(code: string, values: Values, inventory: nat)
  datatype ProductSeed = ProductSeed(code: string, values: Values, sku: SkuSeed)
  datatype AttributeSeed = AttributeSeed(code: string, values: Values)

  datatype Seed = Seed(
    source: string, version: string, category: string, categoryValues: Values,
    attributes: seq<AttributeSeed>, products: seq<ProductSeed>
  )

  // ---------- rows and ownership ----------

  function Managed(seed: Seed): Values {
    map["managed_by_seed" := Flag(true), "seed_source" := Str(seed.source), "seed_version" := Str(seed.version)]
  }

  predicate Owned(row: Row, source: string) {
    && "managed_by_seed" in row.values && row.values["managed_by_seed"] == Flag(true)
    && "seed_source" in row.values && row.values["seed_source"] == Str(source)
  }

  datatype Kind = Categories | Attributes | Products | Skus | Inventory

  function KindOf(key: Key): Kind {
    match key
    case CategoryKey(_) => Categories
    case AttributeKey(_, _) => Attributes
    case ProductKey(_) => Products
    case SkuKey(_) => Skus
    case InventoryKey(_) => Inventory
  }

  datatype Outcome = Inserted | Updated | Skipped

  /** What one presented row comes to. Inventory rows are never replaced: they have no owner. */
  function OutcomeOf(c: Catalog, key: Key, source: string, replace: bool): Outcome {
    if key !in c.rows then Inserted
    else if replace && !key.InventoryKey? && Owned(c.rows[key], source) then Updated
    else Skipped
  }

  function Upsert(c: Catalog, key: Key, values: Values, source: string, replace: bool): Catalog {
    match OutcomeOf(c, key, source, replace)
    case Inserted => Catalog(c.rows[key := Row(c.nextId, values)], c.nextId + 1)
    case Updated => c.(rows := c.rows[key := c.rows[key].(values := c.rows[key].values + values)])
    case Skipped => c
  }

  // ---------- presented rows ----------

  /** A row a seed presents, with the source that presents it. */
  datatype Presented = Presented(key: Key, values: Values, source: string)

  datatype Counts = Counts(inserted: map<Kind, nat>, updated: map<Kind, nat>, skipped: map<Kind, nat>)

  const NO_COUNTS := Counts(map[], map[], map[])

  function Tally(m: map<Kind, nat>, kind: Kind): nat {
    if kind in m then m[kind] else 0
  }

  function Bump(m: map<Kind, nat>, kind: Kind): map<Kind, nat> {
    m[kind := Tally(m, kind) + 1]
  }

  function Count(report: Counts, kind: Kind, outcome: Outcome): Counts {
    match outcome
    case Inserted => report.(inserted := Bump(report.inserted, kind))
    case Updated => report.(updated := Bump(report.updated, kind))
    case Skipped => report.(skipped := Bump(report.skipped, kind))
  }

  datatype Seeding = Seeding(catalog: Catalog, report: Counts)

  function Present(s: Seeding, row: Presented, replace: bool): Seeding {
    Seeding(Upsert(s.catalog, row.key, row.values, row.source, replace),
            Count(s.report, KindOf(row.key), OutcomeOf(s.catalog, row.key, row.source, replace)))
  }

  function IdOf(c: Catalog, key: Key): nat {
    if key in c.rows then c.rows[key].id else 0
  }

  function CategoryRow(seed: Seed): Presented {
    Presented(CategoryKey(seed.category),
              map["code" := Str(seed.category)] + seed.categoryValues + Managed(seed), seed.source)
  }

  function AttributeRow(seed: Seed, a: AttributeSeed, categoryId: nat): Presented {
    Presented(AttributeKey(categoryId, a.code),
              map["code" := Str(a.code)] + a.values + map["category_id" := Ref(categoryId)] + Managed(seed), seed.source)
  }

  function ProductRow(seed: Seed, p: ProductSeed, categoryId: nat): Presented {
    Presented(ProductKey(p.code),
              map["product_code" := Str(p.code)] + p.values + map["category_id" := Ref(categoryId)] + Managed(seed),
              seed.source)
  }

  function SkuRow(seed: Seed, p: ProductSeed, productId: nat): Presented {
    Presented(SkuKey(p.sku.code),
              map["sku_code" := Str(p.sku.code)] + p.sku.values + map["product_id" := Ref(productId)] + Managed(seed),
              seed.source)
  }

  function InventoryRow(seed: Seed, p: ProductSeed, skuId: nat): Presented {
    Presented(InventoryKey(skuId),
              map["on_hand_quantity" := Json(Decimal(p.sku.inventory)), "reserved_quantity" := Json("0"),
                  "version" := Json("0")],
              seed.source)
  }

  // ---------- one seed, and several ----------

  /** How a row is presented to a state, and the catalog that state holds; Presenting(replace) is the
      seeder's way. */
  datatype Presenter<!S(!new)> = Presenter(present: (S, Presented) -> S, catalog: S -> Catalog)

  function Presenting(replace: bool): Presenter<Seeding> {
    Presenter((s: Seeding, row: Presented) => Present(s, row, replace), (s: Seeding) => s.catalog)
  }

  function AttributeSeeder<S(!new)>(pr: Presenter<S>, seed: Seed, categoryId: nat): (S, AttributeSeed) -> S {
    (s: S, a: AttributeSeed) => pr.present(s, AttributeRow(seed, a, categoryId))
  }

  function SeedAttributes<S(!new)>(pr: Presenter<S>, s: S, seed: Seed, categoryId: nat, n: nat): S
    requires n <= |seed.attributes|
  {
    Fold(s, seed.attributes, n, AttributeSeeder(pr, seed, categoryId))
  }

  function SeedProduct<S(!new)>(pr: Presenter<S>, s: S, seed: Seed, p: ProductSeed, categoryId: nat): S {
    var withProduct := pr.present(s, ProductRow(seed, p, categoryId));
    var withSku := pr.present(withProduct, SkuRow(seed, p, IdOf(pr.catalog(withProduct), ProductKey(p.code))));
    pr.present(withSku, InventoryRow(seed, p, IdOf(pr.catalog(withSku), SkuKey(p.sku.code))))
  }

  function ProductSeeder<S(!new)>(pr: Presenter<S>, seed: Seed, categoryId: nat): (S, ProductSeed) -> S {
    (s: S, p: ProductSeed) => SeedProduct(pr, s, seed, p, categoryId)
  }

  function SeedProducts<S(!new)>(pr: Presenter<S>, s: S, seed: Seed, categoryId: nat, n: nat): S
    requires n <= |seed.products|
  {
    Fold(s, seed.products, n, ProductSeeder(pr, seed, categoryId))
  }

  /** seed_catalog. */
  function SeedOne<S(!new)>(pr: Presenter<S>, s: S, seed: Seed): S {
    var begun := pr.present(s, CategoryRow(seed));
    var categoryId := IdOf(pr.catalog(begun), CategoryKey(seed.category));
    SeedProducts(pr, SeedAttributes(pr, begun, seed, categoryId, |seed.attributes|),
                 seed, categoryId, |seed.products|)
  }

  /** Several files, in order. */
  function SeedFiles<S(!new)>(pr: Presenter<S>, s: S, seeds: seq<Seed>): S {
    if seeds == [] then s
    else SeedOne(pr, SeedFiles(pr, s, seeds[..|seeds| - 1]), seeds[|seeds| - 1])
  }

  // ---------- the seeder as it runs ----------

  class SeedReport {
    var inserted: map<Kind, nat>
    var updated: map<Kind, nat>
    var skipped: map<Kind, nat>

    function Counted(): Counts
      reads this
    {
      Counts(inserted, updated, skipped)
    }

    constructor ()
      ensures Counted() == NO_COUNTS
    {
      inserted, updated, skipped := map[], map[], map[];
    }
  }

  class CatalogSession {
    var rows: map<Key, Row>
    var nextId: nat

    function Contents(): Catalog
      reads this
    {
      Catalog(rows, nextId)
    }

    constructor (c: Catalog)
      ensures Contents() == c
    {
      rows, nextId := c.rows, c.nextId;
    }

    function Progress(report: SeedReport): Seeding
      reads this, report
    {
      Seeding(Contents(), report.Counted())
    }

    /** The lookup, insertion or _replace_if_owned of one row, and its id. */
    method Put(row: Presented, replace: bool, report: SeedReport) returns (id: nat)
      modifies this, report
      ensures Progress(report) == Presenting(replace).present(old(Progress(report)), row)
      ensures id == IdOf(Contents(), row.key)
      ensures report.inserted == if row.key in old(rows) then old(report.inserted) else Bump(old(report.inserted), KindOf(row.key))
      ensures report.skipped == old(report.skipped) || report.skipped == Bump(old(report.skipped), KindOf(row.key))
      ensures !replace ==> report.updated == old(report.updated)
    {
      var kind := KindOf(row.key);
      if row.key !in rows {
        rows := rows[row.key := Row(nextId, row.values)];
        nextId := nextId + 1;
        report.inserted := Bump(report.inserted, kind);
      } else if replace && !row.key.InventoryKey? && Owned(rows[row.key], row.source) {
        var found := rows[row.key];
        rows := rows[row.key := found.(values := found.values + row.values)];
        report.updated := Bump(report.updated, kind);
      } else {
        report.skipped := Bump(report.skipped, kind);
      }
      id := rows[row.key].id;
    }

    /** A product with its SKU and its inventory. */
    method PutProduct(seed: Seed, p: ProductSeed, categoryId: nat, replace: bool, report: SeedReport)
      modifies this, report
      ensures Progress(report) == SeedProduct(Presenting(replace), old(Progress(report)), seed, p, categoryId)
    {
      var productId := Put(ProductRow(seed, p, categoryId), replace, report);
      var skuId := Put(SkuRow(seed, p, productId), replace, report);
      var _ := Put(InventoryRow(seed, p, skuId), replace, report);
    }

    method PutAttributes(seed: Seed, categoryId: nat, replace: bool, report: SeedReport)
      modifies this, report
      ensures Progress(report) == SeedAttributes(Presenting(replace), old(Progress(report)), seed, categoryId, |seed.attributes|)
    {
      ghost var begun := Progress(report);
      for i := 0 to |seed.attributes|
        invariant Progress(report) == SeedAttributes(Presenting(replace), begun, seed, categoryId, i)
      {
        var _ := Put(AttributeRow(seed, seed.attributes[i], categoryId), replace, report);
      }
    }

    method PutProducts(seed: Seed, categoryId: nat, replace: bool, report: SeedReport)
      modifies this, report
      ensures Progress(report) == SeedProducts(Presenting(replace), old(Progress(report)), seed, categoryId, |seed.products|)
    {
      ghost var begun := Progress(report);
      for i := 0 to |seed.products|
        invariant Progress(report) == SeedProducts(Presenting(replace), begun, seed, categoryId, i)
      {
        PutProduct(seed, seed.products[i], categoryId, replace, report);
      }
    }

    method PutRows(seed: Seed, replace: bool, report: SeedReport)
      modifies this, report
      ensures Progress(report) == SeedOne(Presenting(replace), old(Progress(report)), seed)
    {
      var categoryId := Put(CategoryRow(seed), replace, report);
      PutAttributes(seed, categoryId, replace, report);
      PutProducts(seed, categoryId, replace, report);
    }

    method SeedCatalog(seed: Seed, replace: bool, dryRun: bool) returns (report: SeedReport)
      modifies this
      ensures fresh(report)
      ensures var done := SeedOne(Presenting(replace), Seeding(old(Contents()), NO_COUNTS), seed);
              && report.Counted() == done.report
              && Contents() == if dryRun then old(Contents()) else done.catalog
    {
      var before := Contents();
      report := new SeedReport();
      PutRows(seed, replace, report);
      if dryRun {
        rows, nextId := before.rows, before.nextId;
      }
    }
  }
}

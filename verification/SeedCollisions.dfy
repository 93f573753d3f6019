/** Exactly when seeding fails in a session that does not flush before it looks rows up, told from the
    catalog and the files. */
module SeedCollisions {
  import opened Sequences
  import opened Text
  import opened CatalogSeed
  import opened SeedLaws
  import opened SeedGuarantees
  import opened SeedKeys
  import opened SeedFlush

  // ---------- the condition ----------

  /** The seed with its first attributes and products only. */
  function Cut(seed: Seed, attributes: nat, products: nat): Seed
    requires attributes <= |seed.attributes| && products <= |seed.products|
  {
    seed.(attributes := seed.attributes[..attributes], products := seed.products[..products])
  }

  /** Everything presented before product k. */
  function Before(earlier: seq<Seed>, seed: Seed, k: nat): seq<Seed>
    requires k <= |seed.products|
  {
    earlier + [Cut(seed, |seed.attributes|, k)]
  }

  predicate RepeatsAttribute(c: Catalog, earlier: seq<Seed>, seed: Seed, n: nat)
    requires n <= |seed.attributes|
  {
    exists i, j | 0 <= i < j < n ::
      seed.attributes[i].code == seed.attributes[j].code
      && !AttributeThere(c, earlier, seed.category, seed.attributes[j].code)
  }

  /** Neither the product nor its SKU is inserted when product k is presented. */
  predicate Known(c: Catalog, earlier: seq<Seed>, seed: Seed, k: nat)
    requires k < |seed.products|
  {
    && ProductThere(c, Before(earlier, seed, k), seed.products[k].code)
    && SkuThere(c, Before(earlier, seed, k), seed.products[k].sku.code)
  }

  /** The inventory row of product k is inserted. */
  predicate NewStock(c: Catalog, earlier: seq<Seed>, seed: Seed, k: nat)
    requires k < |seed.products|
  {
    !InventoryThere(c, Before(earlier, seed, k), seed.products[k].sku.code)
  }

  /** Product m inserts the inventory row of the SKU, and no later one before n inserts a product or SKU. */
  predicate Waiting(c: Catalog, earlier: seq<Seed>, seed: Seed, m: nat, n: nat, sku: string)
    requires m < n <= |seed.products|
  {
    && seed.products[m].sku.code == sku && NewStock(c, earlier, seed, m)
    && forall k | m < k < n :: Known(c, earlier, seed, k)
  }

  predicate RepeatsStockAt(c: Catalog, earlier: seq<Seed>, seed: Seed, m: nat, n: nat)
    requires m < n < |seed.products|
  {
    Waiting(c, earlier, seed, m, n, seed.products[n].sku.code) && Known(c, earlier, seed, n)
  }

  predicate RepeatsStock(c: Catalog, earlier: seq<Seed>, seed: Seed, n: nat)
    requires n <= |seed.products|
  {
    exists i, j | 0 <= i < j < n :: RepeatsStockAt(c, earlier, seed, i, j)
  }

  /** A seed repeats an attribute code that its category does not have yet, or a SKU code without
      inventory while every product and SKU in between is there already. */
  predicate Collides(c: Catalog, earlier: seq<Seed>, seed: Seed) {
    RepeatsAttribute(c, earlier, seed, |seed.attributes|) || RepeatsStock(c, earlier, seed, |seed.products|)
  }

  // ---------- the state before each row of a seed ----------

  function StateOf(c: Catalog, seeds: seq<Seed>, replace: bool): Seeding {
    SeedFiles(Presenting(replace), Seeding(c, NO_COUNTS), seeds)
  }

  function StateIn(c: Catalog, earlier: seq<Seed>, seed: Seed, attributes: nat, products: nat, replace: bool): Seeding
    requires attributes <= |seed.attributes| && products <= |seed.products|
  {
    StateOf(c, earlier + [Cut(seed, attributes, products)], replace)
  }

  lemma {:induction false} FoldOfPrefix<S, T>(s: S, items: seq<T>, prefix: seq<T>, n: nat, f: (S, T) -> S, g: (S, T) -> S)
    requires n <= |prefix| <= |items| && prefix == items[..|prefix|]
    requires forall a, x :: f(a, x) == g(a, x)
    ensures Fold(s, prefix, n, f) == Fold(s, items, n, g)
    decreases n
  {
    if n > 0 {
      var m: nat := n - 1;
      FoldOfPrefix(s, items, prefix, m, f, g);
    }
  }

  lemma SameAttributes(t: Seeding, seed: Seed, cut: Seed, categoryId: nat, n: nat, replace: bool)
    requires n <= |cut.attributes| <= |seed.attributes| && cut.attributes == seed.attributes[..|cut.attributes|]
    requires Managed(cut) == Managed(seed) && cut.source == seed.source
    ensures SeedAttributes(Presenting(replace), t, cut, categoryId, n) == SeedAttributes(Presenting(replace), t, seed, categoryId, n)
  {
    var f, g := AttributeSeeder(Presenting(replace), cut, categoryId), AttributeSeeder(Presenting(replace), seed, categoryId);
    forall a, x ensures f(a, x) == g(a, x) {
      assert AttributeRow(cut, x, categoryId) == AttributeRow(seed, x, categoryId);
    }
    FoldOfPrefix(t, seed.attributes, cut.attributes, n, f, g);
  }

  lemma SameProducts(t: Seeding, seed: Seed, cut: Seed, categoryId: nat, n: nat, replace: bool)
    requires n <= |cut.products| <= |seed.products| && cut.products == seed.products[..|cut.products|]
    requires Managed(cut) == Managed(seed) && cut.source == seed.source
    ensures SeedProducts(Presenting(replace), t, cut, categoryId, n) == SeedProducts(Presenting(replace), t, seed, categoryId, n)
  {
    var f, g := ProductSeeder(Presenting(replace), cut, categoryId), ProductSeeder(Presenting(replace), seed, categoryId);
    forall a, p ensures f(a, p) == g(a, p) {
    }
    FoldOfPrefix(t, seed.products, cut.products, n, f, g);
  }

  lemma StateOfOneMore(c: Catalog, earlier: seq<Seed>, last: Seed, replace: bool)
    ensures StateOf(c, earlier + [last], replace) == SeedOne(Presenting(replace), StateOf(c, earlier, replace), last)
  {
    assert (earlier + [last])[..|earlier|] == earlier;
  }

  /** The id that the seed's rows give as their category. */
  function CategoryIn(c: Catalog, earlier: seq<Seed>, seed: Seed, replace: bool): nat {
    IdOf(Present(StateOf(c, earlier, replace), CategoryRow(seed), replace).catalog, CategoryKey(seed.category))
  }

  lemma StateInIs(c: Catalog, earlier: seq<Seed>, seed: Seed, attributes: nat, products: nat, replace: bool)
    requires attributes <= |seed.attributes| && products <= |seed.products|
    ensures var start := Present(StateOf(c, earlier, replace), CategoryRow(seed), replace);
            var id := CategoryIn(c, earlier, seed, replace);
            StateIn(c, earlier, seed, attributes, products, replace)
            == SeedProducts(Presenting(replace), SeedAttributes(Presenting(replace), start, seed, id, attributes), seed, id, products)
  {
    var cut := Cut(seed, attributes, products);
    var start := Present(StateOf(c, earlier, replace), CategoryRow(seed), replace);
    var id := CategoryIn(c, earlier, seed, replace);
    assert CategoryRow(cut) == CategoryRow(seed);
    StateOfOneMore(c, earlier, cut, replace);
    SameAttributes(start, seed, cut, id, attributes, replace);
    SameProducts(SeedAttributes(Presenting(replace), start, seed, id, attributes), seed, cut, id, products, replace);
  }

  // ---------- attributes ----------

  lemma CategoryKeepsId(c: Catalog, earlier: seq<Seed>, seed: Seed, n: nat, replace: bool)
    requires n <= |seed.attributes|
    ensures var after := StateIn(c, earlier, seed, n, 0, replace).catalog;
            && CategoryKey(seed.category) in after.rows
            && after.rows[CategoryKey(seed.category)].id == CategoryIn(c, earlier, seed, replace)
  {
    var start, id := Present(StateOf(c, earlier, replace), CategoryRow(seed), replace), CategoryIn(c, earlier, seed, replace);
    StateInIs(c, earlier, seed, n, 0, replace);
    AttributesAreRows(Presenting(replace), start, seed, id, n);
    PresentingExtends(replace);
    PresentAllExtends(Presenting(replace), start, AttributeRows(seed, id, n));
  }

  predicate AmongFirst(seed: Seed, n: nat, code: string)
    requires n <= |seed.attributes|
  {
    exists i | 0 <= i < n :: seed.attributes[i].code == code
  }

  lemma AttributeThereOneMore(c: Catalog, earlier: seq<Seed>, last: Seed, category: string, code: string)
    ensures AttributeThere(c, earlier + [last], category, code)
        <==> AttributeThere(c, earlier, category, code) || (last.category == category && ListsAttribute(last, code))
  {
    var seeds := earlier + [last];
    assert seeds[|earlier|] == last && forall h | 0 <= h < |earlier| :: seeds[h] == earlier[h];
    if h :| 0 <= h < |earlier| && earlier[h].category == category && ListsAttribute(earlier[h], code) {
      assert seeds[h].category == category;
    }
  }

  lemma AttributeInState(c: Catalog, earlier: seq<Seed>, seed: Seed, n: nat, code: string, replace: bool)
    requires WellNumbered(c) && n <= |seed.attributes|
    ensures AttributeKey(CategoryIn(c, earlier, seed, replace), code) in StateIn(c, earlier, seed, n, 0, replace).catalog.rows
        <==> AttributeThere(c, earlier, seed.category, code) || AmongFirst(seed, n, code)
  {
    var cut := Cut(seed, n, 0);
    CategoryKeepsId(c, earlier, seed, n, replace);
    AttributeIsThere(c, earlier + [cut], replace, seed.category, code);
    AttributeThereOneMore(c, earlier, cut, seed.category, code);
    assert ListsAttribute(cut, code) <==> AmongFirst(seed, n, code) by {
      assert forall i | 0 <= i < n :: cut.attributes[i] == seed.attributes[i];
    }
  }

  lemma RepeatsOneMore(c: Catalog, earlier: seq<Seed>, seed: Seed, n: nat)
    requires n < |seed.attributes|
    ensures var code := seed.attributes[n].code;
            RepeatsAttribute(c, earlier, seed, n + 1)
            <==> RepeatsAttribute(c, earlier, seed, n)
                 || (AmongFirst(seed, n, code) && !AttributeThere(c, earlier, seed.category, code))
  {
  }

  /** The session has flushed those keys only, and is doomed or on its way to the flushing run's state. */
  predicate Stands(s: Session, t: Seeding, flushed: set<Key>, doomed: bool) {
    s.flushed.rows.Keys == flushed && if doomed then Doomed(s) else Synced(s, t)
  }

  lemma StandsAfterPut(s: Session, t: Seeding, flushed: set<Key>, doomed: bool, row: Presented, repeated: bool, replace: bool)
    requires Stands(s, t, flushed, doomed)
    requires row.key in t.catalog.rows && row.key !in flushed <==> repeated
    ensures var doomedNow := doomed || repeated; Stands(Put(s, row, replace), Present(t, row, replace), flushed, doomedNow)
  {
    if doomed {
      DoomedStays(s, row, replace);
      assert Put(s, row, replace).flushed.rows.Keys == flushed;
    } else {
      PutStep(s, t, row, replace);
    }
  }

  ghost predicate AttributesWait(c: Catalog, earlier: seq<Seed>, seed: Seed, n: nat, replace: bool)
    requires n <= |seed.attributes|
  {
    var start, repeats := StateIn(c, earlier, seed, 0, 0, replace), RepeatsAttribute(c, earlier, seed, n);
    Stands(PutAttributes(Settled(start), seed, CategoryIn(c, earlier, seed, replace), n, replace),
           StateIn(c, earlier, seed, n, 0, replace), start.catalog.rows.Keys, repeats)
  }

  lemma NextState(c: Catalog, earlier: seq<Seed>, seed: Seed, n: nat, replace: bool)
    requires n < |seed.attributes|
    ensures StateIn(c, earlier, seed, n + 1, 0, replace)
         == Present(StateIn(c, earlier, seed, n, 0, replace),
                    AttributeRow(seed, seed.attributes[n], CategoryIn(c, earlier, seed, replace)), replace)
  {
    StateInIs(c, earlier, seed, n, 0, replace);
    StateInIs(c, earlier, seed, n + 1, 0, replace);
  }

  lemma NextAttribute(c: Catalog, earlier: seq<Seed>, seed: Seed, n: nat, replace: bool)
    requires WellNumbered(c) && n < |seed.attributes|
    ensures AttributesWait(c, earlier, seed, n, replace) ==> AttributesWait(c, earlier, seed, n + 1, replace)
  {
    if AttributesWait(c, earlier, seed, n, replace) {
      var start, id := StateIn(c, earlier, seed, 0, 0, replace), CategoryIn(c, earlier, seed, replace);
      var code := seed.attributes[n].code;
      var repeated := AmongFirst(seed, n, code) && !AttributeThere(c, earlier, seed.category, code);
      AttributeInState(c, earlier, seed, n, code, replace);
      AttributeInState(c, earlier, seed, 0, code, replace);
      RepeatsOneMore(c, earlier, seed, n);
      NextState(c, earlier, seed, n, replace);
      var repeats := RepeatsAttribute(c, earlier, seed, n);
      StandsAfterPut(PutAttributes(Settled(start), seed, id, n, replace), StateIn(c, earlier, seed, n, 0, replace),
                     start.catalog.rows.Keys, repeats, AttributeRow(seed, seed.attributes[n], id), repeated, replace);
    }
  }

  lemma {:induction false} AttributesCollide(c: Catalog, earlier: seq<Seed>, seed: Seed, n: nat, replace: bool)
    requires WellNumbered(c) && n <= |seed.attributes|
    ensures AttributesWait(c, earlier, seed, n, replace)
    decreases n
  {
    if n > 0 {
      var m: nat := n - 1;
      AttributesCollide(c, earlier, seed, m, replace);
      NextAttribute(c, earlier, seed, m, replace);
    }
  }

  // ---------- one product ----------

  /** The rows the flushing run has and lookups of the session miss. */
  function UnseenKeys(s: Session, t: Seeding): set<Key> {
    t.catalog.rows.Keys - s.flushed.rows.Keys
  }

  predicate OnlyStock(keys: set<Key>) {
    forall k | k in keys :: k.InventoryKey?
  }

  lemma KeysAfter(t: Seeding, row: Presented, replace: bool)
    ensures Present(t, row, replace).catalog.rows.Keys == t.catalog.rows.Keys + {row.key}
  {
  }

  /** A new row of a product or SKU has everything pending flushed; one that is there has nothing. */
  lemma FlushedEffect(x: Session, v: Seeding, row: Presented, replace: bool) returns (a: Session, va: Seeding)
    requires Synced(x, v) && OnlyStock(UnseenKeys(x, v)) && !row.key.InventoryKey?
    ensures PutFlushed(x, row, replace) == Some(a) && va == Present(v, row, replace)
    ensures Synced(a, va) && row.key in va.catalog.rows && IdOf(a.flushed, row.key) == IdOf(va.catalog, row.key)
    ensures UnseenKeys(a, va) == if row.key in v.catalog.rows then UnseenKeys(x, v) else {}
  {
    assert row.key !in UnseenKeys(x, v);
    PutFlushedStep(x, v, row, replace);
    a, va := PutFlushed(x, row, replace).value, Present(v, row, replace);
    KeysAfter(v, row, replace);
    if row.key in v.catalog.rows {
      assert va.catalog.rows.Keys == v.catalog.rows.Keys;
    }
  }

  /** An inventory row is added without a flush; if it waits already the session is doomed. */
  lemma StockEffect(b: Session, vb: Seeding, row: Presented, replace: bool) returns (next: Session, after: Seeding)
    requires Synced(b, vb)
    ensures next == Put(b, row, replace) && after == Present(vb, row, replace)
    ensures if row.key in UnseenKeys(b, vb) then Doomed(next)
            else Synced(next, after)
                 && UnseenKeys(next, after) == UnseenKeys(b, vb) + if row.key in vb.catalog.rows then {} else {row.key}
  {
    PutStep(b, vb, row, replace);
    next, after := Put(b, row, replace), Present(vb, row, replace);
    KeysAfter(vb, row, replace);
    if row.key in b.flushed.rows {
      SeenRow(b, vb, row.key);
    }
  }

  function StockKey(after: Seeding, sku: string): Key {
    InventoryKey(IdOf(after.catalog, SkuKey(sku)))
  }

  predicate Both(t: Seeding, p: ProductSeed) {
    ProductKey(p.code) in t.catalog.rows && SkuKey(p.sku.code) in t.catalog.rows
  }

  /** What waits before the inventory row of a product is looked up. */
  function StillUnseen(x: Session, v: Seeding, p: ProductSeed): set<Key> {
    if Both(v, p) then UnseenKeys(x, v) else {}
  }

  /** The product and its SKU, up to the lookup of the inventory row. */
  lemma PairEffect(x: Session, v: Seeding, seed: Seed, p: ProductSeed, categoryId: nat, replace: bool)
    returns (b: Session, vb: Seeding, stock: Presented)
    requires Synced(x, v) && OnlyStock(UnseenKeys(x, v))
    ensures PutProduct(x, seed, p, categoryId, replace) == Some(Put(b, stock, replace))
    ensures SeedProduct(Presenting(replace), v, seed, p, categoryId) == Present(vb, stock, replace)
    ensures Synced(b, vb) && UnseenKeys(b, vb) == StillUnseen(x, v, p)
    ensures SkuKey(p.sku.code) in vb.catalog.rows && stock.key == StockKey(vb, p.sku.code)
    ensures stock.key in vb.catalog.rows <==> stock.key in v.catalog.rows
  {
    var product := ProductRow(seed, p, categoryId);
    var a, va := FlushedEffect(x, v, product, replace);
    var sku := SkuRow(seed, p, IdOf(va.catalog, ProductKey(p.code)));
    b, vb := FlushedEffect(a, va, sku, replace);
    stock := InventoryRow(seed, p, IdOf(vb.catalog, SkuKey(p.sku.code)));
    PairUnseen(x, v, a, va, b, vb, p, product, sku, replace);
  }

  /** A product whose inventory row still waits dooms the session; otherwise that row waits if it is new. */
  lemma ProductEffect(x: Session, v: Seeding, seed: Seed, p: ProductSeed, categoryId: nat, replace: bool)
    returns (next: Session, after: Seeding)
    requires Synced(x, v) && OnlyStock(UnseenKeys(x, v))
    ensures PutProduct(x, seed, p, categoryId, replace) == Some(next)
    ensures after == SeedProduct(Presenting(replace), v, seed, p, categoryId)
    ensures var key := StockKey(after, p.sku.code);
            if key in StillUnseen(x, v, p) then Doomed(next)
            else Synced(next, after)
                 && UnseenKeys(next, after) == StillUnseen(x, v, p) + if key in v.catalog.rows then {} else {key}
  {
    var b, vb, stock := PairEffect(x, v, seed, p, categoryId, replace);
    next, after := StockEffect(b, vb, stock, replace);
    PresentExtends(vb, stock, replace);
    SameId(vb.catalog, after.catalog, SkuKey(p.sku.code));
  }

  lemma PairUnseen(
    x: Session, v: Seeding, a: Session, va: Seeding, b: Session, vb: Seeding, p: ProductSeed, product: Presented,
    sku: Presented, replace: bool
  )
    requires product.key == ProductKey(p.code) && sku.key == SkuKey(p.sku.code)
    requires va == Present(v, product, replace) && vb == Present(va, sku, replace)
    requires UnseenKeys(a, va) == if product.key in v.catalog.rows then UnseenKeys(x, v) else {}
    requires UnseenKeys(b, vb) == if sku.key in va.catalog.rows then UnseenKeys(a, va) else {}
    ensures UnseenKeys(b, vb) == StillUnseen(x, v, p)
    ensures forall k: Key | k.InventoryKey? :: k in vb.catalog.rows <==> k in v.catalog.rows
  {
    KeysAfter(v, product, replace);
    KeysAfter(va, sku, replace);
    forall k: Key | k.InventoryKey? ensures k in vb.catalog.rows.Keys <==> k in v.catalog.rows.Keys {
    }
    assert sku.key in va.catalog.rows.Keys <==> sku.key in v.catalog.rows.Keys;
  }

  // ---------- the products of a seed ----------

  function StateAt(c: Catalog, earlier: seq<Seed>, seed: Seed, n: nat, replace: bool): Seeding
    requires n <= |seed.products|
  {
    StateIn(c, earlier, seed, |seed.attributes|, n, replace)
  }

  lemma NextStateAt(c: Catalog, earlier: seq<Seed>, seed: Seed, n: nat, replace: bool)
    requires n < |seed.products|
    ensures StateAt(c, earlier, seed, n + 1, replace)
         == SeedProduct(Presenting(replace), StateAt(c, earlier, seed, n, replace), seed, seed.products[n],
                        CategoryIn(c, earlier, seed, replace))
  {
    StateInIs(c, earlier, seed, |seed.attributes|, n, replace);
    StateInIs(c, earlier, seed, |seed.attributes|, n + 1, replace);
  }

  /** Old rows keep their ids and a new SKU has a new id. */
  lemma ProductGrowth(v: Seeding, seed: Seed, p: ProductSeed, categoryId: nat, replace: bool)
    ensures var after := SeedProduct(Presenting(replace), v, seed, p, categoryId);
            && Extends(v.catalog, after.catalog) && SkuKey(p.sku.code) in after.catalog.rows
            && (SkuKey(p.sku.code) !in v.catalog.rows ==> v.catalog.nextId <= after.catalog.rows[SkuKey(p.sku.code)].id)
            && forall sku :: SkuKey(sku) in after.catalog.rows ==> SkuKey(sku) in v.catalog.rows || sku == p.sku.code
  {
    PresentingExtends(replace);
    var after := ProductIsRows(Presenting(replace), v, seed, p, categoryId);
    var rows := ProductRows(seed, p, after.catalog, categoryId);
    CatalogOfPresentAll(v, rows, replace);
    UpsertGrows(v.catalog, rows, replace);
    forall sku | SkuKey(sku) in after.catalog.rows ensures SkuKey(sku) in v.catalog.rows || sku == p.sku.code {
      ProductRowsPresent(seed, p, after.catalog, categoryId, SkuKey(sku));
    }
  }

  lemma KnownInState(c: Catalog, earlier: seq<Seed>, seed: Seed, n: nat, replace: bool)
    requires n < |seed.products|
    ensures Both(StateAt(c, earlier, seed, n, replace), seed.products[n]) <==> Known(c, earlier, seed, n)
  {
    ProductIsThere(c, Before(earlier, seed, n), replace, seed.products[n].code);
    SkuIsThere(c, Before(earlier, seed, n), replace, seed.products[n].sku.code);
  }

  lemma InventoryNeedsSku(c: Catalog, seeds: seq<Seed>, sku: string)
    requires InventoryThere(c, seeds, sku)
    ensures SkuThere(c, seeds, sku)
  {
  }

  /** The inventory row of product n is inserted exactly when it is new. */
  lemma NewStockInState(c: Catalog, earlier: seq<Seed>, seed: Seed, n: nat, replace: bool)
    requires WellNumbered(c) && n < |seed.products|
    ensures StockKey(StateAt(c, earlier, seed, n + 1, replace), seed.products[n].sku.code)
              !in StateAt(c, earlier, seed, n, replace).catalog.rows
        <==> NewStock(c, earlier, seed, n)
  {
    var seeds, sku := Before(earlier, seed, n), seed.products[n].sku.code;
    var v, after := StateAt(c, earlier, seed, n, replace), StateAt(c, earlier, seed, n + 1, replace);
    NextStateAt(c, earlier, seed, n, replace);
    ProductGrowth(v, seed, seed.products[n], CategoryIn(c, earlier, seed, replace), replace);
    if SkuKey(sku) in v.catalog.rows {
      InventoryIsThere(c, seeds, replace, sku);
    } else {
      SkuIsThere(c, seeds, replace, sku);
      if InventoryThere(c, seeds, sku) {
        InventoryNeedsSku(c, seeds, sku);
      }
      var id := after.catalog.rows[SkuKey(sku)].id;
      if InventoryKey(id) in v.catalog.rows {
        InventoryRefersBelow(c, seeds, replace, id);
      }
    }
  }

  // ---------- what waits ----------

  predicate WaitsFor(c: Catalog, earlier: seq<Seed>, seed: Seed, n: nat, sku: string)
    requires n <= |seed.products|
  {
    exists m | 0 <= m < n :: Waiting(c, earlier, seed, m, n, sku)
  }

  lemma WaitsForNext(c: Catalog, earlier: seq<Seed>, seed: Seed, n: nat, sku: string)
    requires n < |seed.products|
    ensures WaitsFor(c, earlier, seed, n + 1, sku)
        <==> || (sku == seed.products[n].sku.code && NewStock(c, earlier, seed, n))
             || (WaitsFor(c, earlier, seed, n, sku) && Known(c, earlier, seed, n))
  {
    var k: nat := n + 1;
    if m :| 0 <= m < k && Waiting(c, earlier, seed, m, k, sku) {
      if m < n {
        assert Waiting(c, earlier, seed, m, n, sku);
      }
    }
    if sku == seed.products[n].sku.code && NewStock(c, earlier, seed, n) {
      assert Waiting(c, earlier, seed, n, n + 1, sku);
    }
    if Known(c, earlier, seed, n) {
      if m :| 0 <= m < n && Waiting(c, earlier, seed, m, n, sku) {
        assert Waiting(c, earlier, seed, m, n + 1, sku);
      }
    }
  }

  predicate StockRepeatedBy(c: Catalog, earlier: seq<Seed>, seed: Seed, n: nat)
    requires n < |seed.products|
  {
    WaitsFor(c, earlier, seed, n, seed.products[n].sku.code) && Known(c, earlier, seed, n)
  }

  lemma RepeatsStockNext(c: Catalog, earlier: seq<Seed>, seed: Seed, n: nat)
    requires n < |seed.products|
    ensures RepeatsStock(c, earlier, seed, n + 1)
        <==> RepeatsStock(c, earlier, seed, n) || StockRepeatedBy(c, earlier, seed, n)
  {
    if i, j :| 0 <= i < j < n + 1 && RepeatsStockAt(c, earlier, seed, i, j) {
      assert j == n ==> Waiting(c, earlier, seed, i, n, seed.products[n].sku.code);
    }
    if StockRepeatedBy(c, earlier, seed, n) {
      var m :| 0 <= m < n && Waiting(c, earlier, seed, m, n, seed.products[n].sku.code);
      assert RepeatsStockAt(c, earlier, seed, m, n);
    }
  }

  /** Before product n only inventory rows wait, those of the SKUs that WaitsFor names. */
  ghost predicate StockWaits(x: Session, c: Catalog, earlier: seq<Seed>, seed: Seed, n: nat, replace: bool)
    requires n <= |seed.products|
  {
    var v := StateAt(c, earlier, seed, n, replace);
    && Synced(x, v) && OnlyStock(UnseenKeys(x, v))
    && forall sku :: SkuKey(sku) in v.catalog.rows ==>
                     (StockKey(v, sku) in UnseenKeys(x, v) <==> WaitsFor(c, earlier, seed, n, sku))
  }

  lemma StockStep(v: Seeding, after: Seeding, unseen: set<Key>, p: ProductSeed, sku: string, waits: bool, isNew: bool)
    requires Extends(v.catalog, after.catalog) && (SkuKey(sku) in v.catalog.rows || sku == p.sku.code)
    requires SkuKey(sku) in v.catalog.rows ==> (StockKey(v, sku) in unseen <==> waits)
    requires StockKey(after, p.sku.code) !in v.catalog.rows <==> isNew
    requires StockKey(after, sku) == StockKey(after, p.sku.code) ==> sku == p.sku.code
    ensures var key := StockKey(after, p.sku.code);
            StockKey(after, sku) in (if Both(v, p) then unseen else {}) + (if key in v.catalog.rows then {} else {key})
            <==> (sku == p.sku.code && isNew) || (waits && Both(v, p))
  {
    if SkuKey(sku) in v.catalog.rows {
      SameId(v.catalog, after.catalog, SkuKey(sku));
    }
  }

  lemma StockKeysDiffer(c: Catalog, seeds: seq<Seed>, a: string, b: string, replace: bool)
    requires WellNumbered(c)
    requires SkuKey(a) in StateOf(c, seeds, replace).catalog.rows && SkuKey(b) in StateOf(c, seeds, replace).catalog.rows
    requires StockKey(StateOf(c, seeds, replace), a) == StockKey(StateOf(c, seeds, replace), b)
    ensures a == b
  {
    DistinctIds(c, seeds, replace, SkuKey(a), SkuKey(b));
  }

  /** What waits after product n, if the session is not doomed. */
  lemma WaitsAfter(
    unseen: set<Key>, c: Catalog, earlier: seq<Seed>, seed: Seed, n: nat, sku: string, replace: bool
  )
    requires WellNumbered(c) && n < |seed.products|
    requires SkuKey(sku) in StateAt(c, earlier, seed, n + 1, replace).catalog.rows
    requires var v := StateAt(c, earlier, seed, n, replace);
             SkuKey(sku) in v.catalog.rows ==> (StockKey(v, sku) in unseen <==> WaitsFor(c, earlier, seed, n, sku))
    ensures var v, after, p := StateAt(c, earlier, seed, n, replace), StateAt(c, earlier, seed, n + 1, replace), seed.products[n];
            var key := StockKey(after, p.sku.code);
            StockKey(after, sku) in (if Both(v, p) then unseen else {}) + (if key in v.catalog.rows then {} else {key})
            <==> WaitsFor(c, earlier, seed, n + 1, sku)
  {
    var v, after := StateAt(c, earlier, seed, n, replace), StateAt(c, earlier, seed, n + 1, replace);
    var p := seed.products[n];
    NextStateAt(c, earlier, seed, n, replace);
    ProductGrowth(v, seed, p, CategoryIn(c, earlier, seed, replace), replace);
    KnownInState(c, earlier, seed, n, replace);
    NewStockInState(c, earlier, seed, n, replace);
    WaitsForNext(c, earlier, seed, n, sku);
    if StockKey(after, sku) == StockKey(after, p.sku.code) {
      StockKeysDiffer(c, Before(earlier, seed, n + 1), sku, p.sku.code, replace);
    }
    var waits, isNew := WaitsFor(c, earlier, seed, n, sku), NewStock(c, earlier, seed, n);
    StockStep(v, after, unseen, p, sku, waits, isNew);
  }

  lemma StockWaitsAfter(x: Session, next: Session, c: Catalog, earlier: seq<Seed>, seed: Seed, n: nat, replace: bool)
    requires WellNumbered(c) && n < |seed.products| && StockWaits(x, c, earlier, seed, n, replace)
    requires var v, after, p := StateAt(c, earlier, seed, n, replace), StateAt(c, earlier, seed, n + 1, replace), seed.products[n];
             var key := StockKey(after, p.sku.code);
             && Synced(next, after)
             && UnseenKeys(next, after) == StillUnseen(x, v, p) + if key in v.catalog.rows then {} else {key}
    ensures var m: nat := n + 1; StockWaits(next, c, earlier, seed, m, replace)
  {
    var v, after := StateAt(c, earlier, seed, n, replace), StateAt(c, earlier, seed, n + 1, replace);
    var unseen := UnseenKeys(x, v);
    forall sku | SkuKey(sku) in after.catalog.rows
      ensures StockKey(after, sku) in UnseenKeys(next, after) <==> WaitsFor(c, earlier, seed, n + 1, sku)
    {
      WaitsAfter(unseen, c, earlier, seed, n, sku, replace);
    }
  }

  lemma NextProduct(x: Session, c: Catalog, earlier: seq<Seed>, seed: Seed, n: nat, replace: bool) returns (next: Session)
    requires WellNumbered(c) && n < |seed.products| && StockWaits(x, c, earlier, seed, n, replace)
    ensures PutProduct(x, seed, seed.products[n], CategoryIn(c, earlier, seed, replace), replace) == Some(next)
    ensures var m: nat := n + 1;
            if StockRepeatedBy(c, earlier, seed, n) then Doomed(next) else StockWaits(next, c, earlier, seed, m, replace)
  {
    var v, p := StateAt(c, earlier, seed, n, replace), seed.products[n];
    NextStateAt(c, earlier, seed, n, replace);
    KnownInState(c, earlier, seed, n, replace);
    var after: Seeding;
    next, after := ProductEffect(x, v, seed, p, CategoryIn(c, earlier, seed, replace), replace);
    ProductGrowth(v, seed, p, CategoryIn(c, earlier, seed, replace), replace);
    if Both(v, p) {
      SameId(v.catalog, after.catalog, SkuKey(p.sku.code));
    }
    if !StockRepeatedBy(c, earlier, seed, n) {
      StockWaitsAfter(x, next, c, earlier, seed, n, replace);
    }
  }

  /** After n products the session failed, is doomed, or has rows waiting as StockWaits says. */
  ghost predicate ProductsStand(o: Option<Session>, c: Catalog, earlier: seq<Seed>, seed: Seed, n: nat, replace: bool)
    requires n <= |seed.products|
  {
    if RepeatsStock(c, earlier, seed, n) then o.None? || Doomed(o.value)
    else o.Some? && StockWaits(o.value, c, earlier, seed, n, replace)
  }

  lemma NextProductStands(o: Option<Session>, c: Catalog, earlier: seq<Seed>, seed: Seed, n: nat, replace: bool)
    requires WellNumbered(c) && n < |seed.products|
    ensures ProductsStand(o, c, earlier, seed, n, replace)
        ==> ProductsStand(PutNext(o, seed, seed.products[n], CategoryIn(c, earlier, seed, replace), replace),
                          c, earlier, seed, n + 1, replace)
  {
    if ProductsStand(o, c, earlier, seed, n, replace) {
      RepeatsStockNext(c, earlier, seed, n);
      if RepeatsStock(c, earlier, seed, n) {
        if o.Some? {
          DoomedProduct(o.value, seed, seed.products[n], CategoryIn(c, earlier, seed, replace), replace);
        }
      } else {
        var next := NextProduct(o.value, c, earlier, seed, n, replace);
      }
    }
  }

  function SessionAt(c: Catalog, earlier: seq<Seed>, seed: Seed, n: nat, replace: bool): Option<Session>
    requires n <= |seed.products|
  {
    PutProducts(Settled(StateAt(c, earlier, seed, 0, replace)), seed, CategoryIn(c, earlier, seed, replace), n, replace)
  }

  lemma NextSessionAt(c: Catalog, earlier: seq<Seed>, seed: Seed, n: nat, replace: bool)
    requires n < |seed.products|
    ensures SessionAt(c, earlier, seed, n + 1, replace)
         == PutNext(SessionAt(c, earlier, seed, n, replace), seed, seed.products[n], CategoryIn(c, earlier, seed, replace), replace)
  {
    FoldNext(Some(Settled(StateAt(c, earlier, seed, 0, replace))), seed.products, n,
             ProductPutter(seed, CategoryIn(c, earlier, seed, replace), replace));
  }

  ghost function ProductsAt(c: Catalog, earlier: seq<Seed>, seed: Seed, replace: bool): nat -> bool {
    (n: nat) => n <= |seed.products| && ProductsStand(SessionAt(c, earlier, seed, n, replace), c, earlier, seed, n, replace)
  }

  lemma NothingWaits(c: Catalog, earlier: seq<Seed>, seed: Seed, replace: bool)
    ensures ProductsAt(c, earlier, seed, replace)(0)
  {
  }

  lemma NextProductsAt(c: Catalog, earlier: seq<Seed>, seed: Seed, n: nat, replace: bool)
    requires WellNumbered(c) && n < |seed.products|
    ensures ProductsAt(c, earlier, seed, replace)(n) ==> ProductsAt(c, earlier, seed, replace)(n + 1)
  {
    NextSessionAt(c, earlier, seed, n, replace);
    NextProductStands(SessionAt(c, earlier, seed, n, replace), c, earlier, seed, n, replace);
  }

  lemma ProductsCollide(c: Catalog, earlier: seq<Seed>, seed: Seed, n: nat, replace: bool)
    requires WellNumbered(c) && n <= |seed.products|
    ensures ProductsAt(c, earlier, seed, replace)(n)
  {
    var at := ProductsAt(c, earlier, seed, replace);
    NothingWaits(c, earlier, seed, replace);
    forall k: nat | k < n ensures at(k) ==> at(k + 1) {
      NextProductsAt(c, earlier, seed, k, replace);
    }
    UpTo(at, n);
  }

  // ---------- the run ----------

  lemma FlushStands(s: Session, t: Seeding, flushed: set<Key>, doomed: bool)
    requires Stands(s, t, flushed, doomed)
    ensures Flush(s) == if doomed then None else Some(Settled(t))
  {
  }

  lemma BegunIs(c: Catalog, earlier: seq<Seed>, seed: Seed, replace: bool)
    ensures PutFlushed(Settled(StateOf(c, earlier, replace)), CategoryRow(seed), replace)
         == Some(Settled(StateIn(c, earlier, seed, 0, 0, replace)))
    ensures CategoryIn(c, earlier, seed, replace)
         == IdOf(StateIn(c, earlier, seed, 0, 0, replace).catalog, CategoryKey(seed.category))
  {
    StateInIs(c, earlier, seed, 0, 0, replace);
    PutFlushedStep(Settled(StateOf(c, earlier, replace)), StateOf(c, earlier, replace), CategoryRow(seed), replace);
  }

  lemma SeedCollides(c: Catalog, earlier: seq<Seed>, seed: Seed, replace: bool)
    requires WellNumbered(c)
    ensures PutSeed(Settled(StateOf(c, earlier, replace)), seed, replace).None? <==> Collides(c, earlier, seed)
  {
    var start, id := StateIn(c, earlier, seed, 0, 0, replace), CategoryIn(c, earlier, seed, replace);
    BegunIs(c, earlier, seed, replace);
    AttributesCollide(c, earlier, seed, |seed.attributes|, replace);
    var listed := PutAttributes(Settled(start), seed, id, |seed.attributes|, replace);
    var repeats := RepeatsAttribute(c, earlier, seed, |seed.attributes|);
    FlushStands(listed, StateAt(c, earlier, seed, 0, replace), start.catalog.rows.Keys, repeats);
    if !repeats {
      ProductsCollide(c, earlier, seed, |seed.products|, replace);
    }
  }

  lemma NextFileCollides(c: Catalog, front: seq<Seed>, last: Seed, replace: bool)
    requires WellNumbered(c)
    ensures PutFiles(Opened(c), front + [last], replace).None?
        <==> PutFiles(Opened(c), front, replace).None? || Collides(c, front, last)
  {
    assert (front + [last])[..|front|] == front;
    UnflushedSeedsAlike(c, front, replace);
    SeedCollides(c, front, last, replace);
  }

  /** A run over several files fails exactly when one of them repeats an attribute code whose attribute
      is not there, or a SKU code whose inventory is not there while everything in between is. */
  lemma CollidesExactly(c: Catalog, seeds: seq<Seed>, replace: bool)
    requires WellNumbered(c)
    ensures PutFiles(Opened(c), seeds, replace).None? <==> exists i | 0 <= i < |seeds| :: Collides(c, seeds[..i], seeds[i])
  {
    var fails := (files: seq<Seed>) => PutFiles(Opened(c), files, replace).None?;
    var collides := (front: seq<Seed>, last: Seed) => Collides(c, front, last);
    forall front, last ensures fails(front + [last]) <==> fails(front) || collides(front, last) {
      NextFileCollides(c, front, last, replace);
    }
    SomePrefix(fails, collides, seeds);
    assert forall i | 0 <= i < |seeds| :: collides(seeds[..i], seeds[i]) == Collides(c, seeds[..i], seeds[i]);
  }
}

/** Which rows a catalog holds after a run, told from the catalog before it and the files alone. */
module SeedKeys {
  import opened Sequences
  import opened Text
  import opened CatalogSeed
  import opened SeedLaws
  import opened SeedGuarantees

  // ---------- what is there after a run ----------

  predicate ListsAttribute(seed: Seed, code: string) {
    exists i | 0 <= i < |seed.attributes| :: seed.attributes[i].code == code
  }

  predicate ListsProduct(seed: Seed, code: string) {
    exists i | 0 <= i < |seed.products| :: seed.products[i].code == code
  }

  predicate ListsSku(seed: Seed, code: string) {
    exists i | 0 <= i < |seed.products| :: seed.products[i].sku.code == code
  }

  /** The category has the attribute in the catalog, or one of the files gives it one. */
  predicate AttributeThere(c: Catalog, seeds: seq<Seed>, category: string, code: string) {
    || (CategoryKey(category) in c.rows && AttributeKey(c.rows[CategoryKey(category)].id, code) in c.rows)
    || exists h | 0 <= h < |seeds| :: seeds[h].category == category && ListsAttribute(seeds[h], code)
  }

  predicate ProductThere(c: Catalog, seeds: seq<Seed>, code: string) {
    ProductKey(code) in c.rows || exists h | 0 <= h < |seeds| :: ListsProduct(seeds[h], code)
  }

  predicate SkuThere(c: Catalog, seeds: seq<Seed>, code: string) {
    SkuKey(code) in c.rows || exists h | 0 <= h < |seeds| :: ListsSku(seeds[h], code)
  }

  predicate InventoryThere(c: Catalog, seeds: seq<Seed>, sku: string) {
    || (SkuKey(sku) in c.rows && InventoryKey(c.rows[SkuKey(sku)].id) in c.rows)
    || exists h | 0 <= h < |seeds| :: ListsSku(seeds[h], sku)
  }

  /** What the primary and foreign keys of the tables enforce: ids are used, differ within a table, and
      the rows that attributes and inventory refer to exist. */
  ghost predicate WellNumbered(c: Catalog) {
    && (forall k | k in c.rows :: c.rows[k].id < c.nextId)
    && (forall k, l | k in c.rows && l in c.rows && KindOf(k) == KindOf(l) && c.rows[k].id == c.rows[l].id :: k == l)
    && (forall k | k in c.rows :: RefersBelow(k, c.nextId))
  }

  predicate RefersBelow(key: Key, n: nat) {
    match key
    case AttributeKey(category, _) => category < n
    case InventoryKey(sku) => sku < n
    case _ => true
  }

  // ---------- the keys a list of rows leaves ----------

  ghost predicate NewIds(c: Catalog, after: Catalog) {
    && c.nextId <= after.nextId && Extends(c, after)
    && (forall k | k in after.rows && k !in c.rows :: c.nextId <= after.rows[k].id < after.nextId)
    && (forall k, l | k in after.rows && k !in c.rows && l in after.rows && l !in c.rows
                      && after.rows[k].id == after.rows[l].id :: k == l)
  }

  /** New rows have new ids, and the old ones are all still there. */
  ghost predicate GrewBy(c: Catalog, after: Catalog, rows: seq<Presented>) {
    NewIds(c, after) && forall k :: k in after.rows <==> k in c.rows || Presents(rows, k)
  }

  lemma PresentsConcat(a: seq<Presented>, b: seq<Presented>, key: Key)
    ensures Presents(a + b, key) <==> Presents(a, key) || Presents(b, key)
  {
    if Presents(a, key) {
      var i :| 0 <= i < |a| && a[i].key == key;
      assert (a + b)[i].key == key;
    }
    if Presents(b, key) {
      var i :| 0 <= i < |b| && b[i].key == key;
      assert (a + b)[|a| + i].key == key;
    }
  }

  lemma PresentsAppend(a: seq<Presented>, last: Presented, key: Key)
    ensures Presents(a + [last], key) <==> Presents(a, key) || last.key == key
  {
    PresentsConcat(a, [last], key);
    assert [last][0] == last;
  }

  lemma OneMoreKey(c: Catalog, before: Catalog, rows: seq<Presented>, last: Presented, k: Key)
    requires forall l :: l in before.rows <==> l in c.rows || Presents(rows, l)
    ensures k in before.rows || k == last.key <==> k in c.rows || Presents(rows + [last], k)
  {
    PresentsAppend(rows, last, k);
  }

  lemma NewIdsByOne(c: Catalog, before: Catalog, last: Presented, replace: bool)
    requires NewIds(c, before)
    ensures NewIds(c, Upsert(before, last.key, last.values, last.source, replace))
  {
  }

  lemma GrewByOne(c: Catalog, before: Catalog, rows: seq<Presented>, last: Presented, replace: bool)
    requires GrewBy(c, before, rows)
    ensures GrewBy(c, Upsert(before, last.key, last.values, last.source, replace), rows + [last])
  {
    var after := Upsert(before, last.key, last.values, last.source, replace);
    NewIdsByOne(c, before, last, replace);
    forall k ensures k in after.rows <==> k in c.rows || Presents(rows + [last], k) {
      OneMoreKey(c, before, rows, last, k);
    }
  }

  lemma {:induction false} UpsertGrows(c: Catalog, rows: seq<Presented>, replace: bool)
    ensures GrewBy(c, UpsertAll(c, rows, replace), rows)
  {
    if rows != [] {
      var front, last := rows[..|rows| - 1], rows[|rows| - 1];
      UpsertGrows(c, front, replace);
      GrewByOne(c, UpsertAll(c, front, replace), front, last, replace);
      assert front + [last] == rows;
    }
  }

  // ---------- the keys the files present ----------

  lemma {:induction false} AttributeRowsPresent(seed: Seed, categoryId: nat, n: nat, key: Key)
    requires n <= |seed.attributes|
    ensures Presents(AttributeRows(seed, categoryId, n), key)
        <==> exists i | 0 <= i < n :: key == AttributeKey(categoryId, seed.attributes[i].code)
    decreases n
  {
    if n > 0 {
      var m: nat := n - 1;
      AttributeRowsPresent(seed, categoryId, m, key);
      PresentsAppend(AttributeRows(seed, categoryId, m), AttributeRow(seed, seed.attributes[m], categoryId), key);
    }
  }

  predicate ProductPresents(p: ProductSeed, final: Catalog, key: Key) {
    key == ProductKey(p.code) || key == SkuKey(p.sku.code) || key == InventoryKey(IdOf(final, SkuKey(p.sku.code)))
  }

  lemma ProductRowsPresent(seed: Seed, p: ProductSeed, final: Catalog, categoryId: nat, key: Key)
    ensures Presents(ProductRows(seed, p, final, categoryId), key) <==> ProductPresents(p, final, key)
  {
    var rows := ProductRows(seed, p, final, categoryId);
    assert rows[0].key == ProductKey(p.code) && rows[1].key == SkuKey(p.sku.code);
    assert rows[2].key == InventoryKey(IdOf(final, SkuKey(p.sku.code)));
  }

  lemma {:induction false} ConcatPresents<T>(s: seq<T>, n: nat, f: T -> seq<Presented>, key: Key)
    requires n <= |s|
    ensures Presents(ConcatOf(s, n, f), key) <==> exists i | 0 <= i < n :: Presents(f(s[i]), key)
    decreases n
  {
    if n > 0 {
      var m: nat := n - 1;
      ConcatPresents(s, m, f, key);
      PresentsConcat(ConcatOf(s, m, f), f(s[m]), key);
    }
  }

  lemma AllProductRowsPresent(seed: Seed, final: Catalog, categoryId: nat, key: Key)
    ensures Presents(AllProductRows(seed, final, categoryId, |seed.products|), key)
        <==> exists i | 0 <= i < |seed.products| :: ProductPresents(seed.products[i], final, key)
  {
    var f := RowsOfProduct(seed, final, categoryId);
    ConcatPresents(seed.products, |seed.products|, f, key);
    forall i | 0 <= i < |seed.products|
      ensures Presents(f(seed.products[i]), key) <==> ProductPresents(seed.products[i], final, key)
    {
      ProductRowsPresent(seed, seed.products[i], final, categoryId, key);
    }
  }

  predicate SeedPresents(seed: Seed, final: Catalog, key: Key) {
    match key
    case CategoryKey(code) => code == seed.category
    case AttributeKey(category, code) => category == IdOf(final, CategoryKey(seed.category)) && ListsAttribute(seed, code)
    case ProductKey(code) => ListsProduct(seed, code)
    case SkuKey(code) => ListsSku(seed, code)
    case InventoryKey(sku) => exists i | 0 <= i < |seed.products| :: sku == IdOf(final, SkuKey(seed.products[i].sku.code))
  }

  predicate SomePartPresents(seed: Seed, final: Catalog, key: Key) {
    || key == CategoryKey(seed.category)
    || (exists i | 0 <= i < |seed.attributes| ::
          key == AttributeKey(IdOf(final, CategoryKey(seed.category)), seed.attributes[i].code))
    || (exists i | 0 <= i < |seed.products| :: ProductPresents(seed.products[i], final, key))
  }

  lemma PartsPresent(seed: Seed, final: Catalog, key: Key)
    ensures Presents(RowsOf(seed, final), key) <==> SomePartPresents(seed, final, key)
  {
    var categoryId := IdOf(final, CategoryKey(seed.category));
    var attributes := AttributeRows(seed, categoryId, |seed.attributes|);
    var products := AllProductRows(seed, final, categoryId, |seed.products|);
    AttributeRowsPresent(seed, categoryId, |seed.attributes|, key);
    AllProductRowsPresent(seed, final, categoryId, key);
    PresentsConcat(attributes, products, key);
    PresentsConcat([CategoryRow(seed)], attributes + products, key);
    PresentsAppend([], CategoryRow(seed), key);
    assert [] + [CategoryRow(seed)] == [CategoryRow(seed)];
  }

  lemma SameParts(seed: Seed, final: Catalog, key: Key)
    ensures SomePartPresents(seed, final, key) <==> SeedPresents(seed, final, key)
  {
    if SeedPresents(seed, final, key) {
      match key
      case CategoryKey(_) =>
      case AttributeKey(_, code) =>
      case ProductKey(code) =>
        var i :| 0 <= i < |seed.products| && seed.products[i].code == code;
        assert ProductPresents(seed.products[i], final, key);
      case SkuKey(code) =>
        var i :| 0 <= i < |seed.products| && seed.products[i].sku.code == code;
        assert ProductPresents(seed.products[i], final, key);
      case InventoryKey(sku) =>
        var i :| 0 <= i < |seed.products| && sku == IdOf(final, SkuKey(seed.products[i].sku.code));
        assert ProductPresents(seed.products[i], final, key);
    }
  }

  lemma SeedRowsPresent(seed: Seed, final: Catalog, key: Key)
    ensures Presents(RowsOf(seed, final), key) <==> SeedPresents(seed, final, key)
  {
    PartsPresent(seed, final, key);
    SameParts(seed, final, key);
  }

  lemma OneMoreFilePresents(front: seq<Seed>, last: Seed, final: Catalog, key: Key)
    ensures Presents(RowsOfFiles(front + [last], final), key)
        <==> Presents(RowsOfFiles(front, final), key) || SeedPresents(last, final, key)
  {
    SeedRowsPresent(last, final, key);
    PresentsConcat(RowsOfFiles(front, final), RowsOf(last, final), key);
    assert (front + [last])[..|front|] == front;
  }

  lemma FileRowsPresent(seeds: seq<Seed>, final: Catalog, key: Key)
    ensures Presents(RowsOfFiles(seeds, final), key) <==> exists h | 0 <= h < |seeds| :: SeedPresents(seeds[h], final, key)
  {
    var all := (files: seq<Seed>) => Presents(RowsOfFiles(files, final), key);
    var one := (front: seq<Seed>, seed: Seed) => SeedPresents(seed, final, key);
    forall front, last ensures all(front + [last]) <==> all(front) || one(front, last) {
      OneMoreFilePresents(front, last, final, key);
    }
    SomePrefix(all, one, seeds);
    assert forall h | 0 <= h < |seeds| :: one(seeds[..h], seeds[h]) == SeedPresents(seeds[h], final, key);
  }

  // ---------- after a run ----------

  lemma RunGrows(c: Catalog, seeds: seq<Seed>, replace: bool)
    ensures var after := Seeded(c, seeds, replace); GrewBy(c, after, RowsOfFiles(seeds, after))
  {
    RunIsUpsert(c, seeds, replace);
    UpsertGrows(c, RowsOfFiles(seeds, Seeded(c, seeds, replace)), replace);
  }

  lemma KeyThere(c: Catalog, seeds: seq<Seed>, replace: bool, key: Key)
    ensures var after := Seeded(c, seeds, replace);
            key in after.rows <==> key in c.rows || exists h | 0 <= h < |seeds| :: SeedPresents(seeds[h], after, key)
  {
    RunGrows(c, seeds, replace);
    FileRowsPresent(seeds, Seeded(c, seeds, replace), key);
  }

  lemma DistinctIds(c: Catalog, seeds: seq<Seed>, replace: bool, k: Key, l: Key)
    requires WellNumbered(c)
    requires var after := Seeded(c, seeds, replace);
             k in after.rows && l in after.rows && KindOf(k) == KindOf(l) && after.rows[k].id == after.rows[l].id
    ensures k == l
  {
    RunGrows(c, seeds, replace);
  }

  lemma ProductIsThere(c: Catalog, seeds: seq<Seed>, replace: bool, code: string)
    ensures ProductKey(code) in Seeded(c, seeds, replace).rows <==> ProductThere(c, seeds, code)
  {
    KeyThere(c, seeds, replace, ProductKey(code));
  }

  lemma SkuIsThere(c: Catalog, seeds: seq<Seed>, replace: bool, code: string)
    ensures SkuKey(code) in Seeded(c, seeds, replace).rows <==> SkuThere(c, seeds, code)
  {
    KeyThere(c, seeds, replace, SkuKey(code));
  }

  lemma PresentedSkuIsThere(c: Catalog, seeds: seq<Seed>, replace: bool, h: nat, i: nat)
    requires h < |seeds| && i < |seeds[h].products|
    ensures SkuKey(seeds[h].products[i].sku.code) in Seeded(c, seeds, replace).rows
  {
    SkuIsThere(c, seeds, replace, seeds[h].products[i].sku.code);
  }

  lemma InventoryIsThere(c: Catalog, seeds: seq<Seed>, replace: bool, sku: string)
    requires WellNumbered(c) && SkuKey(sku) in Seeded(c, seeds, replace).rows
    ensures var after := Seeded(c, seeds, replace);
            InventoryKey(after.rows[SkuKey(sku)].id) in after.rows <==> InventoryThere(c, seeds, sku)
  {
    var after := Seeded(c, seeds, replace);
    var key := InventoryKey(after.rows[SkuKey(sku)].id);
    RunGrows(c, seeds, replace);
    KeyThere(c, seeds, replace, key);
    forall h | 0 <= h < |seeds| ensures SeedPresents(seeds[h], after, key) <==> ListsSku(seeds[h], sku) {
      StockOfSku(c, seeds, replace, sku, h);
    }
    assert key in c.rows ==> RefersBelow(key, c.nextId);
  }

  lemma StockOfSku(c: Catalog, seeds: seq<Seed>, replace: bool, sku: string, h: nat)
    requires WellNumbered(c) && SkuKey(sku) in Seeded(c, seeds, replace).rows && h < |seeds|
    ensures var after := Seeded(c, seeds, replace);
            SeedPresents(seeds[h], after, InventoryKey(after.rows[SkuKey(sku)].id)) <==> ListsSku(seeds[h], sku)
  {
    var after := Seeded(c, seeds, replace);
    forall i | 0 <= i < |seeds[h].products|
      ensures after.rows[SkuKey(sku)].id == IdOf(after, SkuKey(seeds[h].products[i].sku.code)) ==> seeds[h].products[i].sku.code == sku
    {
      StockOfProduct(c, seeds, replace, sku, h, i);
    }
  }

  lemma StockOfProduct(c: Catalog, seeds: seq<Seed>, replace: bool, sku: string, h: nat, i: nat)
    requires WellNumbered(c) && SkuKey(sku) in Seeded(c, seeds, replace).rows && h < |seeds| && i < |seeds[h].products|
    ensures var after, other := Seeded(c, seeds, replace), seeds[h].products[i].sku.code;
            after.rows[SkuKey(sku)].id == IdOf(after, SkuKey(other)) ==> other == sku
  {
    var after, other := Seeded(c, seeds, replace), seeds[h].products[i].sku.code;
    PresentedSkuIsThere(c, seeds, replace, h, i);
    if after.rows[SkuKey(sku)].id == IdOf(after, SkuKey(other)) {
      DistinctIds(c, seeds, replace, SkuKey(sku), SkuKey(other));
    }
  }

  lemma CategoryIsThere(c: Catalog, seeds: seq<Seed>, replace: bool, h: nat)
    requires h < |seeds|
    ensures CategoryKey(seeds[h].category) in Seeded(c, seeds, replace).rows
  {
    KeyThere(c, seeds, replace, CategoryKey(seeds[h].category));
    assert SeedPresents(seeds[h], Seeded(c, seeds, replace), CategoryKey(seeds[h].category));
  }

  lemma AttributeIsThere(c: Catalog, seeds: seq<Seed>, replace: bool, category: string, code: string)
    requires WellNumbered(c) && CategoryKey(category) in Seeded(c, seeds, replace).rows
    ensures var after := Seeded(c, seeds, replace);
            AttributeKey(after.rows[CategoryKey(category)].id, code) in after.rows <==> AttributeThere(c, seeds, category, code)
  {
    var after := Seeded(c, seeds, replace);
    var key := AttributeKey(after.rows[CategoryKey(category)].id, code);
    RunGrows(c, seeds, replace);
    KeyThere(c, seeds, replace, key);
    if h :| 0 <= h < |seeds| && SeedPresents(seeds[h], after, key) {
      CategoryIsThere(c, seeds, replace, h);
      DistinctIds(c, seeds, replace, CategoryKey(category), CategoryKey(seeds[h].category));
    }
    if h :| 0 <= h < |seeds| && seeds[h].category == category && ListsAttribute(seeds[h], code) {
      assert SeedPresents(seeds[h], after, key);
    }
    assert key in c.rows ==> RefersBelow(key, c.nextId);
  }

  /** Inventory refers to SKUs that are there, so the next id has none. */
  lemma InventoryRefersBelow(c: Catalog, seeds: seq<Seed>, replace: bool, sku: nat)
    requires WellNumbered(c) && InventoryKey(sku) in Seeded(c, seeds, replace).rows
    ensures sku < Seeded(c, seeds, replace).nextId
  {
    var after, key := Seeded(c, seeds, replace), InventoryKey(sku);
    RunGrows(c, seeds, replace);
    KeyThere(c, seeds, replace, key);
    if key in c.rows {
      assert RefersBelow(key, c.nextId);
    } else {
      var h :| 0 <= h < |seeds| && SeedPresents(seeds[h], after, key);
      var i :| 0 <= i < |seeds[h].products| && sku == IdOf(after, SkuKey(seeds[h].products[i].sku.code));
      PresentedSkuIsThere(c, seeds, replace, h, i);
    }
  }
}

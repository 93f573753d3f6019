/** What the rows of a seeded catalog hold, column by column: a new row what the first file presenting it says,
    and a replaced row what the last file of its own source says. */
module SeedContents {
  import opened Sequences
  import opened Text
  import opened CatalogSeed
  import opened SeedLaws
  import opened SeedGuarantees
  import opened SeedKeys

  // ---------- the columns, written out ----------

  function CategoryColumns(seed: Seed): Values {
    map["code" := Str(seed.category)] + seed.categoryValues
    + map["managed_by_seed" := Flag(true), "seed_source" := Str(seed.source), "seed_version" := Str(seed.version)]
  }

  function AttributeColumns(seed: Seed, a: AttributeSeed, category: nat): Values {
    map["code" := Str(a.code)] + a.values
    + map["category_id" := Ref(category), "managed_by_seed" := Flag(true), "seed_source" := Str(seed.source),
          "seed_version" := Str(seed.version)]
  }

  function ProductColumns(seed: Seed, p: ProductSeed, category: nat): Values {
    map["product_code" := Str(p.code)] + p.values
    + map["category_id" := Ref(category), "managed_by_seed" := Flag(true), "seed_source" := Str(seed.source),
          "seed_version" := Str(seed.version)]
  }

  function SkuColumns(seed: Seed, p: ProductSeed, product: nat): Values {
    map["sku_code" := Str(p.sku.code)] + p.sku.values
    + map["product_id" := Ref(product), "managed_by_seed" := Flag(true), "seed_source" := Str(seed.source),
          "seed_version" := Str(seed.version)]
  }

  function InventoryColumns(p: ProductSeed): Values {
    map["on_hand_quantity" := Json(Decimal(p.sku.inventory)), "reserved_quantity" := Json("0"), "version" := Json("0")]
  }

  /** The row holds these columns, and perhaps others. */
  predicate Holds(row: Row, columns: Values) {
    forall name | name in columns :: name in row.values && row.values[name] == columns[name]
  }

  lemma CategoryRowHolds(seed: Seed)
    ensures CategoryRow(seed) == Presented(CategoryKey(seed.category), CategoryColumns(seed), seed.source)
  {
  }

  lemma CategoryMarks(seed: Seed, id: nat)
    ensures map["category_id" := Ref(id), "managed_by_seed" := Flag(true), "seed_source" := Str(seed.source),
                "seed_version" := Str(seed.version)] == map["category_id" := Ref(id)] + Managed(seed)
  {
  }

  lemma AttributeRowHolds(seed: Seed, a: AttributeSeed, id: nat)
    ensures AttributeRow(seed, a, id) == Presented(AttributeKey(id, a.code), AttributeColumns(seed, a, id), seed.source)
  {
    CategoryMarks(seed, id);
    RegroupValues(map["code" := Str(a.code)] + a.values, map["category_id" := Ref(id)], Managed(seed));
  }

  lemma ProductRowHolds(seed: Seed, p: ProductSeed, id: nat)
    ensures ProductRow(seed, p, id) == Presented(ProductKey(p.code), ProductColumns(seed, p, id), seed.source)
  {
    CategoryMarks(seed, id);
    RegroupValues(map["product_code" := Str(p.code)] + p.values, map["category_id" := Ref(id)], Managed(seed));
  }

  lemma SkuRowHolds(seed: Seed, p: ProductSeed, id: nat)
    ensures SkuRow(seed, p, id) == Presented(SkuKey(p.sku.code), SkuColumns(seed, p, id), seed.source)
  {
    assert map["product_id" := Ref(id), "managed_by_seed" := Flag(true), "seed_source" := Str(seed.source),
               "seed_version" := Str(seed.version)] == map["product_id" := Ref(id)] + Managed(seed);
    RegroupValues(map["sku_code" := Str(p.sku.code)] + p.sku.values, map["product_id" := Ref(id)], Managed(seed));
  }

  lemma InventoryRowHolds(seed: Seed, p: ProductSeed, id: nat)
    ensures InventoryRow(seed, p, id) == Presented(InventoryKey(id), InventoryColumns(p), seed.source)
  {
  }

  // ---------- the first row of a key, and the last of a source ----------

  predicate FirstIn(rows: seq<Presented>, r: Presented) {
    exists i | 0 <= i < |rows| :: rows[i] == r && !Presents(rows[..i], r.key)
  }

  predicate Absent(rows: seq<Presented>, key: Key, source: string) {
    forall i | 0 <= i < |rows| :: rows[i].key != key || rows[i].source != source
  }

  predicate LastIn(rows: seq<Presented>, r: Presented) {
    exists i | 0 <= i < |rows| :: rows[i] == r && Absent(rows[i + 1..], r.key, r.source)
  }

  lemma FirstOfBoth(a: seq<Presented>, b: seq<Presented>, r: Presented)
    ensures FirstIn(a, r) || (!Presents(a, r.key) && FirstIn(b, r)) ==> FirstIn(a + b, r)
  {
    var all := a + b;
    if FirstIn(a, r) {
      var i :| 0 <= i < |a| && a[i] == r && !Presents(a[..i], r.key);
      assert all[i] == r && all[..i] == a[..i];
    } else if !Presents(a, r.key) && FirstIn(b, r) {
      var i :| 0 <= i < |b| && b[i] == r && !Presents(b[..i], r.key);
      assert all[|a| + i] == r && all[..|a| + i] == a + b[..i];
      PresentsConcat(a, b[..i], r.key);
    }
  }

  lemma LastOfBoth(a: seq<Presented>, b: seq<Presented>, r: Presented)
    ensures LastIn(b, r) || (LastIn(a, r) && Absent(b, r.key, r.source)) ==> LastIn(a + b, r)
  {
    var all := a + b;
    if LastIn(b, r) {
      var i :| 0 <= i < |b| && b[i] == r && Absent(b[i + 1..], r.key, r.source);
      assert all[|a| + i] == r && all[|a| + i + 1..] == b[i + 1..];
    } else if LastIn(a, r) && Absent(b, r.key, r.source) {
      var i :| 0 <= i < |a| && a[i] == r && Absent(a[i + 1..], r.key, r.source);
      assert all[i] == r && all[i + 1..] == a[i + 1..] + b;
    }
  }

  lemma OneIsFirstAndLast(r: Presented)
    ensures FirstIn([r], r) && LastIn([r], r)
  {
    assert [r][0] == r && [r][..0] == [] && [r][1..] == [];
  }

  lemma {:induction false} FirstInIs(rows: seq<Presented>, r: Presented)
    requires FirstIn(rows, r)
    ensures Presents(rows, r.key) && FirstRow(rows, r.key) == r
    decreases |rows|
  {
    var i :| 0 <= i < |rows| && rows[i] == r && !Presents(rows[..i], r.key);
    if i > 0 {
      assert rows[..i][0] == rows[0];
      var rest := rows[1..];
      var before, shorter := rows[..i], rest[..i - 1];
      assert rest[i - 1] == r && forall j | 0 <= j < |shorter| :: shorter[j] == before[j + 1];
      assert !Presents(shorter, r.key);
      FirstInIs(rest, r);
    }
  }

  lemma {:induction false} LastInOverlay(rows: seq<Presented>, r: Presented)
    requires LastIn(rows, r)
    ensures Holds(Row(0, Overlay(rows, r.key, r.source)), r.values)
    decreases |rows|
  {
    var i :| 0 <= i < |rows| && rows[i] == r && Absent(rows[i + 1..], r.key, r.source);
    var n: nat := |rows| - 1;
    if i < n {
      assert rows[i + 1..][n - i - 1] == rows[n];
      var front := rows[..n];
      assert front[i] == r && front[i + 1..] == rows[i + 1..][..n - i - 1];
      LastInOverlay(front, r);
    }
  }

  // ---------- in a run ----------

  lemma InsertedIs(c: Catalog, seeds: seq<Seed>, replace: bool, r: Presented)
    requires r.key !in c.rows && FirstIn(RowsOfFiles(seeds, Seeded(c, seeds, replace)), r)
    requires !replace || r.key.InventoryKey?
    ensures var after := Seeded(c, seeds, replace); r.key in after.rows && after.rows[r.key].values == r.values
  {
    var rows := RowsOfFiles(seeds, Seeded(c, seeds, replace));
    RunIsUpsert(c, seeds, replace);
    FirstInIs(rows, r);
    InsertedRow(c, rows, replace, r.key);
  }

  lemma ReplacedIs(c: Catalog, seeds: seq<Seed>, r: Presented)
    requires !r.key.InventoryKey? && LastIn(RowsOfFiles(seeds, Seeded(c, seeds, true)), r)
    requires r.key in Seeded(c, seeds, true).rows && Owned(Seeded(c, seeds, true).rows[r.key], r.source)
    ensures Holds(Seeded(c, seeds, true).rows[r.key], r.values)
  {
    var after := Seeded(c, seeds, true);
    var rows := RowsOfFiles(seeds, after);
    RunIsUpsert(c, seeds, true);
    LastInOverlay(rows, r);
    OwnerOwns(after.rows[r.key], r.source);
    if r.key in c.rows {
      ExistingRow(c, rows, true, r.key);
    } else {
      InsertedRow(c, rows, true, r.key);
    }
  }

  lemma {:induction false} FirstOfConcat<T>(s: seq<T>, n: nat, f: T -> seq<Presented>, i: nat, r: Presented)
    requires i < n <= |s| && FirstIn(f(s[i]), r) && forall j | 0 <= j < i :: !Presents(f(s[j]), r.key)
    ensures FirstIn(ConcatOf(s, n, f), r)
    decreases n
  {
    var m: nat := n - 1;
    FirstOfBoth(ConcatOf(s, m, f), f(s[m]), r);
    if i < m {
      FirstOfConcat(s, m, f, i, r);
    } else {
      ConcatPresents(s, m, f, r.key);
    }
  }

  lemma {:induction false} LastOfConcat<T>(s: seq<T>, n: nat, f: T -> seq<Presented>, i: nat, r: Presented)
    requires i < n <= |s| && LastIn(f(s[i]), r) && forall j | i < j < n :: Absent(f(s[j]), r.key, r.source)
    ensures LastIn(ConcatOf(s, n, f), r)
    decreases n
  {
    var m: nat := n - 1;
    LastOfBoth(ConcatOf(s, m, f), f(s[m]), r);
    if i < m {
      LastOfConcat(s, m, f, i, r);
    }
  }

  function RowsOfFile(final: Catalog): Seed -> seq<Presented> {
    (seed: Seed) => RowsOf(seed, final)
  }

  lemma OneMoreFile(front: seq<Seed>, last: Seed, final: Catalog)
    ensures RowsOfFiles(front + [last], final) == RowsOfFiles(front, final) + RowsOf(last, final)
  {
    assert (front + [last])[..|front|] == front;
  }

  lemma {:induction false} FilesAreConcat(seeds: seq<Seed>, final: Catalog, n: nat)
    requires n <= |seeds|
    ensures RowsOfFiles(seeds[..n], final) == ConcatOf(seeds, n, RowsOfFile(final))
    decreases n
  {
    if n == 0 {
      assert seeds[..0] == [];
    } else {
      var m: nat := n - 1;
      TakeOneMore(seeds, m);
      OneMoreFile(seeds[..m], seeds[m], final);
      FilesAreConcat(seeds, final, m);
    }
  }

  lemma FilesAre(seeds: seq<Seed>, final: Catalog)
    ensures RowsOfFiles(seeds, final) == ConcatOf(seeds, |seeds|, RowsOfFile(final))
  {
    FilesAreConcat(seeds, final, |seeds|);
    TakeAll(seeds);
  }

  lemma FirstOfFiles(seeds: seq<Seed>, final: Catalog, h: nat, r: Presented)
    requires h < |seeds| && FirstIn(RowsOf(seeds[h], final), r)
    requires forall g | 0 <= g < h :: !SeedPresents(seeds[g], final, r.key)
    ensures FirstIn(RowsOfFiles(seeds, final), r)
  {
    var f := RowsOfFile(final);
    FilesAre(seeds, final);
    forall g | 0 <= g < h ensures !Presents(f(seeds[g]), r.key) {
      SeedRowsPresent(seeds[g], final, r.key);
    }
    FirstOfConcat(seeds, |seeds|, f, h, r);
  }

  lemma FileLacks(seed: Seed, final: Catalog, r: Presented)
    requires seed.source != r.source || !SeedPresents(seed, final, r.key)
    ensures Absent(RowsOf(seed, final), r.key, r.source)
  {
    var rows := RowsOf(seed, final);
    SeedRowsPresent(seed, final, r.key);
    RowsOfAreFrom(seed, final);
    forall i | 0 <= i < |rows| ensures rows[i].key != r.key || rows[i].source != r.source {
      assert FromSource(seed.source)(rows[i]);
    }
  }

  lemma LastOfFiles(seeds: seq<Seed>, final: Catalog, h: nat, r: Presented)
    requires h < |seeds| && LastIn(RowsOf(seeds[h], final), r)
    requires forall g | h < g < |seeds| :: seeds[g].source != r.source || !SeedPresents(seeds[g], final, r.key)
    ensures LastIn(RowsOfFiles(seeds, final), r)
  {
    var f := RowsOfFile(final);
    FilesAre(seeds, final);
    forall g | h < g < |seeds| ensures Absent(f(seeds[g]), r.key, r.source) {
      FileLacks(seeds[g], final, r);
    }
    LastOfConcat(seeds, |seeds|, f, h, r);
  }

  // ---------- in a file ----------

  /** The rows of one product have keys of different kinds. */
  lemma ProductRowsDiffer(seed: Seed, p: ProductSeed, final: Catalog, category: nat, k: nat)
    requires k < 3
    ensures var rows := ProductRows(seed, p, final, category); FirstIn(rows, rows[k]) && LastIn(rows, rows[k])
  {
    var rows := ProductRows(seed, p, final, category);
    assert rows[0].key != rows[1].key && rows[1].key != rows[2].key && rows[0].key != rows[2].key;
    assert !Presents(rows[..k], rows[k].key) && Absent(rows[k + 1..], rows[k].key, rows[k].source);
  }

  /** Attributes as a concatenation of single rows. */
  function RowOfAttribute(seed: Seed, category: nat): AttributeSeed -> seq<Presented> {
    (a: AttributeSeed) => [AttributeRow(seed, a, category)]
  }

  lemma {:induction false} AttributesAreConcat(seed: Seed, category: nat, n: nat)
    requires n <= |seed.attributes|
    ensures AttributeRows(seed, category, n) == ConcatOf(seed.attributes, n, RowOfAttribute(seed, category))
    decreases n
  {
    if n > 0 {
      var m: nat := n - 1;
      AttributesAreConcat(seed, category, m);
    }
  }

  lemma LacksKey(rows: seq<Presented>, key: Key, source: string)
    requires !Presents(rows, key)
    ensures Absent(rows, key, source)
  {
  }

  lemma CategoryInFile(seed: Seed, final: Catalog)
    ensures FirstIn(RowsOf(seed, final), CategoryRow(seed)) && LastIn(RowsOf(seed, final), CategoryRow(seed))
  {
    var id := IdOf(final, CategoryKey(seed.category));
    var r := CategoryRow(seed);
    var attributes, products := AttributeRows(seed, id, |seed.attributes|), AllProductRows(seed, final, id, |seed.products|);
    AttributeRowsPresent(seed, id, |seed.attributes|, r.key);
    AllProductRowsPresent(seed, final, id, r.key);
    PresentsConcat(attributes, products, r.key);
    LacksKey(attributes + products, r.key, r.source);
    OneIsFirstAndLast(r);
    FirstOfBoth([r], attributes + products, r);
    LastOfBoth([r], attributes + products, r);
  }

  lemma AttributesInFile(seed: Seed, final: Catalog, r: Presented)
    requires r.key.AttributeKey?
    ensures var attributes := AttributeRows(seed, IdOf(final, CategoryKey(seed.category)), |seed.attributes|);
            && (FirstIn(attributes, r) ==> FirstIn(RowsOf(seed, final), r))
            && (LastIn(attributes, r) ==> LastIn(RowsOf(seed, final), r))
  {
    var id := IdOf(final, CategoryKey(seed.category));
    var first := CategoryRow(seed);
    var attributes, products := AttributeRows(seed, id, |seed.attributes|), AllProductRows(seed, final, id, |seed.products|);
    AllProductRowsPresent(seed, final, id, r.key);
    LacksKey(products, r.key, r.source);
    FirstOfBoth(attributes, products, r);
    LastOfBoth(attributes, products, r);
    FirstOfBoth([first], attributes + products, r);
    LastOfBoth([first], attributes + products, r);
  }

  lemma ProductsInFile(seed: Seed, final: Catalog, r: Presented)
    requires r.key.ProductKey? || r.key.SkuKey? || r.key.InventoryKey?
    ensures var products := AllProductRows(seed, final, IdOf(final, CategoryKey(seed.category)), |seed.products|);
            && (FirstIn(products, r) ==> FirstIn(RowsOf(seed, final), r))
            && (LastIn(products, r) ==> LastIn(RowsOf(seed, final), r))
  {
    var id := IdOf(final, CategoryKey(seed.category));
    var first := CategoryRow(seed);
    var attributes, products := AttributeRows(seed, id, |seed.attributes|), AllProductRows(seed, final, id, |seed.products|);
    AttributeRowsPresent(seed, id, |seed.attributes|, r.key);
    FirstOfBoth(attributes, products, r);
    LastOfBoth(attributes, products, r);
    FirstOfBoth([first], attributes + products, r);
    LastOfBoth([first], attributes + products, r);
  }

  lemma ProductRowsInFile(seed: Seed, final: Catalog, i: nat, k: nat)
    requires i < |seed.products| && k < 3
    ensures var r := ProductRows(seed, seed.products[i], final, IdOf(final, CategoryKey(seed.category)))[k];
            && ((forall j | 0 <= j < i :: !ProductPresents(seed.products[j], final, r.key)) ==> FirstIn(RowsOf(seed, final), r))
            && ((forall j | i < j < |seed.products| :: !ProductPresents(seed.products[j], final, r.key)) ==>
                  LastIn(RowsOf(seed, final), r))
  {
    var id, n := IdOf(final, CategoryKey(seed.category)), |seed.products|;
    var f, r := RowsOfProduct(seed, final, id), ProductRows(seed, seed.products[i], final, id)[k];
    ProductRowsDiffer(seed, seed.products[i], final, id, k);
    forall j | 0 <= j < n ensures Presents(f(seed.products[j]), r.key) <==> ProductPresents(seed.products[j], final, r.key) {
      ProductRowsPresent(seed, seed.products[j], final, id, r.key);
    }
    ProductsInFile(seed, final, r);
    if forall j | 0 <= j < i :: !ProductPresents(seed.products[j], final, r.key) {
      FirstOfConcat(seed.products, n, f, i, r);
    }
    if forall j | i < j < n :: !ProductPresents(seed.products[j], final, r.key) {
      forall j | i < j < n ensures Absent(f(seed.products[j]), r.key, r.source) {
        LacksKey(f(seed.products[j]), r.key, r.source);
      }
      LastOfConcat(seed.products, n, f, i, r);
    }
  }

  lemma AttributeRowInFile(seed: Seed, final: Catalog, i: nat)
    requires i < |seed.attributes|
    ensures var code, r := seed.attributes[i].code, AttributeRow(seed, seed.attributes[i], IdOf(final, CategoryKey(seed.category)));
            && ((forall j | 0 <= j < i :: seed.attributes[j].code != code) ==> FirstIn(RowsOf(seed, final), r))
            && ((forall j | i < j < |seed.attributes| :: seed.attributes[j].code != code) ==> LastIn(RowsOf(seed, final), r))
  {
    var id, n := IdOf(final, CategoryKey(seed.category)), |seed.attributes|;
    var f, r, code := RowOfAttribute(seed, id), AttributeRow(seed, seed.attributes[i], id), seed.attributes[i].code;
    AttributesAreConcat(seed, id, n);
    OneIsFirstAndLast(r);
    forall j | 0 <= j < n ensures Presents(f(seed.attributes[j]), r.key) <==> seed.attributes[j].code == code {
      var row := AttributeRow(seed, seed.attributes[j], id);
      assert f(seed.attributes[j]) == [row] && [row][0] == row;
    }
    AttributesInFile(seed, final, r);
    if forall j | 0 <= j < i :: seed.attributes[j].code != code {
      FirstOfConcat(seed.attributes, n, f, i, r);
    }
    if forall j | i < j < n :: seed.attributes[j].code != code {
      forall j | i < j < n ensures Absent(f(seed.attributes[j]), r.key, r.source) {
        LacksKey(f(seed.attributes[j]), r.key, r.source);
      }
      LastOfConcat(seed.attributes, n, f, i, r);
    }
  }

  // ---------- categories ----------

  /** A new category holds what the first file about it says; after a replacing run a category holds what the
      last file about it of its own source says. */
  lemma CategoryHolds(c: Catalog, seeds: seq<Seed>, h: nat)
    requires h < |seeds|
    ensures var key, after := CategoryKey(seeds[h].category), Seeded(c, seeds, false);
            key !in c.rows && (forall g | 0 <= g < h :: seeds[g].category != seeds[h].category) ==>
              key in after.rows && after.rows[key].values == CategoryColumns(seeds[h])
    ensures var key, after := CategoryKey(seeds[h].category), Seeded(c, seeds, true);
            && key in after.rows
            && (Owned(after.rows[key], seeds[h].source)
                && (forall g | h < g < |seeds| && seeds[g].source == seeds[h].source :: seeds[g].category != seeds[h].category) ==>
                  Holds(after.rows[key], CategoryColumns(seeds[h])))
  {
    CategoryIsInserted(c, seeds, h);
    CategoryIsReplaced(c, seeds, h);
  }

  lemma CategoryIsInserted(c: Catalog, seeds: seq<Seed>, h: nat)
    requires h < |seeds|
    ensures var key, after := CategoryKey(seeds[h].category), Seeded(c, seeds, false);
            key !in c.rows && (forall g | 0 <= g < h :: seeds[g].category != seeds[h].category) ==>
              key in after.rows && after.rows[key].values == CategoryColumns(seeds[h])
  {
    var seed, after := seeds[h], Seeded(c, seeds, false);
    var r := Presented(CategoryKey(seed.category), CategoryColumns(seed), seed.source);
    CategoryRowHolds(seed);
    CategoryInFile(seed, after);
    if r.key !in c.rows && forall g | 0 <= g < h :: seeds[g].category != seed.category {
      FirstOfFiles(seeds, after, h, r);
      InsertedIs(c, seeds, false, r);
    }
  }

  lemma CategoryIsReplaced(c: Catalog, seeds: seq<Seed>, h: nat)
    requires h < |seeds|
    ensures var key, after := CategoryKey(seeds[h].category), Seeded(c, seeds, true);
            && key in after.rows
            && (Owned(after.rows[key], seeds[h].source)
                && (forall g | h < g < |seeds| && seeds[g].source == seeds[h].source :: seeds[g].category != seeds[h].category) ==>
                  Holds(after.rows[key], CategoryColumns(seeds[h])))
  {
    var seed, after := seeds[h], Seeded(c, seeds, true);
    var r := Presented(CategoryKey(seed.category), CategoryColumns(seed), seed.source);
    CategoryRowHolds(seed);
    CategoryIsThere(c, seeds, true, h);
    CategoryInFile(seed, after);
    if Owned(after.rows[r.key], seed.source)
       && forall g | h < g < |seeds| && seeds[g].source == seed.source :: seeds[g].category != seed.category {
      LastOfFiles(seeds, after, h, r);
      ReplacedIs(c, seeds, r);
    }
  }

  // ---------- products and SKUs ----------

  /** No product presented before product i of file h has its code. */
  predicate FirstProduct(seeds: seq<Seed>, h: nat, i: nat)
    requires h < |seeds| && i < |seeds[h].products|
  {
    && (forall g | 0 <= g < h :: !ListsProduct(seeds[g], seeds[h].products[i].code))
    && forall j | 0 <= j < i :: seeds[h].products[j].code != seeds[h].products[i].code
  }

  /** No product that its source presents later has its code. */
  predicate LastProduct(seeds: seq<Seed>, h: nat, i: nat)
    requires h < |seeds| && i < |seeds[h].products|
  {
    && (forall g | h < g < |seeds| && seeds[g].source == seeds[h].source :: !ListsProduct(seeds[g], seeds[h].products[i].code))
    && forall j | i < j < |seeds[h].products| :: seeds[h].products[j].code != seeds[h].products[i].code
  }

  predicate FirstSku(seeds: seq<Seed>, h: nat, i: nat)
    requires h < |seeds| && i < |seeds[h].products|
  {
    && (forall g | 0 <= g < h :: !ListsSku(seeds[g], seeds[h].products[i].sku.code))
    && forall j | 0 <= j < i :: seeds[h].products[j].sku.code != seeds[h].products[i].sku.code
  }

  predicate LastSku(seeds: seq<Seed>, h: nat, i: nat)
    requires h < |seeds| && i < |seeds[h].products|
  {
    && (forall g | h < g < |seeds| && seeds[g].source == seeds[h].source :: !ListsSku(seeds[g], seeds[h].products[i].sku.code))
    && forall j | i < j < |seeds[h].products| :: seeds[h].products[j].sku.code != seeds[h].products[i].sku.code
  }

  lemma PresentedAreThere(c: Catalog, seeds: seq<Seed>, replace: bool, h: nat, i: nat)
    requires h < |seeds| && i < |seeds[h].products|
    ensures var after, p := Seeded(c, seeds, replace), seeds[h].products[i];
            CategoryKey(seeds[h].category) in after.rows && ProductKey(p.code) in after.rows && SkuKey(p.sku.code) in after.rows
  {
    CategoryIsThere(c, seeds, replace, h);
    ProductIsThere(c, seeds, replace, seeds[h].products[i].code);
    SkuIsThere(c, seeds, replace, seeds[h].products[i].sku.code);
  }

  lemma FirstProductRow(seeds: seq<Seed>, final: Catalog, h: nat, i: nat)
    requires h < |seeds| && i < |seeds[h].products| && FirstProduct(seeds, h, i)
    ensures FirstIn(RowsOfFiles(seeds, final), ProductRow(seeds[h], seeds[h].products[i], IdOf(final, CategoryKey(seeds[h].category))))
  {
    ProductRowsInFile(seeds[h], final, i, 0);
    FirstOfFiles(seeds, final, h, ProductRow(seeds[h], seeds[h].products[i], IdOf(final, CategoryKey(seeds[h].category))));
  }

  lemma LastProductRow(seeds: seq<Seed>, final: Catalog, h: nat, i: nat)
    requires h < |seeds| && i < |seeds[h].products| && LastProduct(seeds, h, i)
    ensures LastIn(RowsOfFiles(seeds, final), ProductRow(seeds[h], seeds[h].products[i], IdOf(final, CategoryKey(seeds[h].category))))
  {
    ProductRowsInFile(seeds[h], final, i, 0);
    LastOfFiles(seeds, final, h, ProductRow(seeds[h], seeds[h].products[i], IdOf(final, CategoryKey(seeds[h].category))));
  }

  lemma ProductIsInserted(c: Catalog, seeds: seq<Seed>, h: nat, i: nat)
    requires h < |seeds| && i < |seeds[h].products| && FirstProduct(seeds, h, i)
    requires ProductKey(seeds[h].products[i].code) !in c.rows
    ensures var seed, after := seeds[h], Seeded(c, seeds, false);
            var key, category := ProductKey(seed.products[i].code), CategoryKey(seed.category);
            && key in after.rows && category in after.rows
            && after.rows[key].values == ProductColumns(seed, seed.products[i], after.rows[category].id)
  {
    var seed, after := seeds[h], Seeded(c, seeds, false);
    var id := IdOf(after, CategoryKey(seed.category));
    CategoryIsThere(c, seeds, false, h);
    ProductRowHolds(seed, seed.products[i], id);
    FirstProductRow(seeds, after, h, i);
    InsertedIs(c, seeds, false, ProductRow(seed, seed.products[i], id));
  }

  lemma ProductIsReplaced(c: Catalog, seeds: seq<Seed>, h: nat, i: nat)
    requires h < |seeds| && i < |seeds[h].products| && LastProduct(seeds, h, i)
    ensures var seed, after := seeds[h], Seeded(c, seeds, true);
            var key, category := ProductKey(seed.products[i].code), CategoryKey(seed.category);
            && key in after.rows && category in after.rows
            && (Owned(after.rows[key], seed.source) ==>
                  Holds(after.rows[key], ProductColumns(seed, seed.products[i], after.rows[category].id)))
  {
    var seed, after := seeds[h], Seeded(c, seeds, true);
    var id := IdOf(after, CategoryKey(seed.category));
    PresentedAreThere(c, seeds, true, h, i);
    if Owned(after.rows[ProductKey(seed.products[i].code)], seed.source) {
      ProductRowHolds(seed, seed.products[i], id);
      LastProductRow(seeds, after, h, i);
      ReplacedIs(c, seeds, ProductRow(seed, seed.products[i], id));
    }
  }

  /** A new product holds what the first file presenting it says, and after a replacing run a product holds what
      its own source says last: the file's columns and marks, and the id its category has in the final catalog. */
  lemma ProductHolds(c: Catalog, seeds: seq<Seed>, h: nat, i: nat)
    requires h < |seeds| && i < |seeds[h].products|
    ensures var seed, after := seeds[h], Seeded(c, seeds, false);
            var key, category := ProductKey(seed.products[i].code), CategoryKey(seed.category);
            key !in c.rows && FirstProduct(seeds, h, i) ==>
              && key in after.rows && category in after.rows
              && after.rows[key].values == ProductColumns(seed, seed.products[i], after.rows[category].id)
    ensures var seed, after := seeds[h], Seeded(c, seeds, true);
            var key, category := ProductKey(seed.products[i].code), CategoryKey(seed.category);
            && key in after.rows && category in after.rows
            && (LastProduct(seeds, h, i) && Owned(after.rows[key], seed.source) ==>
                  Holds(after.rows[key], ProductColumns(seed, seed.products[i], after.rows[category].id)))
  {
    if ProductKey(seeds[h].products[i].code) !in c.rows && FirstProduct(seeds, h, i) {
      ProductIsInserted(c, seeds, h, i);
    }
    PresentedAreThere(c, seeds, true, h, i);
    if LastProduct(seeds, h, i) {
      ProductIsReplaced(c, seeds, h, i);
    }
  }

  lemma FirstSkuRow(seeds: seq<Seed>, final: Catalog, h: nat, i: nat)
    requires h < |seeds| && i < |seeds[h].products| && FirstSku(seeds, h, i)
    ensures var p := seeds[h].products[i];
            FirstIn(RowsOfFiles(seeds, final), SkuRow(seeds[h], p, IdOf(final, ProductKey(p.code))))
  {
    ProductRowsInFile(seeds[h], final, i, 1);
    FirstOfFiles(seeds, final, h, SkuRow(seeds[h], seeds[h].products[i], IdOf(final, ProductKey(seeds[h].products[i].code))));
  }

  lemma LastSkuRow(seeds: seq<Seed>, final: Catalog, h: nat, i: nat)
    requires h < |seeds| && i < |seeds[h].products| && LastSku(seeds, h, i)
    ensures var p := seeds[h].products[i];
            LastIn(RowsOfFiles(seeds, final), SkuRow(seeds[h], p, IdOf(final, ProductKey(p.code))))
  {
    ProductRowsInFile(seeds[h], final, i, 1);
    LastOfFiles(seeds, final, h, SkuRow(seeds[h], seeds[h].products[i], IdOf(final, ProductKey(seeds[h].products[i].code))));
  }

  lemma SkuIsInserted(c: Catalog, seeds: seq<Seed>, h: nat, i: nat)
    requires h < |seeds| && i < |seeds[h].products| && FirstSku(seeds, h, i)
    requires SkuKey(seeds[h].products[i].sku.code) !in c.rows
    ensures var p, after := seeds[h].products[i], Seeded(c, seeds, false);
            && SkuKey(p.sku.code) in after.rows && ProductKey(p.code) in after.rows
            && after.rows[SkuKey(p.sku.code)].values == SkuColumns(seeds[h], p, after.rows[ProductKey(p.code)].id)
  {
    var seed, p, after := seeds[h], seeds[h].products[i], Seeded(c, seeds, false);
    var id := IdOf(after, ProductKey(p.code));
    ProductIsThere(c, seeds, false, p.code);
    SkuRowHolds(seed, p, id);
    FirstSkuRow(seeds, after, h, i);
    InsertedIs(c, seeds, false, SkuRow(seed, p, id));
  }

  lemma SkuIsReplaced(c: Catalog, seeds: seq<Seed>, h: nat, i: nat)
    requires h < |seeds| && i < |seeds[h].products| && LastSku(seeds, h, i)
    ensures var p, after := seeds[h].products[i], Seeded(c, seeds, true);
            && SkuKey(p.sku.code) in after.rows && ProductKey(p.code) in after.rows
            && (Owned(after.rows[SkuKey(p.sku.code)], seeds[h].source) ==>
                  Holds(after.rows[SkuKey(p.sku.code)], SkuColumns(seeds[h], p, after.rows[ProductKey(p.code)].id)))
  {
    var seed, p, after := seeds[h], seeds[h].products[i], Seeded(c, seeds, true);
    var id := IdOf(after, ProductKey(p.code));
    PresentedAreThere(c, seeds, true, h, i);
    if Owned(after.rows[SkuKey(p.sku.code)], seed.source) {
      SkuRowHolds(seed, p, id);
      LastSkuRow(seeds, after, h, i);
      ReplacedIs(c, seeds, SkuRow(seed, p, id));
    }
  }

  /** So does a SKU, with the id its product has in the final catalog. */
  lemma SkuHolds(c: Catalog, seeds: seq<Seed>, h: nat, i: nat)
    requires h < |seeds| && i < |seeds[h].products|
    ensures var p, after := seeds[h].products[i], Seeded(c, seeds, false);
            SkuKey(p.sku.code) !in c.rows && FirstSku(seeds, h, i) ==>
              && SkuKey(p.sku.code) in after.rows && ProductKey(p.code) in after.rows
              && after.rows[SkuKey(p.sku.code)].values == SkuColumns(seeds[h], p, after.rows[ProductKey(p.code)].id)
    ensures var p, after := seeds[h].products[i], Seeded(c, seeds, true);
            && SkuKey(p.sku.code) in after.rows && ProductKey(p.code) in after.rows
            && (LastSku(seeds, h, i) && Owned(after.rows[SkuKey(p.sku.code)], seeds[h].source) ==>
                  Holds(after.rows[SkuKey(p.sku.code)], SkuColumns(seeds[h], p, after.rows[ProductKey(p.code)].id)))
  {
    if SkuKey(seeds[h].products[i].sku.code) !in c.rows && FirstSku(seeds, h, i) {
      SkuIsInserted(c, seeds, h, i);
    }
    PresentedAreThere(c, seeds, true, h, i);
    if LastSku(seeds, h, i) {
      SkuIsReplaced(c, seeds, h, i);
    }
  }

  // ---------- inventory ----------

  lemma SameStock(c: Catalog, seeds: seq<Seed>, replace: bool, a: string, b: string)
    requires WellNumbered(c) && a != b
    requires SkuKey(a) in Seeded(c, seeds, replace).rows && SkuKey(b) in Seeded(c, seeds, replace).rows
    ensures IdOf(Seeded(c, seeds, replace), SkuKey(a)) != IdOf(Seeded(c, seeds, replace), SkuKey(b))
  {
    if Seeded(c, seeds, replace).rows[SkuKey(a)].id == Seeded(c, seeds, replace).rows[SkuKey(b)].id {
      DistinctIds(c, seeds, replace, SkuKey(a), SkuKey(b));
    }
  }

  lemma OtherStock(c: Catalog, seeds: seq<Seed>, replace: bool, h: nat, i: nat, g: nat, j: nat)
    requires WellNumbered(c) && h < |seeds| && i < |seeds[h].products| && g < |seeds| && j < |seeds[g].products|
    requires seeds[h].products[i].sku.code != seeds[g].products[j].sku.code
    ensures var after := Seeded(c, seeds, replace);
            IdOf(after, SkuKey(seeds[h].products[i].sku.code)) != IdOf(after, SkuKey(seeds[g].products[j].sku.code))
  {
    PresentedSkuIsThere(c, seeds, replace, h, i);
    PresentedSkuIsThere(c, seeds, replace, g, j);
    SameStock(c, seeds, replace, seeds[h].products[i].sku.code, seeds[g].products[j].sku.code);
  }

  lemma FirstStock(c: Catalog, seeds: seq<Seed>, replace: bool, h: nat, i: nat)
    requires WellNumbered(c) && h < |seeds| && i < |seeds[h].products| && FirstSku(seeds, h, i)
    ensures var seed, after := seeds[h], Seeded(c, seeds, replace);
            FirstIn(RowsOfFiles(seeds, after), InventoryRow(seed, seed.products[i], IdOf(after, SkuKey(seed.products[i].sku.code))))
  {
    var seed, after := seeds[h], Seeded(c, seeds, replace);
    var r := InventoryRow(seed, seed.products[i], IdOf(after, SkuKey(seed.products[i].sku.code)));
    forall j | 0 <= j < i ensures !ProductPresents(seed.products[j], after, r.key) {
      OtherStock(c, seeds, replace, h, i, h, j);
    }
    forall g | 0 <= g < h ensures !SeedPresents(seeds[g], after, r.key) {
      forall j | 0 <= j < |seeds[g].products| ensures r.key.sku != IdOf(after, SkuKey(seeds[g].products[j].sku.code)) {
        OtherStock(c, seeds, replace, h, i, g, j);
      }
    }
    ProductRowsInFile(seed, after, i, 2);
    FirstOfFiles(seeds, after, h, r);
  }

  /** In either mode, a SKU without inventory before the run has on hand what the first product presenting it says,
      nothing reserved, and version 0. */
  lemma NewInventoryHolds(c: Catalog, seeds: seq<Seed>, replace: bool, h: nat, i: nat)
    requires WellNumbered(c) && h < |seeds| && i < |seeds[h].products| && FirstSku(seeds, h, i)
    requires var sku := SkuKey(seeds[h].products[i].sku.code); sku !in c.rows || InventoryKey(c.rows[sku].id) !in c.rows
    ensures var p, after := seeds[h].products[i], Seeded(c, seeds, replace);
            && SkuKey(p.sku.code) in after.rows && InventoryKey(after.rows[SkuKey(p.sku.code)].id) in after.rows
            && after.rows[InventoryKey(after.rows[SkuKey(p.sku.code)].id)].values
               == map["on_hand_quantity" := Json(Decimal(p.sku.inventory)), "reserved_quantity" := Json("0"), "version" := Json("0")]
  {
    var p, after := seeds[h].products[i], Seeded(c, seeds, replace);
    var r := InventoryRow(seeds[h], p, IdOf(after, SkuKey(p.sku.code)));
    PresentedAreThere(c, seeds, replace, h, i);
    InventoryRowHolds(seeds[h], p, IdOf(after, SkuKey(p.sku.code)));
    FirstStock(c, seeds, replace, h, i);
    NoStockBefore(c, seeds, replace, p.sku.code);
    InsertedIs(c, seeds, replace, r);
  }

  lemma NoStockBefore(c: Catalog, seeds: seq<Seed>, replace: bool, sku: string)
    requires WellNumbered(c) && SkuKey(sku) in Seeded(c, seeds, replace).rows
    requires SkuKey(sku) !in c.rows || InventoryKey(c.rows[SkuKey(sku)].id) !in c.rows
    ensures InventoryKey(Seeded(c, seeds, replace).rows[SkuKey(sku)].id) !in c.rows
  {
    RunGrows(c, seeds, replace);
    var key := InventoryKey(Seeded(c, seeds, replace).rows[SkuKey(sku)].id);
    assert key in c.rows ==> RefersBelow(key, c.nextId);
  }

  // ---------- attributes ----------

  /** No attribute that is presented for this category before attribute i of file h has its code. */
  predicate FirstAttribute(seeds: seq<Seed>, h: nat, i: nat)
    requires h < |seeds| && i < |seeds[h].attributes|
  {
    && (forall g | 0 <= g < h && seeds[g].category == seeds[h].category :: !ListsAttribute(seeds[g], seeds[h].attributes[i].code))
    && forall j | 0 <= j < i :: seeds[h].attributes[j].code != seeds[h].attributes[i].code
  }

  predicate LastAttribute(seeds: seq<Seed>, h: nat, i: nat)
    requires h < |seeds| && i < |seeds[h].attributes|
  {
    && (forall g | h < g < |seeds| && seeds[g].category == seeds[h].category && seeds[g].source == seeds[h].source ::
          !ListsAttribute(seeds[g], seeds[h].attributes[i].code))
    && forall j | i < j < |seeds[h].attributes| :: seeds[h].attributes[j].code != seeds[h].attributes[i].code
  }

  /** Another file presents the attribute only if it is about the same category. */
  lemma SameCategory(c: Catalog, seeds: seq<Seed>, replace: bool, h: nat, g: nat, code: string)
    requires WellNumbered(c) && h < |seeds| && g < |seeds|
    ensures var after := Seeded(c, seeds, replace);
            SeedPresents(seeds[g], after, AttributeKey(IdOf(after, CategoryKey(seeds[h].category)), code)) ==>
              seeds[g].category == seeds[h].category && ListsAttribute(seeds[g], code)
  {
    var after := Seeded(c, seeds, replace);
    CategoryIsThere(c, seeds, replace, h);
    CategoryIsThere(c, seeds, replace, g);
    if IdOf(after, CategoryKey(seeds[g].category)) == IdOf(after, CategoryKey(seeds[h].category)) {
      DistinctIds(c, seeds, replace, CategoryKey(seeds[g].category), CategoryKey(seeds[h].category));
    }
  }

  lemma FirstAttributeRow(c: Catalog, seeds: seq<Seed>, h: nat, i: nat)
    requires WellNumbered(c) && h < |seeds| && i < |seeds[h].attributes| && FirstAttribute(seeds, h, i)
    ensures var seed, after := seeds[h], Seeded(c, seeds, false);
            FirstIn(RowsOfFiles(seeds, after), AttributeRow(seed, seed.attributes[i], IdOf(after, CategoryKey(seed.category))))
  {
    var seed, after := seeds[h], Seeded(c, seeds, false);
    var r := AttributeRow(seed, seed.attributes[i], IdOf(after, CategoryKey(seed.category)));
    forall g | 0 <= g < h ensures !SeedPresents(seeds[g], after, r.key) {
      SameCategory(c, seeds, false, h, g, seed.attributes[i].code);
    }
    AttributeRowInFile(seed, after, i);
    FirstOfFiles(seeds, after, h, r);
  }

  lemma LastAttributeRow(c: Catalog, seeds: seq<Seed>, h: nat, i: nat)
    requires WellNumbered(c) && h < |seeds| && i < |seeds[h].attributes| && LastAttribute(seeds, h, i)
    ensures var seed, after := seeds[h], Seeded(c, seeds, true);
            LastIn(RowsOfFiles(seeds, after), AttributeRow(seed, seed.attributes[i], IdOf(after, CategoryKey(seed.category))))
  {
    var seed, after := seeds[h], Seeded(c, seeds, true);
    var r := AttributeRow(seed, seed.attributes[i], IdOf(after, CategoryKey(seed.category)));
    forall g | h < g < |seeds| ensures seeds[g].source != r.source || !SeedPresents(seeds[g], after, r.key) {
      SameCategory(c, seeds, true, h, g, seed.attributes[i].code);
    }
    AttributeRowInFile(seed, after, i);
    LastOfFiles(seeds, after, h, r);
  }

  lemma AttributeThereAfter(c: Catalog, seeds: seq<Seed>, replace: bool, h: nat, i: nat)
    requires WellNumbered(c) && h < |seeds| && i < |seeds[h].attributes|
    ensures var after := Seeded(c, seeds, replace);
            && CategoryKey(seeds[h].category) in after.rows
            && AttributeKey(after.rows[CategoryKey(seeds[h].category)].id, seeds[h].attributes[i].code) in after.rows
  {
    CategoryIsThere(c, seeds, replace, h);
    AttributeIsThere(c, seeds, replace, seeds[h].category, seeds[h].attributes[i].code);
  }

  lemma AttributeIsInserted(c: Catalog, seeds: seq<Seed>, h: nat, i: nat)
    requires WellNumbered(c) && h < |seeds| && i < |seeds[h].attributes| && FirstAttribute(seeds, h, i)
    ensures var seed, after := seeds[h], Seeded(c, seeds, false);
            && CategoryKey(seed.category) in after.rows
            && var id := after.rows[CategoryKey(seed.category)].id;
               AttributeKey(id, seed.attributes[i].code) !in c.rows ==>
                 && AttributeKey(id, seed.attributes[i].code) in after.rows
                 && after.rows[AttributeKey(id, seed.attributes[i].code)].values == AttributeColumns(seed, seed.attributes[i], id)
  {
    var seed, after := seeds[h], Seeded(c, seeds, false);
    AttributeThereAfter(c, seeds, false, h, i);
    var id := after.rows[CategoryKey(seed.category)].id;
    if AttributeKey(id, seed.attributes[i].code) !in c.rows {
      AttributeRowHolds(seed, seed.attributes[i], id);
      FirstAttributeRow(c, seeds, h, i);
      InsertedIs(c, seeds, false, AttributeRow(seed, seed.attributes[i], id));
    }
  }

  lemma AttributeIsReplaced(c: Catalog, seeds: seq<Seed>, h: nat, i: nat)
    requires WellNumbered(c) && h < |seeds| && i < |seeds[h].attributes| && LastAttribute(seeds, h, i)
    ensures var seed, after := seeds[h], Seeded(c, seeds, true);
            && CategoryKey(seed.category) in after.rows
            && var id := after.rows[CategoryKey(seed.category)].id;
               && AttributeKey(id, seed.attributes[i].code) in after.rows
               && (Owned(after.rows[AttributeKey(id, seed.attributes[i].code)], seed.source) ==>
                     Holds(after.rows[AttributeKey(id, seed.attributes[i].code)], AttributeColumns(seed, seed.attributes[i], id)))
  {
    var seed, after := seeds[h], Seeded(c, seeds, true);
    AttributeThereAfter(c, seeds, true, h, i);
    var id := after.rows[CategoryKey(seed.category)].id;
    var r := AttributeRow(seed, seed.attributes[i], id);
    if Owned(after.rows[r.key], seed.source) {
      AttributeRowHolds(seed, seed.attributes[i], id);
      LastAttributeRow(c, seeds, h, i);
      ReplacedIs(c, seeds, r);
    }
  }
}

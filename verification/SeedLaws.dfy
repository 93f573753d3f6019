/** A seeding run as a fixed list of presented rows: the rows of a file and of several, keyed by the ids
    of the catalog the run leads to. */
module SeedLaws {
  import opened Sequences
  import opened Text
  import opened CatalogSeed

  // ---------- a run as a fixed list of presented rows ----------

  function PresentAll<S(!new)>(pr: Presenter<S>, s: S, rows: seq<Presented>): S {
    if rows == [] then s else pr.present(PresentAll(pr, s, rows[..|rows| - 1]), rows[|rows| - 1])
  }

  lemma {:induction false} PresentAllConcat<S(!new)>(pr: Presenter<S>, s: S, a: seq<Presented>, b: seq<Presented>)
    ensures PresentAll(pr, s, a + b) == PresentAll(pr, PresentAll(pr, s, a), b)
  {
    if b == [] {
      ConcatNothing(a);
    } else {
      ConcatLast(a, b);
      PresentAllConcat(pr, s, a, b[..|b| - 1]);
    }
  }

  lemma PresentOne<S(!new)>(pr: Presenter<S>, s: S, row: Presented)
    ensures PresentAll(pr, s, [row]) == pr.present(s, row)
  {
    assert [row][..0] == [];
  }

  /** Rows are never deleted and keep their ids. */
  ghost predicate Extends(c: Catalog, d: Catalog) {
    forall k | k in c.rows :: k in d.rows && d.rows[k].id == c.rows[k].id
  }

  /** Presenting a row leaves every row in place and the presented one present. */
  ghost predicate Extending<S(!new)>(pr: Presenter<S>) {
    forall s, row :: ExtendingAt(pr, s, row)
  }

  ghost predicate ExtendingAt<S(!new)>(pr: Presenter<S>, s: S, row: Presented) {
    Extends(pr.catalog(s), pr.catalog(pr.present(s, row))) && row.key in pr.catalog(pr.present(s, row)).rows
  }

  lemma PresentExtends(s: Seeding, row: Presented, replace: bool)
    ensures Extends(s.catalog, Present(s, row, replace).catalog)
    ensures row.key in Present(s, row, replace).catalog.rows
  {
  }

  lemma PresentingExtends(replace: bool)
    ensures Extending(Presenting(replace))
  {
    forall s, row ensures ExtendingAt(Presenting(replace), s, row) {
      PresentExtends(s, row, replace);
    }
  }

  lemma ExtendsTransitive(a: Catalog, b: Catalog, c: Catalog)
    requires Extends(a, b) && Extends(b, c)
    ensures Extends(a, c)
  {
  }

  lemma {:induction false} PresentAllExtends<S(!new)>(pr: Presenter<S>, s: S, rows: seq<Presented>)
    requires Extending(pr)
    ensures Extends(pr.catalog(s), pr.catalog(PresentAll(pr, s, rows)))
    ensures forall r | r in rows :: r.key in pr.catalog(PresentAll(pr, s, rows)).rows
  {
    if rows != [] {
      var front := rows[..|rows| - 1];
      PresentAllExtends(pr, s, front);
      assert ExtendingAt(pr, PresentAll(pr, s, front), rows[|rows| - 1]);
      ExtendsTransitive(pr.catalog(s), pr.catalog(PresentAll(pr, s, front)), pr.catalog(PresentAll(pr, s, rows)));
      assert rows == front + [rows[|rows| - 1]];
    }
  }

  function AttributeRows(seed: Seed, categoryId: nat, n: nat): seq<Presented>
    requires n <= |seed.attributes|
  {
    if n == 0 then []
    else AttributeRows(seed, categoryId, n - 1) + [AttributeRow(seed, seed.attributes[n - 1], categoryId)]
  }

  function ProductRows(seed: Seed, p: ProductSeed, final: Catalog, categoryId: nat): seq<Presented> {
    [ProductRow(seed, p, categoryId), SkuRow(seed, p, IdOf(final, ProductKey(p.code))),
     InventoryRow(seed, p, IdOf(final, SkuKey(p.sku.code)))]
  }

  /** What f gives for each of the first n elements, in order. */
  function ConcatOf<T, R>(s: seq<T>, n: nat, f: T -> seq<R>): seq<R>
    requires n <= |s|
  {
    if n == 0 then [] else ConcatOf(s, n - 1, f) + f(s[n - 1])
  }

  lemma {:induction false} SameConcat<T, R>(s: seq<T>, n: nat, f: T -> seq<R>, g: T -> seq<R>)
    requires n <= |s| && forall i | 0 <= i < n :: f(s[i]) == g(s[i])
    ensures ConcatOf(s, n, f) == ConcatOf(s, n, g)
  {
    if n > 0 {
      SameConcat(s, n - 1, f, g);
    }
  }

  function RowsOfProduct(seed: Seed, final: Catalog, categoryId: nat): ProductSeed -> seq<Presented> {
    (p: ProductSeed) => ProductRows(seed, p, final, categoryId)
  }

  function AllProductRows(seed: Seed, final: Catalog, categoryId: nat, n: nat): seq<Presented>
    requires n <= |seed.products|
  {
    ConcatOf(seed.products, n, RowsOfProduct(seed, final, categoryId))
  }

  /** The rows a seed presents, with the ids they have in the final catalog. */
  function RowsOf(seed: Seed, final: Catalog): seq<Presented> {
    var categoryId := IdOf(final, CategoryKey(seed.category));
    [CategoryRow(seed)] + (AttributeRows(seed, categoryId, |seed.attributes|)
                           + AllProductRows(seed, final, categoryId, |seed.products|))
  }

  function RowsOfFiles(seeds: seq<Seed>, final: Catalog): seq<Presented> {
    if seeds == [] then [] else RowsOfFiles(seeds[..|seeds| - 1], final) + RowsOf(seeds[|seeds| - 1], final)
  }

  lemma {:induction false} AttributesAreRows<S(!new)>(pr: Presenter<S>, s: S, seed: Seed, categoryId: nat, n: nat)
    requires n <= |seed.attributes|
    ensures SeedAttributes(pr, s, seed, categoryId, n) == PresentAll(pr, s, AttributeRows(seed, categoryId, n))
  {
    if n > 0 {
      AttributesAreRows(pr, s, seed, categoryId, n - 1);
      var rows := AttributeRows(seed, categoryId, n);
      assert rows[..|rows| - 1] == AttributeRows(seed, categoryId, n - 1);
    }
  }

  /** The keys whose ids the rows of the first n products depend on are in the catalog. */
  ghost predicate ProductKeysIn(c: Catalog, seed: Seed, n: nat)
    requires n <= |seed.products|
  {
    forall i | 0 <= i < n :: HasProduct(c, seed.products[i])
  }

  predicate HasProduct(c: Catalog, p: ProductSeed) {
    ProductKey(p.code) in c.rows && SkuKey(p.sku.code) in c.rows
  }

  lemma ProductRowsStable(seed: Seed, c: Catalog, d: Catalog, categoryId: nat, n: nat)
    requires n <= |seed.products| && ProductKeysIn(c, seed, n) && Extends(c, d)
    ensures AllProductRows(seed, c, categoryId, n) == AllProductRows(seed, d, categoryId, n)
    ensures ProductKeysIn(d, seed, n)
  {
    var f, g := RowsOfProduct(seed, c, categoryId), RowsOfProduct(seed, d, categoryId);
    forall i | 0 <= i < n ensures f(seed.products[i]) == g(seed.products[i]) && HasProduct(d, seed.products[i]) {
      assert HasProduct(c, seed.products[i]);
    }
    SameConcat(seed.products, n, f, g);
  }

  lemma PresentThree<S(!new)>(pr: Presenter<S>, s: S, x: Presented, y: Presented, z: Presented)
    ensures PresentAll(pr, s, [x, y, z]) == pr.present(pr.present(pr.present(s, x), y), z)
  {
    assert [x, y, z][..2] == [x, y] && [x, y][..1] == [x];
    PresentOne(pr, s, x);
  }

  lemma ExtendsThrice<S(!new)>(pr: Presenter<S>, s: S, x: Presented, y: Presented, z: Presented)
    requires Extending(pr)
    ensures var a := pr.present(s, x);
            var b := pr.present(a, y);
            var c := pr.present(b, z);
            && Extends(pr.catalog(s), pr.catalog(c)) && x.key in pr.catalog(a).rows && y.key in pr.catalog(b).rows
            && Extends(pr.catalog(a), pr.catalog(c)) && Extends(pr.catalog(b), pr.catalog(c))
  {
    var a := pr.present(s, x);
    var b := pr.present(a, y);
    assert ExtendingAt(pr, s, x) && ExtendingAt(pr, a, y) && ExtendingAt(pr, b, z);
    ExtendsTransitive(pr.catalog(a), pr.catalog(b), pr.catalog(pr.present(b, z)));
    ExtendsTransitive(pr.catalog(s), pr.catalog(a), pr.catalog(pr.present(b, z)));
  }

  lemma SameId(c: Catalog, d: Catalog, key: Key)
    requires Extends(c, d) && key in c.rows
    ensures key in d.rows && IdOf(c, key) == IdOf(d, key)
  {
  }

  /** One product, presented row by row, with the ids of the catalog it leads to. */
  lemma ProductIsRows<S(!new)>(pr: Presenter<S>, s: S, seed: Seed, p: ProductSeed, categoryId: nat)
    returns (after: S)
    requires Extending(pr)
    ensures after == SeedProduct(pr, s, seed, p, categoryId)
    ensures after == PresentAll(pr, s, ProductRows(seed, p, pr.catalog(after), categoryId))
    ensures Extends(pr.catalog(s), pr.catalog(after))
    ensures HasProduct(pr.catalog(after), p)
  {
    var product := ProductRow(seed, p, categoryId);
    var a := pr.present(s, product);
    var sku := SkuRow(seed, p, IdOf(pr.catalog(a), ProductKey(p.code)));
    var b := pr.present(a, sku);
    var inventory := InventoryRow(seed, p, IdOf(pr.catalog(b), SkuKey(p.sku.code)));
    after := pr.present(b, inventory);
    ExtendsThrice(pr, s, product, sku, inventory);
    SameId(pr.catalog(a), pr.catalog(after), ProductKey(p.code));
    SameId(pr.catalog(b), pr.catalog(after), SkuKey(p.sku.code));
    PresentThree(pr, s, product, sku, inventory);
  }

  lemma ProductKeysStep(before: Catalog, after: Catalog, seed: Seed, n: nat)
    requires 0 < n <= |seed.products| && ProductKeysIn(before, seed, n - 1) && Extends(before, after)
    requires HasProduct(after, seed.products[n - 1])
    ensures ProductKeysIn(after, seed, n)
  {
    forall i | 0 <= i < n ensures HasProduct(after, seed.products[i]) {
      assert i < n - 1 ==> HasProduct(before, seed.products[i]);
    }
  }

  lemma ProductStep<S(!new)>(pr: Presenter<S>, s: S, before: S, seed: Seed, categoryId: nat, n: nat)
    returns (after: S)
    requires Extending(pr)
    requires 0 < n <= |seed.products| && before == PresentAll(pr, s, AllProductRows(seed, pr.catalog(before), categoryId, n - 1))
    requires ProductKeysIn(pr.catalog(before), seed, n - 1)
    ensures after == SeedProduct(pr, before, seed, seed.products[n - 1], categoryId)
    ensures after == PresentAll(pr, s, AllProductRows(seed, pr.catalog(after), categoryId, n))
    ensures Extends(pr.catalog(before), pr.catalog(after)) && HasProduct(pr.catalog(after), seed.products[n - 1])
  {
    var p := seed.products[n - 1];
    after := ProductIsRows(pr, before, seed, p, categoryId);
    ProductRowsStable(seed, pr.catalog(before), pr.catalog(after), categoryId, n - 1);
    PresentAllConcat(pr, s, AllProductRows(seed, pr.catalog(after), categoryId, n - 1),
                     ProductRows(seed, p, pr.catalog(after), categoryId));
  }

  /** The state in which the first n products have been presented, row by row. */
  ghost predicate ProductsPresented<S(!new)>(pr: Presenter<S>, s: S, after: S, seed: Seed, categoryId: nat, n: nat)
    requires n <= |seed.products|
  {
    && after == SeedProducts(pr, s, seed, categoryId, n)
    && after == PresentAll(pr, s, AllProductRows(seed, pr.catalog(after), categoryId, n))
    && ProductKeysIn(pr.catalog(after), seed, n)
  }

  lemma NextProductPresented<S(!new)>(pr: Presenter<S>, s: S, before: S, seed: Seed, categoryId: nat, n: nat)
    returns (after: S)
    requires Extending(pr) && 0 < n <= |seed.products|
    ensures ProductsPresented(pr, s, before, seed, categoryId, n - 1) ==> ProductsPresented(pr, s, after, seed, categoryId, n)
  {
    after := before;
    if ProductsPresented(pr, s, before, seed, categoryId, n - 1) {
      after := ProductStep(pr, s, before, seed, categoryId, n);
      ProductKeysStep(pr.catalog(before), pr.catalog(after), seed, n);
    }
  }

  lemma NothingPresented<S(!new)>(pr: Presenter<S>, s: S, seed: Seed, categoryId: nat)
    ensures ProductsPresented(pr, s, s, seed, categoryId, 0)
  {
  }

  lemma {:induction false} ProductsAreRows<S(!new)>(pr: Presenter<S>, s: S, seed: Seed, categoryId: nat, n: nat)
    requires Extending(pr) && n <= |seed.products|
    ensures exists after: S :: ProductsPresented(pr, s, after, seed, categoryId, n)
  {
    if n == 0 {
      NothingPresented(pr, s, seed, categoryId);
    } else {
      ProductsAreRows(pr, s, seed, categoryId, n - 1);
      var before: S :| ProductsPresented(pr, s, before, seed, categoryId, n - 1);
      var after := NextProductPresented(pr, s, before, seed, categoryId, n);
    }
  }

  /** The keys whose ids a seed's rows depend on are in the catalog. */
  ghost predicate SeedKeysIn(c: Catalog, seed: Seed) {
    CategoryKey(seed.category) in c.rows && ProductKeysIn(c, seed, |seed.products|)
  }

  lemma RowsStable(seed: Seed, c: Catalog, d: Catalog)
    requires SeedKeysIn(c, seed) && Extends(c, d)
    ensures RowsOf(seed, c) == RowsOf(seed, d) && SeedKeysIn(d, seed)
  {
    ProductRowsStable(seed, c, d, IdOf(c, CategoryKey(seed.category)), |seed.products|);
  }

  lemma PresentedTogether<S(!new)>(pr: Presenter<S>, s: S, begun: S, after: S, first: Presented, a: seq<Presented>, b: seq<Presented>
  )
    requires Extending(pr) && begun == pr.present(s, first)
    requires after == PresentAll(pr, PresentAll(pr, begun, a), b)
    ensures after == PresentAll(pr, s, [first] + (a + b))
    ensures first.key in pr.catalog(begun).rows && Extends(pr.catalog(begun), pr.catalog(after)) && Extends(pr.catalog(s), pr.catalog(after))
  {
    PresentOne(pr, s, first);
    PresentAllConcat(pr, begun, a, b);
    PresentAllConcat(pr, s, [first], a + b);
    PresentAllExtends(pr, begun, a + b);
    assert ExtendingAt(pr, s, first);
    ExtendsTransitive(pr.catalog(s), pr.catalog(begun), pr.catalog(after));
  }

  /** Seeding one file presents its rows, with the ids of the catalog it leads to. */
  lemma SeedIsRows<S(!new)>(pr: Presenter<S>, s: S, seed: Seed) returns (after: S)
    requires Extending(pr)
    ensures after == SeedOne(pr, s, seed)
    ensures after == PresentAll(pr, s, RowsOf(seed, pr.catalog(after)))
    ensures SeedKeysIn(pr.catalog(after), seed) && Extends(pr.catalog(s), pr.catalog(after))
  {
    var begun := pr.present(s, CategoryRow(seed));
    var categoryId := IdOf(pr.catalog(begun), CategoryKey(seed.category));
    var attributes := AttributeRows(seed, categoryId, |seed.attributes|);
    AttributesAreRows(pr, begun, seed, categoryId, |seed.attributes|);
    var described := PresentAll(pr, begun, attributes);
    ProductsAreRows(pr, described, seed, categoryId, |seed.products|);
    after :| ProductsPresented(pr, described, after, seed, categoryId, |seed.products|);
    var products := AllProductRows(seed, pr.catalog(after), categoryId, |seed.products|);
    PresentedTogether(pr, s, begun, after, CategoryRow(seed), attributes, products);
    SameId(pr.catalog(begun), pr.catalog(after), CategoryKey(seed.category));
  }

  ghost predicate FileKeysIn(c: Catalog, seeds: seq<Seed>) {
    forall i | 0 <= i < |seeds| :: SeedKeysIn(c, seeds[i])
  }

  lemma FileKeysStable(seeds: seq<Seed>, c: Catalog, d: Catalog)
    requires FileKeysIn(c, seeds) && Extends(c, d)
    ensures FileKeysIn(d, seeds)
  {
    forall i | 0 <= i < |seeds| ensures SeedKeysIn(d, seeds[i]) {
      RowsStable(seeds[i], c, d);
    }
  }

  lemma {:induction false} FileRowsStable(seeds: seq<Seed>, c: Catalog, d: Catalog)
    requires FileKeysIn(c, seeds) && Extends(c, d)
    ensures RowsOfFiles(seeds, c) == RowsOfFiles(seeds, d)
  {
    if seeds != [] {
      var n := |seeds| - 1;
      FileRowsStable(seeds[..n], c, d);
      RowsStable(seeds[n], c, d);
    }
  }

  lemma FileKeysAppend(c: Catalog, front: seq<Seed>, last: Seed)
    requires FileKeysIn(c, front) && SeedKeysIn(c, last)
    ensures FileKeysIn(c, front + [last])
  {
    var seeds := front + [last];
    forall i | 0 <= i < |seeds| ensures SeedKeysIn(c, seeds[i]) {
      if i < |front| {
        assert seeds[i] == front[i];
      }
    }
  }

  lemma SplitLast<T>(s: seq<T>)
    requires s != []
    ensures s[..|s| - 1] + [s[|s| - 1]] == s
  {
  }

  /** A run over several files presents their rows, with the ids of the catalog it leads to. */
  lemma {:induction false} FilesAreRows<S(!new)>(pr: Presenter<S>, s: S, seeds: seq<Seed>) returns (after: S)
    requires Extending(pr)
    ensures after == SeedFiles(pr, s, seeds)
    ensures after == PresentAll(pr, s, RowsOfFiles(seeds, pr.catalog(after)))
    ensures FileKeysIn(pr.catalog(after), seeds)
  {
    if seeds == [] {
      after := s;
    } else {
      var front, last := seeds[..|seeds| - 1], seeds[|seeds| - 1];
      var before := FilesAreRows(pr, s, front);
      after := SeedIsRows(pr, before, last);
      FileRowsStable(front, pr.catalog(before), pr.catalog(after));
      FileKeysStable(front, pr.catalog(before), pr.catalog(after));
      SplitLast(seeds);
      FileKeysAppend(pr.catalog(after), front, last);
      PresentAllConcat(pr, s, RowsOfFiles(front, pr.catalog(after)), RowsOf(last, pr.catalog(after)));
    }
  }
}

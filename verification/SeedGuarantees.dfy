/** What seeding guarantees about every row: seeding again changes nothing, rows of other owners and
    existing inventory are safe, and insert-only and replacing runs converge. */
module SeedGuarantees {
  import opened Sequences
  import opened Text
  import opened CatalogSeed
  import opened SeedLaws

  function UpsertAll(c: Catalog, rows: seq<Presented>, replace: bool): Catalog {
    if rows == [] then c
    else
      var last := rows[|rows| - 1];
      Upsert(UpsertAll(c, rows[..|rows| - 1], replace), last.key, last.values, last.source, replace)
  }

  lemma {:induction false} CatalogOfPresentAll(s: Seeding, rows: seq<Presented>, replace: bool)
    ensures PresentAll(Presenting(replace), s, rows).catalog == UpsertAll(s.catalog, rows, replace)
  {
    if rows != [] {
      CatalogOfPresentAll(s, rows[..|rows| - 1], replace);
    }
  }

  // ---------- the history of one row ----------

  function OwnerOf(row: Row): Option<string> {
    if "managed_by_seed" in row.values && row.values["managed_by_seed"] == Flag(true)
       && "seed_source" in row.values && row.values["seed_source"].Str?
    then Some(row.values["seed_source"].s)
    else None
  }

  /** Rows other than inventory carry the marks of the source that presents them. */
  predicate Marked(row: Presented) {
    row.key.InventoryKey? || OwnerOf(Row(0, row.values)) == Some(row.source)
  }

  predicate AllMarked(rows: seq<Presented>) {
    forall r | r in rows :: Marked(r)
  }

  /** The values that the rows of one source give to one key, later ones winning. */
  function Overlay(rows: seq<Presented>, key: Key, source: string): Values {
    if rows == [] then map[]
    else
      var last := rows[|rows| - 1];
      Overlay(rows[..|rows| - 1], key, source) + if last.key == key && last.source == source then last.values else map[]
  }

  predicate Presents(rows: seq<Presented>, key: Key) {
    exists i | 0 <= i < |rows| :: rows[i].key == key
  }

  function FirstRow(rows: seq<Presented>, key: Key): (r: Presented)
    requires Presents(rows, key)
    ensures r in rows && r.key == key
  {
    if rows[0].key == key then rows[0] else FirstRow(rows[1..], key)
  }

  lemma PresentsFront(rows: seq<Presented>, key: Key)
    requires rows != []
    ensures Presents(rows, key) <==> Presents(rows[..|rows| - 1], key) || rows[|rows| - 1].key == key
  {
    var n := |rows| - 1;
    if Presents(rows, key) && rows[n].key != key {
      var i :| 0 <= i < |rows| && rows[i].key == key;
      assert rows[..n][i].key == key;
    }
    if Presents(rows[..n], key) {
      var i :| 0 <= i < n && rows[..n][i].key == key;
      assert rows[i].key == key;
    }
    if rows[n].key == key {
      assert Presents(rows, key);
    }
  }

  lemma {:induction false} FirstRowFront(rows: seq<Presented>, key: Key)
    requires rows != [] && Presents(rows[..|rows| - 1], key)
    ensures Presents(rows, key) && FirstRow(rows, key) == FirstRow(rows[..|rows| - 1], key)
  {
    PresentsFront(rows, key);
    if rows[0].key != key {
      var rest := rows[1..];
      assert rows[..|rows| - 1][1..] == rest[..|rest| - 1];
      FirstRowFront(rest, key);
    }
  }

  lemma {:induction false} FirstRowLast(rows: seq<Presented>, key: Key)
    requires rows != [] && !Presents(rows[..|rows| - 1], key) && rows[|rows| - 1].key == key
    ensures Presents(rows, key) && FirstRow(rows, key) == rows[|rows| - 1]
  {
    PresentsFront(rows, key);
    if |rows| > 1 {
      assert rows[..|rows| - 1][0] == rows[0];
      var rest := rows[1..];
      assert rows[..|rows| - 1][1..] == rest[..|rest| - 1];
      assert forall i | 0 <= i < |rest| - 1 :: rest[i] == rows[..|rows| - 1][i + 1];
      FirstRowLast(rest, key);
    }
  }

  /** A row already in the catalog: replaced by its owner's rows in replacement mode, else untouched. */
  lemma {:induction false} ExistingRow(c: Catalog, rows: seq<Presented>, replace: bool, key: Key)
    requires key in c.rows && AllMarked(rows)
    ensures var after, row := UpsertAll(c, rows, replace), c.rows[key];
            && key in after.rows && after.rows[key].id == row.id && OwnerOf(after.rows[key]) == OwnerOf(row)
            && after.rows[key].values ==
                 if replace && !key.InventoryKey? && OwnerOf(row).Some?
                 then row.values + Overlay(rows, key, OwnerOf(row).value)
                 else row.values
  {
    var row := c.rows[key];
    if rows == [] {
      NothingAdded(row.values);
    } else {
      var n := |rows| - 1;
      ExistingRow(c, rows[..n], replace, key);
      var before := UpsertAll(c, rows[..n], replace);
      assert Marked(rows[n]);
      if replace && !key.InventoryKey? && OwnerOf(row).Some? {
        var overlay := Overlay(rows[..n], key, OwnerOf(row).value);
        RegroupValues(row.values, overlay, rows[n].values);
        NothingAdded(overlay);
      }
    }
  }

  lemma NothingAdded(a: Values)
    ensures a + map[] == a
  {
  }

  lemma RegroupValues(a: Values, b: Values, c: Values)
    ensures (a + b) + c == a + (b + c)
  {
  }

  /** What becomes of a presented row that was not in the catalog. */
  predicate InsertedAs(row: Row, rows: seq<Presented>, replace: bool, key: Key)
    requires Presents(rows, key)
  {
    var first := FirstRow(rows, key);
    && (!key.InventoryKey? ==> OwnerOf(row) == Some(first.source))
    && row.values == if replace && !key.InventoryKey? then Overlay(rows, key, first.source) else first.values
  }

  lemma StillInsertedAs(before: Row, after: Row, rows: seq<Presented>, replace: bool, key: Key)
    requires rows != [] && Presents(rows[..|rows| - 1], key) && InsertedAs(before, rows[..|rows| - 1], replace, key)
    requires Marked(rows[|rows| - 1])
    requires var last := rows[|rows| - 1];
             after == if last.key == key && replace && !key.InventoryKey? && Owned(before, last.source)
                      then before.(values := before.values + last.values) else before
    ensures Presents(rows, key) && InsertedAs(after, rows, replace, key)
  {
    PresentsFront(rows, key);
    FirstRowFront(rows, key);
    var overlay := Overlay(rows[..|rows| - 1], key, FirstRow(rows, key).source);
    assert overlay + map[] == overlay;
  }

  lemma NowInsertedAs(row: Row, rows: seq<Presented>, replace: bool, key: Key)
    requires rows != [] && !Presents(rows[..|rows| - 1], key) && rows[|rows| - 1].key == key && Marked(rows[|rows| - 1])
    requires row.values == rows[|rows| - 1].values
    ensures Presents(rows, key) && InsertedAs(row, rows, replace, key)
  {
    var n := |rows| - 1;
    PresentsFront(rows, key);
    FirstRowLast(rows, key);
    EmptyOverlay(rows[..n], key, rows[n].source);
    assert map[] + rows[n].values == rows[n].values;
  }

  /** A row not yet in the catalog: inserted when first presented, then replaced by its own source. */
  lemma {:induction false} InsertedRow(c: Catalog, rows: seq<Presented>, replace: bool, key: Key)
    requires key !in c.rows && AllMarked(rows)
    ensures var after := UpsertAll(c, rows, replace);
            && (key in after.rows <==> Presents(rows, key))
            && (Presents(rows, key) ==> InsertedAs(after.rows[key], rows, replace, key))
  {
    if rows != [] {
      var n := |rows| - 1;
      InsertedRow(c, rows[..n], replace, key);
      assert Marked(rows[n]);
      PresentsFront(rows, key);
      var before, after := UpsertAll(c, rows[..n], replace), UpsertAll(c, rows, replace);
      if Presents(rows[..n], key) {
        StillInsertedAs(before.rows[key], after.rows[key], rows, replace, key);
      } else if rows[n].key == key {
        NowInsertedAs(after.rows[key], rows, replace, key);
      }
    }
  }

  lemma {:induction false} EmptyOverlay(rows: seq<Presented>, key: Key, source: string)
    requires !Presents(rows, key)
    ensures Overlay(rows, key, source) == map[]
  {
    if rows != [] {
      PresentsFront(rows, key);
      EmptyOverlay(rows[..|rows| - 1], key, source);
    }
  }

  /** When every presented key exists nothing is inserted. */
  lemma {:induction false} NothingToInsert(c: Catalog, rows: seq<Presented>, replace: bool)
    requires forall r | r in rows :: r.key in c.rows
    ensures var after := UpsertAll(c, rows, replace);
            after.nextId == c.nextId && after.rows.Keys == c.rows.Keys
  {
    if rows != [] {
      NothingToInsert(c, rows[..|rows| - 1], replace);
      assert rows[|rows| - 1] in rows;
    }
  }

  lemma {:induction false} PresentedKeysExist(c: Catalog, rows: seq<Presented>, replace: bool)
    ensures forall r | r in rows :: r.key in UpsertAll(c, rows, replace).rows
    ensures c.rows.Keys <= UpsertAll(c, rows, replace).rows.Keys
  {
    if rows != [] {
      PresentedKeysExist(c, rows[..|rows| - 1], replace);
      assert rows == rows[..|rows| - 1] + [rows[|rows| - 1]];
    }
  }

  /** Presenting a fixed list of rows again leaves the catalog as it is. */
  lemma RowsAgain(c: Catalog, rows: seq<Presented>, replace: bool)
    requires AllMarked(rows)
    ensures var after := UpsertAll(c, rows, replace); UpsertAll(after, rows, replace) == after
  {
    var after := UpsertAll(c, rows, replace);
    PresentedKeysExist(c, rows, replace);
    NothingToInsert(after, rows, replace);
    var again := UpsertAll(after, rows, replace);
    forall key | key in after.rows ensures again.rows[key] == after.rows[key] {
      RowAgain(c, rows, replace, key);
    }
  }

  lemma RowAgain(c: Catalog, rows: seq<Presented>, replace: bool, key: Key)
    requires AllMarked(rows) && key in UpsertAll(c, rows, replace).rows
    ensures var after := UpsertAll(c, rows, replace);
            key in UpsertAll(after, rows, replace).rows && UpsertAll(after, rows, replace).rows[key] == after.rows[key]
  {
    var after := UpsertAll(c, rows, replace);
    ExistingRow(after, rows, replace, key);
    if key in c.rows {
      ExistingRow(c, rows, replace, key);
      if OwnerOf(c.rows[key]).Some? {
        OverlayTwice(c.rows[key].values, Overlay(rows, key, OwnerOf(c.rows[key]).value));
      }
    } else {
      InsertedRow(c, rows, replace, key);
      if Presents(rows, key) {
        OverlayTwice(map[], Overlay(rows, key, FirstRow(rows, key).source));
      }
    }
  }

  lemma OverlayTwice(a: Values, b: Values)
    ensures (a + b) + b == a + b
    ensures b + b == b
  {
  }

  // ---------- whole runs ----------

  predicate Every<T(==)>(s: seq<T>, ok: T -> bool) {
    forall x | x in s :: ok(x)
  }

  lemma EveryConcat<T>(a: seq<T>, b: seq<T>, ok: T -> bool)
    ensures Every(a, ok) && Every(b, ok) ==> Every(a + b, ok)
  {
  }

  function FromSource(source: string): Presented -> bool {
    (r: Presented) => Marked(r) && r.source == source
  }

  /** Rows presented by one source, with its marks. */
  predicate AllFrom(rows: seq<Presented>, source: string) {
    Every(rows, FromSource(source))
  }

  lemma ManagedOwner(values: Values, seed: Seed)
    ensures OwnerOf(Row(0, values + Managed(seed))) == Some(seed.source)
  {
  }

  lemma {:induction false} AttributeRowsFrom(seed: Seed, categoryId: nat, n: nat)
    requires n <= |seed.attributes|
    ensures AllFrom(AttributeRows(seed, categoryId, n), seed.source)
  {
    if n > 0 {
      AttributeRowsFrom(seed, categoryId, n - 1);
      var a := seed.attributes[n - 1];
      ManagedOwner(map["code" := Str(a.code)] + a.values + map["category_id" := Ref(categoryId)], seed);
    }
  }

  lemma ProductRowsFrom(seed: Seed, p: ProductSeed, final: Catalog, categoryId: nat)
    ensures AllFrom(ProductRows(seed, p, final, categoryId), seed.source)
  {
    ManagedOwner(map["product_code" := Str(p.code)] + p.values + map["category_id" := Ref(categoryId)], seed);
    var productId := IdOf(final, ProductKey(p.code));
    ManagedOwner(map["sku_code" := Str(p.sku.code)] + p.sku.values + map["product_id" := Ref(productId)], seed);
  }

  lemma {:induction false} EveryOfEach<T, R>(s: seq<T>, n: nat, f: T -> seq<R>, ok: R -> bool)
    requires n <= |s| && forall x :: x in s ==> Every(f(x), ok)
    ensures Every(ConcatOf(s, n, f), ok)
  {
    if n > 0 {
      EveryOfEach(s, n - 1, f, ok);
      assert s[n - 1] in s;
      EveryConcat(ConcatOf(s, n - 1, f), f(s[n - 1]), ok);
    }
  }

  lemma AllProductRowsFrom(seed: Seed, final: Catalog, categoryId: nat, n: nat)
    requires n <= |seed.products|
    ensures AllFrom(AllProductRows(seed, final, categoryId, n), seed.source)
  {
    var f := RowsOfProduct(seed, final, categoryId);
    forall p | p in seed.products ensures Every(f(p), FromSource(seed.source)) {
      ProductRowsFrom(seed, p, final, categoryId);
    }
    EveryOfEach(seed.products, n, f, FromSource(seed.source));
  }

  lemma RowsOfAreFrom(seed: Seed, final: Catalog)
    ensures AllFrom(RowsOf(seed, final), seed.source)
  {
    var categoryId := IdOf(final, CategoryKey(seed.category));
    var attributes := AttributeRows(seed, categoryId, |seed.attributes|);
    var products := AllProductRows(seed, final, categoryId, |seed.products|);
    ManagedOwner(map["code" := Str(seed.category)] + seed.categoryValues, seed);
    assert AllFrom([CategoryRow(seed)], seed.source);
    AttributeRowsFrom(seed, categoryId, |seed.attributes|);
    AllProductRowsFrom(seed, final, categoryId, |seed.products|);
    EveryConcat(attributes, products, FromSource(seed.source));
    EveryConcat([CategoryRow(seed)], attributes + products, FromSource(seed.source));
  }

  lemma {:induction false} FileRowsAreMarked(seeds: seq<Seed>, final: Catalog)
    ensures AllMarked(RowsOfFiles(seeds, final))
  {
    if seeds != [] {
      FileRowsAreMarked(seeds[..|seeds| - 1], final);
      RowsOfAreFrom(seeds[|seeds| - 1], final);
    }
  }

  /** The catalog a run over several files leads to. */
  function Seeded(c: Catalog, seeds: seq<Seed>, replace: bool): Catalog {
    SeedFiles(Presenting(replace), Seeding(c, NO_COUNTS), seeds).catalog
  }

  /** A run is the upsert of its own rows, with the ids of the catalog it leads to. */
  lemma RunIsUpsert(c: Catalog, seeds: seq<Seed>, replace: bool)
    ensures var after := Seeded(c, seeds, replace);
            && after == UpsertAll(c, RowsOfFiles(seeds, after), replace)
            && AllMarked(RowsOfFiles(seeds, after)) && FileKeysIn(after, seeds)
  {
    PresentingExtends(replace);
    var s := FilesAreRows(Presenting(replace), Seeding(c, NO_COUNTS), seeds);
    CatalogOfPresentAll(Seeding(c, NO_COUNTS), RowsOfFiles(seeds, s.catalog), replace);
    FileRowsAreMarked(seeds, s.catalog);
  }

  lemma {:induction false} UpsertExtends(c: Catalog, rows: seq<Presented>, replace: bool)
    ensures Extends(c, UpsertAll(c, rows, replace))
  {
    if rows != [] {
      UpsertExtends(c, rows[..|rows| - 1], replace);
    }
  }

  /** In either mode, running the same files again leaves the catalog exactly as it was. */
  lemma SeedingIsIdempotent(c: Catalog, seeds: seq<Seed>, replace: bool)
    ensures var after := Seeded(c, seeds, replace); Seeded(after, seeds, replace) == after
  {
    var after := Seeded(c, seeds, replace);
    var again := Seeded(after, seeds, replace);
    RunIsUpsert(c, seeds, replace);
    RunIsUpsert(after, seeds, replace);
    UpsertExtends(after, RowsOfFiles(seeds, again), replace);
    FileRowsStable(seeds, after, again);
    RowsAgain(c, RowsOfFiles(seeds, after), replace);
  }

  /** No run may change this row: inventory, an insert-only run, or an owner that presents nothing. */
  predicate Protected(row: Row, key: Key, seeds: seq<Seed>, replace: bool) {
    !replace || key.InventoryKey? || forall i | 0 <= i < |seeds| :: !Owned(row, seeds[i].source)
  }

  lemma OwnerOwns(row: Row, source: string)
    ensures Owned(row, source) <==> OwnerOf(row) == Some(source)
  {
  }

  /** A protected row has no values to take from the rows of its owner. */
  lemma NothingToTake(row: Row, key: Key, seeds: seq<Seed>, final: Catalog)
    requires !key.InventoryKey? && OwnerOf(row).Some? && Protected(row, key, seeds, true)
    ensures Overlay(RowsOfFiles(seeds, final), key, OwnerOf(row).value) == map[]
  {
    var owner := OwnerOf(row).value;
    forall i | 0 <= i < |seeds| ensures seeds[i].source != owner {
      OwnerOwns(row, seeds[i].source);
    }
    NoRowsOfOthers(seeds, final, key, owner);
  }

  /** In either mode no row is deleted or renumbered; a row that no presented source owns keeps all its
      values, and so does every inventory row that was there before. */
  lemma ForeignRowsAreSafe(c: Catalog, seeds: seq<Seed>, replace: bool, key: Key)
    requires key in c.rows
    ensures var after := Seeded(c, seeds, replace);
            && key in after.rows && after.rows[key].id == c.rows[key].id
            && (Protected(c.rows[key], key, seeds, replace) ==> after.rows[key] == c.rows[key])
  {
    var after := Seeded(c, seeds, replace);
    RunIsUpsert(c, seeds, replace);
    ExistingRow(c, RowsOfFiles(seeds, after), replace, key);
    var row := c.rows[key];
    if Protected(row, key, seeds, replace) && replace && !key.InventoryKey? && OwnerOf(row).Some? {
      NothingToTake(row, key, seeds, after);
      NothingAdded(row.values);
    }
  }

  lemma {:induction false} NoRowsOfOthers(seeds: seq<Seed>, final: Catalog, key: Key, source: string)
    requires forall i | 0 <= i < |seeds| :: seeds[i].source != source
    ensures Overlay(RowsOfFiles(seeds, final), key, source) == map[]
  {
    if seeds != [] {
      var n := |seeds| - 1;
      NoRowsOfOthers(seeds[..n], final, key, source);
      RowsOfAreFrom(seeds[n], final);
      OverlayConcat(RowsOfFiles(seeds[..n], final), RowsOf(seeds[n], final), key, source);
      OverlayOfOthers(RowsOf(seeds[n], final), key, source);
    }
  }

  lemma {:induction false} OverlayConcat(a: seq<Presented>, b: seq<Presented>, key: Key, source: string)
    ensures Overlay(a + b, key, source) == Overlay(a, key, source) + Overlay(b, key, source)
  {
    if b == [] {
      ConcatNothing(a);
      NothingAdded(Overlay(a, key, source));
    } else {
      var front, last := b[..|b| - 1], b[|b| - 1];
      ConcatLast(a, b);
      OverlayConcat(a, front, key, source);
      RegroupValues(Overlay(a, key, source), Overlay(front, key, source),
                    if last.key == key && last.source == source then last.values else map[]);
    }
  }

  lemma {:induction false} OverlayOfOthers(rows: seq<Presented>, key: Key, source: string)
    requires forall r | r in rows :: r.source != source
    ensures Overlay(rows, key, source) == map[]
  {
    if rows != [] {
      OverlayOfOthers(rows[..|rows| - 1], key, source);
      assert rows[|rows| - 1] in rows;
    }
  }

  // ---------- the two modes converge ----------

  lemma {:induction false} ModesInsertAlike(c: Catalog, rows: seq<Presented>)
    ensures var kept, replaced := UpsertAll(c, rows, false), UpsertAll(c, rows, true);
            && kept.nextId == replaced.nextId && kept.rows.Keys == replaced.rows.Keys
            && forall k | k in kept.rows :: kept.rows[k].id == replaced.rows[k].id
  {
    if rows != [] {
      ModesInsertAlike(c, rows[..|rows| - 1]);
    }
  }

  lemma {:induction false} FirstRowInOverlay(rows: seq<Presented>, key: Key)
    requires Presents(rows, key)
    ensures var first := FirstRow(rows, key);
            first.values + Overlay(rows, key, first.source) == Overlay(rows, key, first.source)
  {
    var n := |rows| - 1;
    PresentsFront(rows, key);
    if Presents(rows[..n], key) {
      FirstRowFront(rows, key);
      FirstRowInOverlay(rows[..n], key);
      var first := FirstRow(rows, key);
      var more := if rows[n].key == key && rows[n].source == first.source then rows[n].values else map[];
      RegroupValues(first.values, Overlay(rows[..n], key, first.source), more);
    } else {
      FirstRowLast(rows, key);
      EmptyOverlay(rows[..n], key, rows[n].source);
      assert map[] + rows[n].values == rows[n].values;
      OverlayTwice(map[], rows[n].values);
    }
  }

  lemma ModesConvergeAt(c: Catalog, rows: seq<Presented>, key: Key)
    requires AllMarked(rows) && key in UpsertAll(c, rows, false).rows
    ensures var kept := UpsertAll(c, rows, false);
            && key in UpsertAll(kept, rows, true).rows && key in UpsertAll(c, rows, true).rows
            && UpsertAll(kept, rows, true).rows[key].values == UpsertAll(c, rows, true).rows[key].values
            && UpsertAll(kept, rows, true).rows[key].id == kept.rows[key].id
  {
    ModesInsertAlike(c, rows);
    ExistingRow(UpsertAll(c, rows, false), rows, true, key);
    if key in c.rows {
      ExistingRow(c, rows, false, key);
      ExistingRow(c, rows, true, key);
    } else {
      InsertedRow(c, rows, false, key);
      InsertedRow(c, rows, true, key);
      FirstRowInOverlay(rows, key);
    }
  }

  lemma RowsConverge(c: Catalog, rows: seq<Presented>)
    requires AllMarked(rows)
    ensures UpsertAll(UpsertAll(c, rows, false), rows, true) == UpsertAll(c, rows, true)
  {
    var kept, replaced := UpsertAll(c, rows, false), UpsertAll(c, rows, true);
    PresentedKeysExist(c, rows, false);
    NothingToInsert(kept, rows, true);
    ModesInsertAlike(c, rows);
    var both := UpsertAll(kept, rows, true);
    forall key | key in both.rows ensures both.rows[key] == replaced.rows[key] {
      ModesConvergeAt(c, rows, key);
    }
  }

  // Rows are inserted at the same points of a run in both modes, so they get the same ids.

  ghost predicate Alike(c: Catalog, d: Catalog) {
    c.nextId == d.nextId && c.rows.Keys == d.rows.Keys && forall k | k in c.rows :: c.rows[k].id == d.rows[k].id
  }

  ghost predicate InsertAlike<S(!new), T(!new)>(p: Presenter<S>, q: Presenter<T>) {
    forall s, t, row :: InsertAlikeAt(p, q, s, t, row)
  }

  ghost predicate InsertAlikeAt<S(!new), T(!new)>(p: Presenter<S>, q: Presenter<T>, s: S, t: T, row: Presented) {
    Alike(p.catalog(s), q.catalog(t)) ==> Alike(p.catalog(p.present(s, row)), q.catalog(q.present(t, row)))
  }

  lemma ModesPresentAlike(p: bool, q: bool)
    ensures InsertAlike(Presenting(p), Presenting(q))
  {
    forall s, t, row ensures InsertAlikeAt(Presenting(p), Presenting(q), s, t, row) {
      UpsertAlike(s.catalog, t.catalog, row, p, q);
    }
  }

  lemma UpsertAlike(c: Catalog, d: Catalog, row: Presented, p: bool, q: bool)
    ensures Alike(c, d) ==> Alike(Upsert(c, row.key, row.values, row.source, p), Upsert(d, row.key, row.values, row.source, q))
  {
  }

  lemma SameIds(c: Catalog, d: Catalog, key: Key)
    requires Alike(c, d)
    ensures IdOf(c, key) == IdOf(d, key)
  {
  }

  /** The two presenters' states of a fold stay alike when every element keeps them so. */
  lemma FoldsAlike<S(!new), T(!new), X(!new)>(
    p: Presenter<S>, q: Presenter<T>, s: S, t: T, items: seq<X>, n: nat, f: (S, X) -> S, g: (T, X) -> T
  )
    requires n <= |items| && Alike(p.catalog(s), q.catalog(t))
    requires forall a, b, x | Alike(p.catalog(a), q.catalog(b)) :: Alike(p.catalog(f(a, x)), q.catalog(g(b, x)))
    ensures Alike(p.catalog(Fold(s, items, n, f)), q.catalog(Fold(t, items, n, g)))
  {
    var alike := (a: S, b: T) => Alike(p.catalog(a), q.catalog(b));
    FoldsRelated(alike, s, t, items, n, f, g);
  }

  lemma AttributesAlike<S(!new), T(!new)>(
    p: Presenter<S>, q: Presenter<T>, s: S, t: T, seed: Seed, categoryId: nat, n: nat
  )
    requires n <= |seed.attributes| && InsertAlike(p, q) && Alike(p.catalog(s), q.catalog(t))
    ensures Alike(p.catalog(SeedAttributes(p, s, seed, categoryId, n)), q.catalog(SeedAttributes(q, t, seed, categoryId, n)))
  {
    var f, g := AttributeSeeder(p, seed, categoryId), AttributeSeeder(q, seed, categoryId);
    forall a, b, x | Alike(p.catalog(a), q.catalog(b)) ensures Alike(p.catalog(f(a, x)), q.catalog(g(b, x))) {
      assert InsertAlikeAt(p, q, a, b, AttributeRow(seed, x, categoryId));
    }
    FoldsAlike(p, q, s, t, seed.attributes, n, f, g);
  }

  lemma ProductAlike<S(!new), T(!new)>(
    p: Presenter<S>, q: Presenter<T>, s: S, t: T, seed: Seed, product: ProductSeed, categoryId: nat
  )
    requires InsertAlike(p, q) && Alike(p.catalog(s), q.catalog(t))
    ensures Alike(p.catalog(SeedProduct(p, s, seed, product, categoryId)), q.catalog(SeedProduct(q, t, seed, product, categoryId)))
  {
    var row := ProductRow(seed, product, categoryId);
    assert InsertAlikeAt(p, q, s, t, row);
    var a, b := p.present(s, row), q.present(t, row);
    SameIds(p.catalog(a), q.catalog(b), ProductKey(product.code));
    var sku := SkuRow(seed, product, IdOf(p.catalog(a), ProductKey(product.code)));
    assert InsertAlikeAt(p, q, a, b, sku);
    var a', b' := p.present(a, sku), q.present(b, sku);
    SameIds(p.catalog(a'), q.catalog(b'), SkuKey(product.sku.code));
    assert InsertAlikeAt(p, q, a', b', InventoryRow(seed, product, IdOf(p.catalog(a'), SkuKey(product.sku.code))));
  }

  lemma ProductsAlike<S(!new), T(!new)>(
    p: Presenter<S>, q: Presenter<T>, s: S, t: T, seed: Seed, categoryId: nat, n: nat
  )
    requires n <= |seed.products| && InsertAlike(p, q) && Alike(p.catalog(s), q.catalog(t))
    ensures Alike(p.catalog(SeedProducts(p, s, seed, categoryId, n)), q.catalog(SeedProducts(q, t, seed, categoryId, n)))
  {
    var f, g := ProductSeeder(p, seed, categoryId), ProductSeeder(q, seed, categoryId);
    forall a, b, x | Alike(p.catalog(a), q.catalog(b)) ensures Alike(p.catalog(f(a, x)), q.catalog(g(b, x))) {
      ProductAlike(p, q, a, b, seed, x, categoryId);
    }
    FoldsAlike(p, q, s, t, seed.products, n, f, g);
  }

  lemma SeedAlike<S(!new), T(!new)>(p: Presenter<S>, q: Presenter<T>, s: S, t: T, seed: Seed)
    requires InsertAlike(p, q) && Alike(p.catalog(s), q.catalog(t))
    ensures Alike(p.catalog(SeedOne(p, s, seed)), q.catalog(SeedOne(q, t, seed)))
  {
    assert InsertAlikeAt(p, q, s, t, CategoryRow(seed));
    var a, b := p.present(s, CategoryRow(seed)), q.present(t, CategoryRow(seed));
    SameIds(p.catalog(a), q.catalog(b), CategoryKey(seed.category));
    var categoryId := IdOf(p.catalog(a), CategoryKey(seed.category));
    AttributesAlike(p, q, a, b, seed, categoryId, |seed.attributes|);
    ProductsAlike(p, q, SeedAttributes(p, a, seed, categoryId, |seed.attributes|),
                  SeedAttributes(q, b, seed, categoryId, |seed.attributes|), seed, categoryId, |seed.products|);
  }

  lemma {:induction false} FilesAlike<S(!new), T(!new)>(p: Presenter<S>, q: Presenter<T>, s: S, t: T, seeds: seq<Seed>)
    requires InsertAlike(p, q) && Alike(p.catalog(s), q.catalog(t))
    ensures Alike(p.catalog(SeedFiles(p, s, seeds)), q.catalog(SeedFiles(q, t, seeds)))
  {
    if seeds != [] {
      var front := seeds[..|seeds| - 1];
      FilesAlike(p, q, s, t, front);
      SeedAlike(p, q, SeedFiles(p, s, front), SeedFiles(q, t, front), seeds[|seeds| - 1]);
    }
  }

  lemma SameRowsInBothModes(c: Catalog, seeds: seq<Seed>)
    ensures RowsOfFiles(seeds, Seeded(c, seeds, false)) == RowsOfFiles(seeds, Seeded(c, seeds, true))
  {
    var s := Seeding(c, NO_COUNTS);
    ModesPresentAlike(false, true);
    FilesAlike(Presenting(false), Presenting(true), s, s, seeds);
    var kept, replaced := Seeded(c, seeds, false), Seeded(c, seeds, true);
    RunIsUpsert(c, seeds, false);
    FileRowsStable(seeds, kept, replaced);
  }

  lemma RunAgainKeepsRows(c: Catalog, seeds: seq<Seed>, p: bool, q: bool)
    ensures var first := Seeded(c, seeds, p);
            RowsOfFiles(seeds, first) == RowsOfFiles(seeds, Seeded(first, seeds, q))
  {
    var first := Seeded(c, seeds, p);
    RunIsUpsert(c, seeds, p);
    RunIsUpsert(first, seeds, q);
    UpsertExtends(first, RowsOfFiles(seeds, Seeded(first, seeds, q)), q);
    FileRowsStable(seeds, first, Seeded(first, seeds, q));
  }

  /** An insert-only run followed by a replacing run of the same files leads where the replacing run
      alone leads. */
  lemma ModesConverge(c: Catalog, seeds: seq<Seed>)
    ensures Seeded(Seeded(c, seeds, false), seeds, true) == Seeded(c, seeds, true)
  {
    RunIsUpsert(c, seeds, false);
    RunIsUpsert(c, seeds, true);
    RunIsUpsert(Seeded(c, seeds, false), seeds, true);
    SameRowsInBothModes(c, seeds);
    RunAgainKeepsRows(c, seeds, false, true);
    RowsConverge(c, RowsOfFiles(seeds, Seeded(c, seeds, true)));
  }
}

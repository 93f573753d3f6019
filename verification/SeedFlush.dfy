/** Seeding through a session that does not flush before it looks rows up, as the application's own
    session is configured: a row waits, unseen, from when it is added until the next flush, and a flush
    fails on a repeated key. Until it fails, such a run seeds as a flushing one does. */
module SeedFlush {
  import opened Sequences
  import opened Text
  import opened CatalogSeed

  datatype PendingRow = PendingRow(key: Key, row: Row)

  /** flushed is what lookups see. */
  datatype Session = Session(flushed: Catalog, pending: seq<PendingRow>, report: Counts)

  function Opened(c: Catalog): Session {
    Session(c, [], NO_COUNTS)
  }

  /** The pending rows are inserted in order; None when a key is already there. */
  function FlushRows(rows: map<Key, Row>, pending: seq<PendingRow>): Option<map<Key, Row>> {
    if pending == [] then Some(rows)
    else
      var last := pending[|pending| - 1];
      match FlushRows(rows, pending[..|pending| - 1])
      case None => None
      case Some(m) => if last.key in m then None else Some(m[last.key := last.row])
  }

  function Flush(s: Session): Option<Session> {
    match FlushRows(s.flushed.rows, s.pending)
    case None => None
    case Some(m) => Some(Session(s.flushed.(rows := m), [], s.report))
  }

  /** The lookup of a row, and its insertion or replacement without a flush. */
  function Put(s: Session, row: Presented, replace: bool): Session {
    if row.key in s.flushed.rows then
      var done := Present(Seeding(s.flushed, s.report), row, replace);
      Session(done.catalog, s.pending, done.report)
    else
      Session(s.flushed.(nextId := s.flushed.nextId + 1),
              s.pending + [PendingRow(row.key, Row(s.flushed.nextId, row.values))],
              Count(s.report, KindOf(row.key), Inserted))
  }

  /** Categories, products and SKUs are flushed as soon as they are inserted. */
  function PutFlushed(s: Session, row: Presented, replace: bool): Option<Session> {
    if row.key in s.flushed.rows then Some(Put(s, row, replace)) else Flush(Put(s, row, replace))
  }

  function AttributePutter(seed: Seed, categoryId: nat, replace: bool): (Session, AttributeSeed) -> Session {
    (s: Session, a: AttributeSeed) => Put(s, AttributeRow(seed, a, categoryId), replace)
  }

  function PutAttributes(s: Session, seed: Seed, categoryId: nat, n: nat, replace: bool): Session
    requires n <= |seed.attributes|
  {
    Fold(s, seed.attributes, n, AttributePutter(seed, categoryId, replace))
  }

  /** The inventory row is left pending. */
  function PutProduct(s: Session, seed: Seed, p: ProductSeed, categoryId: nat, replace: bool): Option<Session> {
    match PutFlushed(s, ProductRow(seed, p, categoryId), replace)
    case None => None
    case Some(a) =>
      match PutFlushed(a, SkuRow(seed, p, IdOf(a.flushed, ProductKey(p.code))), replace)
      case None => None
      case Some(b) => Some(Put(b, InventoryRow(seed, p, IdOf(b.flushed, SkuKey(p.sku.code))), replace))
  }

  function PutNext(s: Option<Session>, seed: Seed, p: ProductSeed, categoryId: nat, replace: bool): Option<Session> {
    match s
    case None => None
    case Some(before) => PutProduct(before, seed, p, categoryId, replace)
  }

  function ProductPutter(seed: Seed, categoryId: nat, replace: bool): (Option<Session>, ProductSeed) -> Option<Session> {
    (s: Option<Session>, p: ProductSeed) => PutNext(s, seed, p, categoryId, replace)
  }

  function ProductsFrom(s: Option<Session>, seed: Seed, categoryId: nat, n: nat, replace: bool): Option<Session>
    requires n <= |seed.products|
  {
    Fold(s, seed.products, n, ProductPutter(seed, categoryId, replace))
  }

  function PutProducts(s: Session, seed: Seed, categoryId: nat, n: nat, replace: bool): Option<Session>
    requires n <= |seed.products|
  {
    ProductsFrom(Some(s), seed, categoryId, n, replace)
  }

  /** seed_catalog with its four flushes: of the category, of the attributes, of each new product and
      SKU, and of the last inventory rows. None when one of them fails. */
  function PutSeed(s: Session, seed: Seed, replace: bool): Option<Session> {
    match PutFlushed(s, CategoryRow(seed), replace)
    case None => None
    case Some(begun) =>
      var categoryId := IdOf(begun.flushed, CategoryKey(seed.category));
      match Flush(PutAttributes(begun, seed, categoryId, |seed.attributes|, replace))
      case None => None
      case Some(described) =>
        match PutProducts(described, seed, categoryId, |seed.products|, replace)
        case None => None
        case Some(stocked) => Flush(stocked)
  }

  function PutFiles(s: Session, seeds: seq<Seed>, replace: bool): Option<Session> {
    if seeds == [] then Some(s)
    else
      match PutFiles(s, seeds[..|seeds| - 1], replace)
      case None => None
      case Some(before) => PutSeed(before, seeds[|seeds| - 1], replace)
  }

  // ---------- how a session stands to a flushing run ----------

  /** A flush would now lead to the state of the flushing run. */
  predicate Synced(s: Session, t: Seeding) {
    Flush(s) == Some(Session(t.catalog, [], t.report))
  }

  /** The next flush fails. */
  predicate Doomed(s: Session) {
    Flush(s).None?
  }

  /** A row that is there for the flushing run and that lookups of the session do not see yet. */
  predicate Unseen(s: Session, t: Seeding, key: Key) {
    key in t.catalog.rows && key !in s.flushed.rows
  }

  lemma {:induction false} FlushKeepsRows(rows: map<Key, Row>, pending: seq<PendingRow>, key: Key)
    requires key in rows
    ensures match FlushRows(rows, pending)
            case None => true
            case Some(m) => key in m && m[key] == rows[key]
  {
    if pending != [] {
      FlushKeepsRows(rows, pending[..|pending| - 1], key);
    }
  }

  lemma {:induction false} FlushAfterReplacing(rows: map<Key, Row>, pending: seq<PendingRow>, key: Key, row: Row)
    requires key in rows
    ensures FlushRows(rows[key := row], pending)
         == match FlushRows(rows, pending)
            case None => None
            case Some(m) => Some(m[key := row])
  {
    if pending != [] {
      var front, last := pending[..|pending| - 1], pending[|pending| - 1];
      FlushAfterReplacing(rows, front, key, row);
      FlushKeepsRows(rows, front, key);
      if FlushRows(rows, front).Some? && last.key != key {
        var m := FlushRows(rows, front).value;
        assert m[key := row][last.key := last.row] == m[last.key := last.row][key := row];
      }
    }
  }

  lemma FlushOneMore(rows: map<Key, Row>, pending: seq<PendingRow>, last: PendingRow)
    ensures FlushRows(rows, pending + [last])
         == match FlushRows(rows, pending)
            case None => None
            case Some(m) => if last.key in m then None else Some(m[last.key := last.row])
  {
    assert (pending + [last])[..|pending|] == pending;
  }

  lemma PutSeen(s: Session, t: Seeding, row: Presented, replace: bool)
    requires Synced(s, t) && row.key in s.flushed.rows
    ensures Synced(Put(s, row, replace), Present(t, row, replace))
  {
    var key := row.key;
    FlushKeepsRows(s.flushed.rows, s.pending, key);
    var done := Present(Seeding(s.flushed, s.report), row, replace);
    var after := done.catalog.rows[key];
    FlushAfterReplacing(s.flushed.rows, s.pending, key, after);
    assert done.catalog.rows == s.flushed.rows[key := after];
    assert Present(t, row, replace).catalog.rows == t.catalog.rows[key := after];
  }

  /** One row: seen by both, new to both, or unseen, and then the session cannot be flushed any more. */
  lemma PutStep(s: Session, t: Seeding, row: Presented, replace: bool)
    requires Synced(s, t)
    ensures if Unseen(s, t, row.key) then Doomed(Put(s, row, replace))
            else Synced(Put(s, row, replace), Present(t, row, replace))
    ensures Put(s, row, replace).flushed.rows.Keys == s.flushed.rows.Keys
  {
    if row.key in s.flushed.rows {
      PutSeen(s, t, row, replace);
    } else {
      PutNew(s, t, row, replace);
    }
  }

  lemma PutNew(s: Session, t: Seeding, row: Presented, replace: bool)
    requires Synced(s, t) && row.key !in s.flushed.rows
    ensures if row.key in t.catalog.rows then Doomed(Put(s, row, replace))
            else Synced(Put(s, row, replace), Present(t, row, replace))
    ensures Put(s, row, replace).flushed.rows == s.flushed.rows
  {
    FlushOneMore(s.flushed.rows, s.pending, PendingRow(row.key, Row(s.flushed.nextId, row.values)));
  }

  lemma DoomedStays(s: Session, row: Presented, replace: bool)
    requires Doomed(s)
    ensures Doomed(Put(s, row, replace))
  {
    if row.key in s.flushed.rows {
      FlushAfterReplacing(s.flushed.rows, s.pending, row.key, Put(s, row, replace).flushed.rows[row.key]);
      assert Put(s, row, replace).flushed.rows == s.flushed.rows[row.key := Put(s, row, replace).flushed.rows[row.key]];
    } else {
      FlushOneMore(s.flushed.rows, s.pending, PendingRow(row.key, Row(s.flushed.nextId, row.values)));
    }
  }

  lemma SeenRow(s: Session, t: Seeding, key: Key)
    requires Synced(s, t) && key in s.flushed.rows
    ensures key in t.catalog.rows && t.catalog.rows[key] == s.flushed.rows[key]
  {
    FlushKeepsRows(s.flushed.rows, s.pending, key);
  }

  lemma FlushedIsSynced(s: Session, t: Seeding)
    requires Synced(s, t)
    ensures Flush(s).Some? && Synced(Flush(s).value, t) && Flush(s).value.flushed == t.catalog
  {
  }

  /** A row whose insertion is flushed. If it was seen nothing else is flushed; otherwise everything is. */
  lemma PutFlushedStep(s: Session, t: Seeding, row: Presented, replace: bool)
    requires Synced(s, t) && !Unseen(s, t, row.key)
    ensures var next, after := PutFlushed(s, row, replace), Present(t, row, replace);
            && next.Some? && Synced(next.value, after) && row.key in next.value.flushed.rows
            && IdOf(next.value.flushed, row.key) == IdOf(after.catalog, row.key)
            && next.value.flushed.rows.Keys
               == if row.key in t.catalog.rows then s.flushed.rows.Keys else after.catalog.rows.Keys
  {
    PutStep(s, t, row, replace);
    if row.key in s.flushed.rows {
      SeenRow(s, t, row.key);
      SeenRow(Put(s, row, replace), Present(t, row, replace), row.key);
    } else {
      FlushedIsSynced(Put(s, row, replace), Present(t, row, replace));
    }
  }

  // ---------- until it fails it seeds alike ----------

  /** The session failed, is bound to, or would flush to the state of the flushing run. */
  predicate Follows(s: Option<Session>, t: Seeding) {
    s.None? || Doomed(s.value) || Synced(s.value, t)
  }

  lemma PutFollows(s: Session, t: Seeding, row: Presented, replace: bool)
    requires Follows(Some(s), t)
    ensures Follows(Some(Put(s, row, replace)), Present(t, row, replace))
  {
    if Doomed(s) {
      DoomedStays(s, row, replace);
    } else {
      PutStep(s, t, row, replace);
    }
  }

  /** The id found afterwards is that of the flushing run unless the session is doomed. */
  lemma PutFlushedFollows(s: Session, t: Seeding, row: Presented, replace: bool)
    requires Follows(Some(s), t)
    ensures var next, after := PutFlushed(s, row, replace), Present(t, row, replace);
            && Follows(next, after)
            && (next.Some? && !Doomed(next.value) ==> IdOf(next.value.flushed, row.key) == IdOf(after.catalog, row.key))
            && (next.Some? && Doomed(s) ==> Doomed(next.value))
  {
    if Doomed(s) {
      DoomedStays(s, row, replace);
    } else {
      PutStep(s, t, row, replace);
      if !Unseen(s, t, row.key) {
        PutFlushedStep(s, t, row, replace);
      }
    }
  }

  lemma AttributesFollow(s: Session, t: Seeding, seed: Seed, categoryId: nat, n: nat, replace: bool)
    requires n <= |seed.attributes| && Follows(Some(s), t)
    ensures Follows(Some(PutAttributes(s, seed, categoryId, n, replace)), SeedAttributes(Presenting(replace), t, seed, categoryId, n))
  {
    var f, g := AttributePutter(seed, categoryId, replace), AttributeSeeder(Presenting(replace), seed, categoryId);
    var follows := (a: Session, b: Seeding) => Follows(Some(a), b);
    forall a, b, x | follows(a, b) ensures follows(f(a, x), g(b, x)) {
      PutFollows(a, b, AttributeRow(seed, x, categoryId), replace);
    }
    FoldsRelated(follows, s, t, seed.attributes, n, f, g);
  }

  lemma DoomedProduct(s: Session, seed: Seed, p: ProductSeed, categoryId: nat, replace: bool)
    requires Doomed(s)
    ensures var next := PutProduct(s, seed, p, categoryId, replace); next.None? || Doomed(next.value)
  {
    var product := ProductRow(seed, p, categoryId);
    DoomedStays(s, product, replace);
    match PutFlushed(s, product, replace)
    case None =>
    case Some(a) =>
      var sku := SkuRow(seed, p, IdOf(a.flushed, ProductKey(p.code)));
      DoomedStays(a, sku, replace);
      match PutFlushed(a, sku, replace)
      case None =>
      case Some(b) =>
        DoomedStays(b, InventoryRow(seed, p, IdOf(b.flushed, SkuKey(p.sku.code))), replace);
  }

  lemma ProductFollows(s: Session, t: Seeding, seed: Seed, p: ProductSeed, categoryId: nat, replace: bool)
    requires Follows(Some(s), t)
    ensures Follows(PutProduct(s, seed, p, categoryId, replace), SeedProduct(Presenting(replace), t, seed, p, categoryId))
  {
    if Doomed(s) {
      DoomedProduct(s, seed, p, categoryId, replace);
    } else {
      var product := ProductRow(seed, p, categoryId);
      PutFlushedFollows(s, t, product, replace);
      match PutFlushed(s, product, replace)
      case None =>
      case Some(a) =>
        ProductFollowsFromSku(a, Present(t, product, replace), seed, p, categoryId, replace);
    }
  }

  lemma ProductFollowsFromSku(a: Session, t: Seeding, seed: Seed, p: ProductSeed, categoryId: nat, replace: bool)
    requires Follows(Some(a), t)
    requires !Doomed(a) ==> IdOf(a.flushed, ProductKey(p.code)) == IdOf(t.catalog, ProductKey(p.code))
    ensures var sku := SkuRow(seed, p, IdOf(t.catalog, ProductKey(p.code)));
            var after := Present(t, sku, replace);
            match PutFlushed(a, SkuRow(seed, p, IdOf(a.flushed, ProductKey(p.code))), replace)
            case None => true
            case Some(b) =>
              Follows(Some(Put(b, InventoryRow(seed, p, IdOf(b.flushed, SkuKey(p.sku.code))), replace)),
                      Present(after, InventoryRow(seed, p, IdOf(after.catalog, SkuKey(p.sku.code))), replace))
  {
    var sku := SkuRow(seed, p, IdOf(a.flushed, ProductKey(p.code)));
    PutFlushedFollows(a, t, sku, replace);
    match PutFlushed(a, sku, replace)
    case None =>
    case Some(b) =>
      var stock := InventoryRow(seed, p, IdOf(b.flushed, SkuKey(p.sku.code)));
      if Doomed(b) {
        DoomedStays(b, stock, replace);
      } else {
        PutFollows(b, Present(t, sku, replace), stock, replace);
      }
  }

  lemma NextFollows(s: Option<Session>, t: Seeding, seed: Seed, p: ProductSeed, categoryId: nat, replace: bool)
    ensures Follows(s, t)
        ==> Follows(PutNext(s, seed, p, categoryId, replace), SeedProduct(Presenting(replace), t, seed, p, categoryId))
  {
    if s.Some? && Follows(s, t) {
      ProductFollows(s.value, t, seed, p, categoryId, replace);
    }
  }

  lemma ProductsFollow(s: Session, t: Seeding, seed: Seed, categoryId: nat, n: nat, replace: bool)
    requires n <= |seed.products| && Follows(Some(s), t)
    ensures Follows(PutProducts(s, seed, categoryId, n, replace), SeedProducts(Presenting(replace), t, seed, categoryId, n))
  {
    var f, g := ProductPutter(seed, categoryId, replace), ProductSeeder(Presenting(replace), seed, categoryId);
    forall a, b, p | Follows(a, b) ensures Follows(f(a, p), g(b, p)) {
      NextFollows(a, b, seed, p, categoryId, replace);
    }
    FoldsRelated(Follows, Some(s), t, seed.products, n, f, g);
  }

  /** The state of a flushing run, with nothing pending. */
  function Settled(t: Seeding): Session {
    Session(t.catalog, [], t.report)
  }

  lemma SeedAgrees(t: Seeding, seed: Seed, replace: bool)
    ensures var done := PutSeed(Settled(t), seed, replace);
            done.None? || done.value == Settled(SeedOne(Presenting(replace), t, seed))
  {
    var pr, row := Presenting(replace), CategoryRow(seed);
    PutFlushedStep(Settled(t), t, row, replace);
    var begun, start := PutFlushed(Settled(t), row, replace).value, Present(t, row, replace);
    var categoryId := IdOf(begun.flushed, CategoryKey(seed.category));
    AttributesFollow(begun, start, seed, categoryId, |seed.attributes|, replace);
    match Flush(PutAttributes(begun, seed, categoryId, |seed.attributes|, replace))
    case None =>
    case Some(described) =>
      var listed := SeedAttributes(pr, start, seed, categoryId, |seed.attributes|);
      ProductsFollow(described, listed, seed, categoryId, |seed.products|, replace);
  }

  /** What a run without early flushes leaves and reports, if no flush fails, is what a flushing run
      leaves and reports, with nothing left pending. */
  lemma {:induction false} UnflushedSeedsAlike(c: Catalog, seeds: seq<Seed>, replace: bool)
    ensures var done := PutFiles(Opened(c), seeds, replace);
            done.None? || done.value == Settled(SeedFiles(Presenting(replace), Seeding(c, NO_COUNTS), seeds))
  {
    if seeds != [] {
      var front := seeds[..|seeds| - 1];
      UnflushedSeedsAlike(c, front, replace);
      SeedAgrees(SeedFiles(Presenting(replace), Seeding(c, NO_COUNTS), front), seeds[|seeds| - 1], replace);
    }
  }

  // ---------- the seeder on such a session, as it runs ----------

  class UnflushedSession {
    var flushed: Catalog
    var pending: seq<PendingRow>

    constructor (c: Catalog)
      ensures flushed == c && pending == []
    {
      flushed, pending := c, [];
    }

    function Progress(report: SeedReport): Session
      reads this, report
    {
      Session(flushed, pending, report.Counted())
    }

    function Reached(ok: bool, report: SeedReport): Option<Session>
      reads this, report
    {
      if ok then Some(Progress(report)) else None
    }

    /** session.flush(): false when it fails, and then the run ends with an exception. */
    method FlushPending(report: SeedReport) returns (ok: bool)
      modifies this
      ensures Flush(old(Progress(report))) == Reached(ok, report)
      ensures report.Counted() == old(report.Counted())
    {
      var rows := FlushRows(flushed.rows, pending);
      if rows.None? {
        return false;
      }
      flushed, pending := flushed.(rows := rows.value), [];
      return true;
    }

    /** The lookup of a row, and session.add or _replace_if_owned. */
    method LookUp(row: Presented, replace: bool, report: SeedReport) returns (found: bool)
      modifies this, report
      ensures Progress(report) == Put(old(Progress(report)), row, replace)
      ensures found == (row.key in old(flushed).rows)
    {
      var kind := KindOf(row.key);
      found := row.key in flushed.rows;
      if !found {
        pending := pending + [PendingRow(row.key, Row(flushed.nextId, row.values))];
        flushed := flushed.(nextId := flushed.nextId + 1);
        report.inserted := Bump(report.inserted, kind);
      } else if replace && !row.key.InventoryKey? && Owned(flushed.rows[row.key], row.source) {
        var before := flushed.rows[row.key];
        flushed := flushed.(rows := flushed.rows[row.key := before.(values := before.values + row.values)]);
        report.updated := Bump(report.updated, kind);
      } else {
        report.skipped := Bump(report.skipped, kind);
      }
    }

    method LookUpAndFlush(row: Presented, replace: bool, report: SeedReport) returns (id: Option<nat>)
      modifies this, report
      ensures PutFlushed(old(Progress(report)), row, replace) == if id.Some? then Some(Progress(report)) else None
      ensures id.Some? ==> id.value == IdOf(flushed, row.key)
    {
      var found := LookUp(row, replace, report);
      if !found {
        var ok := FlushPending(report);
        if !ok {
          return None;
        }
      }
      return Some(IdOf(flushed, row.key));
    }

    method SeedProductRow(seed: Seed, p: ProductSeed, categoryId: nat, replace: bool, report: SeedReport) returns (ok: bool)
      modifies this, report
      ensures PutProduct(old(Progress(report)), seed, p, categoryId, replace) == Reached(ok, report)
    {
      var productId := LookUpAndFlush(ProductRow(seed, p, categoryId), replace, report);
      if productId.None? {
        return false;
      }
      var skuId := LookUpAndFlush(SkuRow(seed, p, productId.value), replace, report);
      if skuId.None? {
        return false;
      }
      var _ := LookUp(InventoryRow(seed, p, skuId.value), replace, report);
      return true;
    }

    method SeedAttributeRows(seed: Seed, categoryId: nat, replace: bool, report: SeedReport) returns (ok: bool)
      modifies this, report
      ensures Flush(PutAttributes(old(Progress(report)), seed, categoryId, |seed.attributes|, replace))
           == Reached(ok, report)
    {
      ghost var begun := Progress(report);
      for i := 0 to |seed.attributes|
        invariant Progress(report) == PutAttributes(begun, seed, categoryId, i, replace)
      {
        var _ := LookUp(AttributeRow(seed, seed.attributes[i], categoryId), replace, report);
      }
      ok := FlushPending(report);
    }

    /** One turn of the loop; nothing happens after a failed flush. */
    method SeedRowAt(
      ghost s: Option<Session>, going: bool, seed: Seed, i: nat, categoryId: nat, replace: bool, report: SeedReport
    ) returns (ok: bool)
      requires i < |seed.products|
      requires ProductsFrom(s, seed, categoryId, i, replace) == Reached(going, report)
      modifies this, report
      ensures var m: nat := i + 1; ProductsFrom(s, seed, categoryId, m, replace) == Reached(ok, report)
    {
      FoldNext(s, seed.products, i, ProductPutter(seed, categoryId, replace));
      ok := going;
      if going {
        ok := SeedProductRow(seed, seed.products[i], categoryId, replace, report);
      }
    }

    method SeedProductRows(seed: Seed, categoryId: nat, replace: bool, report: SeedReport) returns (ok: bool)
      modifies this, report
      ensures PutProducts(old(Progress(report)), seed, categoryId, |seed.products|, replace) == Reached(ok, report)
    {
      ghost var described := Some(Progress(report));
      ok := true;
      for i := 0 to |seed.products|
        invariant ProductsFrom(described, seed, categoryId, i, replace) == Reached(ok, report)
      {
        ok := SeedRowAt(described, ok, seed, i, categoryId, replace, report);
      }
    }

    /** seed_catalog on this session; false when a flush raised. */
    method SeedCatalog(seed: Seed, replace: bool) returns (report: SeedReport, ok: bool)
      modifies this
      ensures fresh(report)
      ensures PutSeed(Session(old(flushed), old(pending), NO_COUNTS), seed, replace)
           == Reached(ok, report)
    {
      report := new SeedReport();
      var categoryId := LookUpAndFlush(CategoryRow(seed), replace, report);
      if categoryId.None? {
        return report, false;
      }
      ok := SeedAttributeRows(seed, categoryId.value, replace, report);
      if ok {
        ok := SeedProductRows(seed, categoryId.value, replace, report);
      }
      if ok {
        ok := FlushPending(report);
      }
    }
  }
}

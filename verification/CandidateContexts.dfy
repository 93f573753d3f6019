/** The store of candidate lists: one row per user and thread, with an expiry, and at most a fixed number
    of rows. */
module CandidateContexts {
  import opened Text

  datatype Scope = Scope(user: string, thread: string)

  datatype Context = Context(products: seq<string>, quantity: int, expires: int, created: int, updated: int)

  type Rows = map<Scope, Context>

  // ---------- the order in which rows are dropped ----------

  predicate Less(a: string, b: string) {
    b != "" && (a == "" || a[0] < b[0] || (a[0] == b[0] && Less(a[1..], b[1..])))
  }

  lemma {:induction false} LessTotal(a: string, b: string)
    ensures Less(a, b) || a == b || Less(b, a)
    ensures !(Less(a, b) && Less(b, a)) && !Less(a, a)
    decreases |a|
  {
    if a != "" {
      LessTotal(a[1..], a[1..]);
      if b != "" {
        LessTotal(a[1..], b[1..]);
        if a[1..] == b[1..] && a[0] == b[0] {
          assert a == [a[0]] + a[1..] && b == [b[0]] + b[1..];
        }
      }
    }
  }

  lemma {:induction false} LessTransitive(a: string, b: string, c: string)
    requires Less(a, b) && Less(b, c)
    ensures Less(a, c)
  {
    if a != "" && a[0] == b[0] && b[0] == c[0] {
      LessTransitive(a[1..], b[1..], c[1..]);
    }
  }

  /** By creation time, then user, then thread. */
  predicate Before(rows: Rows, j: Scope, k: Scope)
    requires j in rows && k in rows
  {
    if rows[j].created != rows[k].created then rows[j].created < rows[k].created
    else if j.user != k.user then Less(j.user, k.user)
    else Less(j.thread, k.thread)
  }

  lemma BeforeTotal(rows: Rows, j: Scope, k: Scope)
    requires j in rows && k in rows
    ensures j == k || Before(rows, j, k) || Before(rows, k, j)
    ensures !(Before(rows, j, k) && Before(rows, k, j))
  {
    LessTotal(j.user, k.user);
    LessTotal(j.thread, k.thread);
  }

  lemma BeforeTransitive(rows: Rows, i: Scope, j: Scope, k: Scope)
    requires i in rows && j in rows && k in rows && Before(rows, i, j) && Before(rows, j, k)
    ensures Before(rows, i, k)
  {
    LessTotal(i.user, j.user);
    if Less(i.user, j.user) && Less(j.user, k.user) {
      LessTransitive(i.user, j.user, k.user);
      LessTotal(i.user, k.user);
    }
    if Less(i.thread, j.thread) && Less(j.thread, k.thread) {
      LessTransitive(i.thread, j.thread, k.thread);
    }
  }

  predicate IsOldest(rows: Rows, k: Scope) {
    k in rows && forall j | j in rows && j != k :: Before(rows, k, j)
  }

  lemma {:induction false} SomeOldest(rows: Rows, among: set<Scope>) returns (k: Scope)
    requires among != {} && among <= rows.Keys
    ensures k in among && forall j | j in among && j != k :: Before(rows, k, j)
    decreases among
  {
    var x :| x in among;
    if among == {x} {
      k := x;
    } else {
      k := SomeOldest(rows, among - {x});
      BeforeTotal(rows, x, k);
      if Before(rows, x, k) {
        forall j | j in among && j != x ensures Before(rows, x, j) {
          if j != k {
            BeforeTransitive(rows, x, k, j);
          }
        }
        k := x;
      }
    }
  }

  lemma OldestExists(rows: Rows)
    requires rows != map[]
    ensures exists k :: IsOldest(rows, k)
  {
    var k0 :| k0 in rows;
    var k := SomeOldest(rows, rows.Keys);
    assert IsOldest(rows, k);
  }

  ghost function Oldest(rows: Rows): (k: Scope)
    requires rows != map[]
    ensures IsOldest(rows, k)
  {
    OldestExists(rows);
    var k :| IsOldest(rows, k);
    k
  }

  lemma OneOldest(rows: Rows, j: Scope, k: Scope)
    requires IsOldest(rows, j) && IsOldest(rows, k)
    ensures j == k
  {
    BeforeTotal(rows, j, k);
  }

  // ---------- pruning ----------

  function Unexpired(rows: Rows, now: int): Rows {
    map k | k in rows && rows[k].expires > now :: rows[k]
  }

  ghost function WithoutOldest(rows: Rows, n: nat): Rows
    requires n <= |rows|
    decreases n
  {
    if n == 0 then rows else WithoutOldest(rows - {Oldest(rows)}, n - 1)
  }

  ghost function Pruned(rows: Rows, now: int, max: nat): Rows {
    var live := Unexpired(rows, now);
    if |live| > max then WithoutOldest(live, |live| - max) else live
  }

  predicate SubMap(a: Rows, b: Rows) {
    forall k | k in a :: k in b && b[k] == a[k]
  }

  /** Dropping n rows keeps the rest as they are, and every dropped row is older than every kept one. */
  lemma {:induction false} DropsTheOldest(rows: Rows, n: nat)
    requires n <= |rows|
    ensures var kept := WithoutOldest(rows, n);
            && SubMap(kept, rows) && |kept| == |rows| - n
            && forall j, k | j in rows && j !in kept && k in kept :: Before(rows, j, k)
    decreases n
  {
    if n > 0 {
      var oldest := Oldest(rows);
      var rest := rows - {oldest};
      assert |rest| == |rows| - 1 by {
        assert rest.Keys == rows.Keys - {oldest};
        assert |rows| == |rows.Keys| && |rest| == |rest.Keys|;
      }
      DropsTheOldest(rest, n - 1);
      var kept := WithoutOldest(rest, n - 1);
      forall j, k | j in rows && j !in kept && k in kept ensures Before(rows, j, k) {
        if j != oldest {
          assert Before(rest, j, k);
        }
      }
    }
  }

  /** What pruning is for: no expired row, at most the limit of rows, and among the live ones the newest. */
  ghost predicate IsPruned(rows: Rows, kept: Rows, now: int, max: nat) {
    var live := Unexpired(rows, now);
    && SubMap(kept, live) && |kept| == (if |live| < max then |live| else max)
    && forall j, k | j in live && j !in kept && k in kept :: Before(live, j, k)
  }

  lemma PrunedIsPruned(rows: Rows, now: int, max: nat)
    ensures IsPruned(rows, Pruned(rows, now, max), now, max)
  {
    var live := Unexpired(rows, now);
    if |live| > max {
      DropsTheOldest(live, |live| - max);
    }
  }

  /** Nothing else is. */
  lemma OnlyPruned(rows: Rows, kept: Rows, now: int, max: nat)
    requires IsPruned(rows, kept, now, max)
    ensures kept == Pruned(rows, now, max)
  {
    PrunedIsPruned(rows, now, max);
    var live, pruned := Unexpired(rows, now), Pruned(rows, now, max);
    assert |kept| == |kept.Keys| && |pruned| == |pruned.Keys|;
    if kept.Keys != pruned.Keys {
      if kept.Keys <= pruned.Keys {
        Strictly(kept.Keys, pruned.Keys);
      } else if pruned.Keys <= kept.Keys {
        Strictly(pruned.Keys, kept.Keys);
      } else {
        var j :| j in kept.Keys && j !in pruned.Keys;
        var k :| k in pruned.Keys && k !in kept.Keys;
        BeforeTotal(live, j, k);
      }
    }
  }

  lemma Strictly<T>(a: set<T>, b: set<T>)
    requires a <= b && |a| == |b|
    ensures a == b
  {
    assert b == a + (b - a);
    assert |b| == |a| + |b - a|;
  }

  // ---------- the operations ----------

  function Present(o: Option<string>): bool {
    o.Some? && !IsBlank(o.value)
  }

  function Key(user: Option<string>, thread: Option<string>): Option<Scope> {
    if Present(user) && Present(thread) then Some(Scope(Strip(user.value), Strip(thread.value))) else None
  }

  function Written(rows: Rows, key: Scope, products: seq<string>, quantity: int, ttl: nat, now: int): Rows {
    rows[key := Context(products, quantity, now + ttl, if key in rows then rows[key].created else now, now)]
  }

  ghost function Saved(rows: Rows, key: Option<Scope>, products: seq<string>, quantity: int, ttl: nat, max: nat, now: int): Rows {
    if key.None? || products == [] || quantity <= 0 then rows
    else Pruned(Written(rows, key.value, products, quantity, ttl, now), now, max)
  }

  function Looked(rows: Rows, key: Option<Scope>, now: int): Rows {
    if key.Some? && key.value in rows && rows[key.value].expires <= now then rows - {key.value} else rows
  }

  function Found(rows: Rows, key: Option<Scope>, now: int): Option<Context> {
    if key.Some? && key.value in rows && rows[key.value].expires > now then Some(rows[key.value]) else None
  }

  function Cleared(rows: Rows, key: Option<Scope>): Rows {
    if key.Some? then rows - {key.value} else rows
  }

  class ContextStore {
    var rows: Rows

    constructor ()
      ensures rows == map[]
    {
      rows := map[];
    }

    /** Deletes expired rows, then the oldest of those beyond the limit. */
    method Prune(now: int, max: nat) returns (deleted: nat)
      modifies this
      ensures rows == Pruned(old(rows), now, max)
      ensures deleted == |old(rows)| - |rows|
    {
      var stored := |rows|;
      FewerUnexpired(rows, now);
      rows := Unexpired(rows, now);
      ghost var live := rows;
      var overflow := |rows| - max;
      var n := 0;
      while n < overflow
        invariant 0 <= n && (overflow > 0 ==> n <= overflow)
        invariant overflow <= 0 ==> n == 0 && rows == live
        invariant overflow > 0 ==> |rows| == |live| - n && WithoutOldest(live, overflow) == WithoutOldest(rows, overflow - n)
      {
        OldestExists(rows);
        var k :| k in rows.Keys && IsOldest(rows, k);
        OneOldest(rows, k, Oldest(rows));
        assert |rows - {k}| == |rows| - 1 by {
          assert (rows - {k}).Keys == rows.Keys - {k} && |rows| == |rows.Keys| && |rows - {k}| == |(rows - {k}).Keys|;
        }
        rows := rows - {k};
        n := n + 1;
      }
      deleted := stored - |rows|;
    }

    method Save(user: Option<string>, thread: Option<string>, products: seq<string>, quantity: int, ttl: nat, max: nat, now: int)
      returns (saved: Option<Context>)
      modifies this
      ensures rows == Saved(old(rows), Key(user, thread), products, quantity, ttl, max, now)
      ensures saved.Some? <==> Present(user) && Present(thread) && products != [] && quantity > 0
      ensures saved.Some? ==> saved.value.products == products && saved.value.quantity == quantity && saved.value.expires == now + ttl
    {
      if !Present(user) || !Present(thread) || products == [] || quantity <= 0 {
        return None;
      }
      var key := Scope(Strip(user.value), Strip(thread.value));
      var context := Context([], quantity, now, now, now);
      if key in rows {
        context := rows[key];
      }
      context := context.(products := products, quantity := quantity, expires := now + ttl, updated := now);
      rows := rows[key := context];
      var _ := Prune(now, max);
      saved := Some(context);
    }

    method Get(user: Option<string>, thread: Option<string>, now: int) returns (found: Option<Context>)
      modifies this
      ensures rows == Looked(old(rows), Key(user, thread), now) && found == Found(old(rows), Key(user, thread), now)
    {
      if !Present(user) || !Present(thread) {
        return None;
      }
      var key := Scope(Strip(user.value), Strip(thread.value));
      if key !in rows {
        return None;
      }
      if rows[key].expires <= now {
        rows := rows - {key};
        return None;
      }
      found := Some(rows[key]);
    }

    method Clear(user: Option<string>, thread: Option<string>) returns (cleared: bool)
      modifies this
      ensures rows == Cleared(old(rows), Key(user, thread))
      ensures cleared <==> Key(user, thread).Some? && Key(user, thread).value in old(rows)
    {
      if !Present(user) || !Present(thread) {
        return false;
      }
      var key := Scope(Strip(user.value), Strip(thread.value));
      if key !in rows {
        return false;
      }
      rows := rows - {key};
      cleared := true;
    }
  }

  lemma FewerUnexpired(rows: Rows, now: int)
    ensures |Unexpired(rows, now)| <= |rows|
  {
    var live := Unexpired(rows, now);
    assert live.Keys <= rows.Keys && |live| == |live.Keys| && |rows| == |rows.Keys|;
    FewerIn(live.Keys, rows.Keys);
  }

  lemma FewerIn<T>(a: set<T>, b: set<T>)
    requires a <= b
    ensures |a| <= |b|
  {
    assert b == a + (b - a);
  }

  // ---------- when a saved list survives its own pruning ----------

  ghost function OlderThan(rows: Rows, key: Scope): set<Scope>
    requires key in rows
  {
    set j | j in rows && Before(rows, j, key)
  }

  lemma DroppedCount(live: Rows, kept: Rows)
    requires SubMap(kept, live)
    ensures |live.Keys - kept.Keys| == |live| - |kept|
  {
    assert |live| == |live.Keys| && |kept| == |kept.Keys|;
    assert live.Keys == kept.Keys + (live.Keys - kept.Keys);
  }

  lemma KeptAboveDropped(live: Rows, kept: Rows, key: Scope)
    requires SubMap(kept, live) && key in kept
    requires forall j, k | j in live && j !in kept && k in kept :: Before(live, j, k)
    ensures |OlderThan(live, key)| >= |live| - |kept|
  {
    DroppedCount(live, kept);
    FewerIn(live.Keys - kept.Keys, OlderThan(live, key));
  }

  lemma DroppedBelowKept(live: Rows, kept: Rows, key: Scope)
    requires SubMap(kept, live) && key in live && key !in kept
    requires forall j, k | j in live && j !in kept && k in kept :: Before(live, j, k)
    ensures |OlderThan(live, key)| < |live| - |kept|
  {
    var dropped := live.Keys - kept.Keys;
    DroppedCount(live, kept);
    forall j | j in OlderThan(live, key) ensures j in dropped - {key} {
      BeforeTotal(live, j, key);
    }
    FewerIn(OlderThan(live, key), dropped - {key});
    assert dropped == (dropped - {key}) + {key};
  }

  /** A row survives pruning exactly when it is live and enough live rows are older than it. */
  lemma SurvivesPruning(rows: Rows, key: Scope, now: int, max: nat)
    requires key in rows && rows[key].expires > now
    ensures var live := Unexpired(rows, now);
            key in Pruned(rows, now, max) <==> |OlderThan(live, key)| >= |live| - max
  {
    PrunedIsPruned(rows, now, max);
    var live, kept := Unexpired(rows, now), Pruned(rows, now, max);
    if key in kept {
      KeptAboveDropped(live, kept, key);
    } else {
      DroppedBelowKept(live, kept, key);
    }
  }

  // ---------- what saving does to a store within its limit ----------

  lemma Sizes(rows: Rows)
    ensures |rows| == |rows.Keys|
  {
  }

  /** Pruning after a save leaves at most the limit of rows. */
  lemma SavedWithinLimit(rows: Rows, key: Option<Scope>, products: seq<string>, quantity: int, ttl: nat, max: nat, now: int)
    requires |rows| <= max
    ensures |Saved(rows, key, products, quantity, ttl, max, now)| <= max
  {
    if key.Some? && products != [] && quantity > 0 {
      PrunedIsPruned(Written(rows, key.value, products, quantity, ttl, now), now, max);
    }
  }

  /** Saving a list again adds no row: within the limit only expired rows go, and the list stays. */
  lemma ResavedSurvives(rows: Rows, key: Scope, products: seq<string>, quantity: int, ttl: nat, max: nat, now: int)
    requires |rows| <= max && key in rows && ttl > 0 && products != [] && quantity > 0
    ensures var saved := Saved(rows, Some(key), products, quantity, ttl, max, now);
            saved == Unexpired(Written(rows, key, products, quantity, ttl, now), now) && key in saved
  {
    var written := Written(rows, key, products, quantity, ttl, now);
    assert written.Keys == rows.Keys;
    Sizes(rows);
    Sizes(written);
    FewerUnexpired(written, now);
  }

  /** Whether row j comes before a row of this scope created at this time. */
  predicate Precedes(rows: Rows, j: Scope, key: Scope, now: int)
    requires j in rows
  {
    if rows[j].created != now then rows[j].created < now
    else if j.user != key.user then Less(j.user, key.user)
    else Less(j.thread, key.thread)
  }

  lemma OlderThanNew(rows: Rows, key: Scope, products: seq<string>, quantity: int, ttl: nat, now: int)
    requires key !in rows && ttl > 0
    ensures var live := Unexpired(Written(rows, key, products, quantity, ttl, now), now);
            && |live| == |Unexpired(rows, now)| + 1
            && OlderThan(live, key) == set j | j in Unexpired(rows, now) && Precedes(rows, j, key, now)
  {
    var written := Written(rows, key, products, quantity, ttl, now);
    var live := Unexpired(written, now);
    assert live.Keys == Unexpired(rows, now).Keys + {key};
    Sizes(live);
    Sizes(Unexpired(rows, now));
    BeforeTotal(live, key, key);
  }

  /** A new list is dropped by its own save exactly when the limit of live rows is there already and none
      of them precedes it: by creation time, and at the same instant by user and thread. */
  lemma NewSurvivesExactly(rows: Rows, key: Scope, products: seq<string>, quantity: int, ttl: nat, max: nat, now: int)
    requires |rows| <= max && key !in rows && ttl > 0 && products != [] && quantity > 0
    ensures key in Saved(rows, Some(key), products, quantity, ttl, max, now) <==>
            |Unexpired(rows, now)| < max || exists j | j in Unexpired(rows, now) :: Precedes(rows, j, key, now)
  {
    var written := Written(rows, key, products, quantity, ttl, now);
    var older := OlderThan(Unexpired(written, now), key);
    SurvivesPruning(written, key, now, max);
    OlderThanNew(rows, key, products, quantity, ttl, now);
    FewerUnexpired(rows, now);
    if older != {} {
      var j :| j in older;
      assert Precedes(rows, j, key, now);
      assert |older| == |older - {j}| + 1;
    }
    if j :| j in Unexpired(rows, now) && Precedes(rows, j, key, now) {
      assert j in older;
    }
  }
}

/** Runs of handoff turns over one store: what a prepared selection names, that a list is used at most
    once, how a stored list can change, and that turns that did not prepare anything can be retried. */
module HandoffRuns {
  import opened Text
  import opened CandidateContexts
  import opened WriteHandoff

  // ---------- one turn ----------

  predicate Stored(t: Turn, reply: Reply, key: Scope) {
    Key(t.user, t.thread) == Some(key) && exists e | e in reply.events :: e.StoredEvent?
  }

  /** The turn prepared an action from a list it selected from. */
  predicate Consumed(t: Turn, reply: Reply, key: Scope) {
    && Key(t.user, t.thread) == Some(key) && !t.message.preference && Selects(t)
    && reply.status == ConfirmationRequired
  }

  predicate IsStoredBy(context: Context, t: Turn) {
    context.products == t.found && IsQuantity(t.message, context.quantity) && context.expires == t.later + 600
    && t.found != []
  }

  lemma PrunedOrSame(rows: Rows, key: Scope, t: Turn)
    requires Key(t.user, t.thread).Some? && key in AfterStore(rows, t)
    ensures if StoreEvent(t).StoredEvent? && Key(t.user, t.thread) == Some(key)
            then IsStoredBy(AfterStore(rows, t)[key], t)
            else key in rows && AfterStore(rows, t)[key] == rows[key]
  {
    QuantityIs(t.message, QuantityOf(t.message));
    if StoreEvent(t).StoredEvent? {
      PrunedIsPruned(Written(rows, Key(t.user, t.thread).value, t.found, QuantityOf(t.message), TTL, t.later), t.later, MAX_CONTEXTS);
    }
  }

  /** A row that is there after a turn is the row before it, unless the turn stored this very list. */
  lemma RowAfterTurn(rows: Rows, t: Turn, key: Scope)
    requires key in Handle(rows, t).rows
    ensures var h := Handle(rows, t);
            if Stored(t, h.reply, key) then IsStoredBy(h.rows[key], t)
            else key in rows && h.rows[key] == rows[key] && !Consumed(t, h.reply, key)
  {
    var h := Handle(rows, t);
    if !t.message.preference && Named(t.user) {
      var after := AfterLookup(rows, t);
      var resolution := Resolve(rows, t);
      if resolution.MissingContext? || (resolution.NoSelection? && t.message.product.None?) {
        assert h.reply.events[|h.reply.events| - 1] == StoreEvent(t);
        if Key(t.user, t.thread).Some? {
          PrunedOrSame(after, key, t);
        }
      }
    }
  }

  /** Why a row can be gone after a turn: it led to a prepared action, the lookup found it expired, or
      storing a list pruned it, expired or, for a list of another scope that is new, beyond the limit. */
  lemma RowLost(rows: Rows, t: Turn, key: Scope)
    requires key in rows && key !in Handle(rows, t).rows
    ensures var h := Handle(rows, t);
            || Consumed(t, h.reply, key)
            || (Selects(t) && Key(t.user, t.thread) == Some(key) && rows[key].expires <= t.now)
            || (StoreEvent(t).StoredEvent? && StoreEvent(t) in h.reply.events
                && (|rows| <= MAX_CONTEXTS ==> PrunedByStore(rows, t, key)))
  {
    var after := AfterLookup(rows, t);
    LostByStore(rows, t, key);
    if key in after && key !in AfterStore(after, t) && |rows| <= MAX_CONTEXTS {
      FewerAfterLookup(rows, t);
      StoreLoses(after, t, key);
      FewerLive(rows, after, t.later);
      FewerUnexpired(rows, t.later);
    }
  }

  /** What is not lost by use or by the lookup is lost by the turn's own store. */
  lemma LostByStore(rows: Rows, t: Turn, key: Scope)
    requires key in rows && key !in Handle(rows, t).rows
    ensures var h, after := Handle(rows, t), AfterLookup(rows, t);
            || Consumed(t, h.reply, key)
            || (Selects(t) && Key(t.user, t.thread) == Some(key) && rows[key].expires <= t.now)
            || (key in after && key !in AfterStore(after, t) && StoreEvent(t).StoredEvent? && StoreEvent(t) in h.reply.events)
  {
  }

  /** The row is of another scope, and expired or live among the limit of live rows. */
  ghost predicate PrunedByStore(rows: Rows, t: Turn, key: Scope)
    requires key in rows
  {
    Key(t.user, t.thread) != Some(key) && (rows[key].expires <= t.later || |Unexpired(rows, t.later)| == MAX_CONTEXTS)
  }

  lemma FewerAfterLookup(rows: Rows, t: Turn)
    ensures |AfterLookup(rows, t)| <= |rows|
  {
    var after := AfterLookup(rows, t);
    Sizes(after);
    Sizes(rows);
    FewerIn(after.Keys, rows.Keys);
  }

  lemma FewerLive(rows: Rows, after: Rows, now: int)
    requires SubMap(after, rows)
    ensures |Unexpired(after, now)| <= |Unexpired(rows, now)|
  {
    FewerIn(Unexpired(after, now).Keys, Unexpired(rows, now).Keys);
    assert |Unexpired(after, now)| == |Unexpired(after, now).Keys| && |Unexpired(rows, now)| == |Unexpired(rows, now).Keys|;
  }

  lemma StoreLoses(rows: Rows, t: Turn, key: Scope)
    requires key in rows && |rows| <= MAX_CONTEXTS
    ensures key in AfterStore(rows, t) || (StoreEvent(t).StoredEvent? && PrunedByStore(rows, t, key))
  {
    if StoreEvent(t).StoredEvent? {
      var own, quantity := Key(t.user, t.thread).value, QuantityOf(t.message);
      FewerUnexpired(rows, t.later);
      if own in rows {
        ResavedSurvives(rows, own, t.found, quantity, TTL, MAX_CONTEXTS, t.later);
      } else if rows[key].expires > t.later {
        var written := Written(rows, own, t.found, quantity, TTL, t.later);
        SurvivesPruning(written, key, t.later, MAX_CONTEXTS);
        OlderThanNew(rows, own, t.found, quantity, TTL, t.later);
      }
    }
  }

  /** Confirmation is required exactly when a tool was called and prepared an action, and then it always
      carries the id of that pending action. */
  lemma ConfirmationCarriesPendingId(rows: Rows, t: Turn)
    ensures var reply := Handle(rows, t).reply;
            && (reply.status == ConfirmationRequired <==> reply.called.Some? && IsPrepared(t.outcome))
            && (reply.status == ConfirmationRequired ==> Named(reply.pending) && reply.pending == t.outcome.value.pending)
  {
  }

  /** A selection that is out of range, or that prepared nothing, leaves the whole store as it was. */
  lemma FailedSelectionKeepsStore(rows: Rows, t: Turn)
    requires !t.message.preference && (Resolve(rows, t).Selected? || Resolve(rows, t).OutOfRange?)
    requires Handle(rows, t).reply.status != ConfirmationRequired
    ensures Handle(rows, t).rows == rows
  {
  }

  /** A turn that selects from the list of this scope, is admitted and gets its action prepared. */
  predicate SelectsFrom(t: Turn, key: Scope, context: Context) {
    && Key(t.user, t.thread) == Some(key) && !t.message.preference && Selects(t)
    && 1 <= t.message.selection.value <= |context.products| && t.now < context.expires
    && t.admitted && IsPrepared(t.outcome)
  }

  /** What selecting from a list asks the tool for: the entry at that place, with the quantity of the message, or
      the one stored with the list if the message's is one. */
  predicate AsksFor(t: Turn, context: Context, called: Option<Call>, quantity: int)
    requires t.message.selection.Some? && 1 <= t.message.selection.value <= |context.products|
  {
    IsQuantity(t.message, quantity) ==>
      called == Some(AddToCart(context.products[t.message.selection.value - 1], if quantity == 1 then context.quantity else quantity))
  }

  lemma SelectionPrepares(rows: Rows, t: Turn, key: Scope, quantity: int)
    requires key in rows && SelectsFrom(t, key, rows[key])
    ensures var reply := Handle(rows, t).reply;
            reply.status == ConfirmationRequired && AsksFor(t, rows[key], reply.called, quantity)
  {
    QuantityIs(t.message, quantity);
  }

  // ---------- runs ----------

  /** Turns over one store, the rows before and after each, and the replies. */
  datatype Run = Run(turns: seq<Turn>, states: seq<Rows>, replies: seq<Reply>)

  ghost predicate Happens(run: Run, i: nat) {
    i < |run.turns| && |run.states| == |run.turns| + 1 && |run.replies| == |run.turns|
    && Handled(run.states[i + 1], run.replies[i]) == Handle(run.states[i], run.turns[i])
  }

  ghost predicate IsRun(run: Run) {
    && |run.states| == |run.turns| + 1 && |run.replies| == |run.turns| && run.states[0] == map[]
    && forall i: nat | i < |run.turns| :: Happens(run, i)
  }

  ghost function Extended(run: Run, t: Turn): Run
    requires run.states != []
  {
    var h := Handle(run.states[|run.states| - 1], t);
    Run(run.turns + [t], run.states + [h.rows], run.replies + [h.reply])
  }

  lemma ExtendedIsRun(run: Run, t: Turn, after: Run)
    requires IsRun(run) && after == Extended(run, t)
    ensures IsRun(after)
  {
    var n := |run.turns|;
    assert after.states[n] == run.states[n] && after.turns[n] == t;
    forall i: nat | i < |after.turns| ensures Happens(after, i) {
      if i < n {
        assert Happens(run, i);
        assert after.states[i] == run.states[i] && after.states[i + 1] == run.states[i + 1];
        assert after.turns[i] == run.turns[i] && after.replies[i] == run.replies[i];
      }
    }
  }

  lemma {:induction false} EveryTurnListRuns(turns: seq<Turn>) returns (run: Run)
    ensures IsRun(run) && run.turns == turns
  {
    if turns == [] {
      run := Run([], [map[]], []);
    } else {
      var n := |turns| - 1;
      var before := EveryTurnListRuns(turns[..n]);
      run := Extended(before, turns[n]);
      ExtendedIsRun(before, turns[n], run);
    }
  }

  /** In every run the store stays within its limit. */
  lemma {:induction false} StoreStaysWithinLimit(run: Run, n: nat)
    requires IsRun(run) && n <= |run.turns|
    ensures |run.states[n]| <= 100
  {
    if n > 0 {
      StoreStaysWithinLimit(run, n - 1);
      assert Happens(run, n - 1);
      TurnStaysWithinLimit(run.states[n - 1], run.turns[n - 1]);
    }
  }

  /** The rows a turn can leave. */
  lemma RowsLeft(rows: Rows, t: Turn)
    ensures var left, after := Handle(rows, t).rows, AfterLookup(rows, t);
            left == rows || left == after || left == AfterStore(after, t) || left == Cleared(after, Key(t.user, t.thread))
  {
    if !t.message.preference && Named(t.user) {
      var after := AfterLookup(rows, t);
      match Resolve(rows, t)
      case OutOfRange(_, _) =>
      case MissingContext(_) =>
      case Selected(product, quantity) => ProductLeaves(after, t, product, quantity, true, [SelectedEvent(quantity)]);
      case NoSelection =>
        if t.message.product.Some? {
          ProductLeaves(after, t, t.message.product.value, QuantityOf(t.message), false, []);
        }
    }
  }

  /** Preparing an action stores nothing and leaves the rows or clears the list of the scope. */
  lemma ProductLeaves(rows: Rows, t: Turn, product: string, quantity: int, selected: bool, events: seq<Event>)
    ensures var h := HandleProduct(rows, t, product, quantity, selected, events);
            && (h.rows == rows || h.rows == Cleared(rows, Key(t.user, t.thread)))
            && ((exists e | e in h.reply.events :: e.StoredEvent?) ==> exists e | e in events :: e.StoredEvent?)
  {
  }

  lemma TurnStaysWithinLimit(rows: Rows, t: Turn)
    requires |rows| <= MAX_CONTEXTS
    ensures |Handle(rows, t).rows| <= MAX_CONTEXTS
  {
    var after, key := AfterLookup(rows, t), Key(t.user, t.thread);
    RowsLeft(rows, t);
    FewerAfterLookup(rows, t);
    SavedWithinLimit(after, key, t.found, QuantityOf(t.message), TTL, MAX_CONTEXTS, t.later);
    Sizes(after);
    Sizes(Cleared(after, key));
    FewerIn(Cleared(after, key).Keys, after.Keys);
  }

  predicate StoredAt(run: Run, i: nat, key: Scope) {
    i < |run.turns| && i < |run.replies| && Stored(run.turns[i], run.replies[i], key)
  }

  predicate ConsumedAt(run: Run, i: nat, key: Scope) {
    i < |run.turns| && i < |run.replies| && Consumed(run.turns[i], run.replies[i], key)
  }

  /** Turn j stored a list for this scope, and before turn n no other was stored there, nor that one used. */
  ghost predicate Unused(run: Run, j: nat, n: nat, key: Scope) {
    j < n && StoredAt(run, j, key) && forall m | j < m < n :: !StoredAt(run, m, key) && !ConsumedAt(run, m, key)
  }

  ghost predicate Originates(run: Run, j: nat, n: nat, key: Scope, context: Context) {
    j < |run.turns| && Unused(run, j, n, key) && IsStoredBy(context, run.turns[j])
  }

  lemma StillOriginates(run: Run, j: nat, n: nat, key: Scope, context: Context)
    ensures Originates(run, j, n, key, context) && !StoredAt(run, n, key) && !ConsumedAt(run, n, key)
        ==> Originates(run, j, n + 1, key, context)
  {
    if Originates(run, j, n, key, context) && !StoredAt(run, n, key) && !ConsumedAt(run, n, key) {
      forall m | j < m < n + 1 ensures !StoredAt(run, m, key) && !ConsumedAt(run, m, key) {
        assert m < n || m == n;
      }
    }
  }

  lemma OriginatesNow(run: Run, n: nat, key: Scope, context: Context)
    ensures StoredAt(run, n, key) && IsStoredBy(context, run.turns[n]) ==> Originates(run, n, n + 1, key, context)
  {
  }

  lemma RowAfterStep(run: Run, n: nat, key: Scope)
    requires Happens(run, n) && key in run.states[n + 1]
    ensures var context := run.states[n + 1][key];
            if StoredAt(run, n, key) then IsStoredBy(context, run.turns[n])
            else key in run.states[n] && run.states[n][key] == context && !ConsumedAt(run, n, key)
  {
    RowAfterTurn(run.states[n], run.turns[n], key);
  }

  /** Every row is the list of the last storing turn of its scope, not used since. */
  lemma {:induction false} RowsHaveOrigins(run: Run, n: nat, key: Scope)
    requires IsRun(run) && n <= |run.turns| && key in run.states[n]
    ensures exists j: nat :: Originates(run, j, n, key, run.states[n][key])
    decreases n
  {
    var m: nat, context := n - 1, run.states[n][key];
    assert Happens(run, m);
    RowAfterStep(run, m, key);
    if StoredAt(run, m, key) {
      OriginatesNow(run, m, key, context);
    } else {
      RowsHaveOrigins(run, m, key);
      var j: nat :| Originates(run, j, m, key, context);
      StillOriginates(run, j, m, key, context);
    }
  }

  lemma SelectionHasScope(rows: Rows, t: Turn)
    requires Selects(t) && !t.message.preference && Handle(rows, t).reply.status == ConfirmationRequired
    ensures Key(t.user, t.thread).Some? && Consumed(t, Handle(rows, t).reply, Key(t.user, t.thread).value)
  {
  }

  /** In every run: an action prepared from a selection names exactly that entry of the list last stored
      for the user and thread, which was stored less than its time to live ago and not used in between. */
  lemma SelectionNamesStoredProduct(run: Run, i: nat, quantity: int) returns (j: nat)
    requires IsRun(run) && i < |run.turns| && IsQuantity(run.turns[i].message, quantity) && Selects(run.turns[i]) && !run.turns[i].message.preference
    requires run.replies[i].status == ConfirmationRequired
    ensures j < i && Key(run.turns[j].user, run.turns[j].thread) == Key(run.turns[i].user, run.turns[i].thread)
    ensures Key(run.turns[i].user, run.turns[i].thread).Some?
    ensures Unused(run, j, i, Key(run.turns[i].user, run.turns[i].thread).value)
    ensures run.turns[i].now < run.turns[j].later + 600
    ensures var place, called := run.turns[i].message.selection.value, run.replies[i].called;
            && 1 <= place <= |run.turns[j].found|
            && called.Some? && called.value.AddToCart? && called.value.product == run.turns[j].found[place - 1]
            && if quantity == 1 then IsQuantity(run.turns[j].message, called.value.quantity) else called.value.quantity == quantity
  {
    QuantityIs(run.turns[i].message, quantity);
    var rows, t := run.states[i], run.turns[i];
    assert Happens(run, i);
    SelectionHasScope(rows, t);
    var key := Key(t.user, t.thread).value;
    RowsHaveOrigins(run, i, key);
    j :| Originates(run, j, i, key, rows[key]);
  }

  /** Two actions prepared by selecting in the same user and thread come from two different stored lists. */
  lemma EachListIsUsedOnce(run: Run, first: nat, second: nat, key: Scope) returns (j: nat)
    requires IsRun(run) && first < second && ConsumedAt(run, first, key) && ConsumedAt(run, second, key)
    ensures first < j < second && Unused(run, j, second, key)
  {
    assert Happens(run, first) && Happens(run, second);
    RowsHaveOrigins(run, second, key);
    j :| Originates(run, j, second, key, run.states[second][key]);
    assert j != first;
  }

  /** A list that is there at turn j, and that no turn from i on stored, is the list of turn i. */
  lemma {:induction false} ListStays(run: Run, i: nat, j: nat, key: Scope)
    requires IsRun(run) && i <= j <= |run.turns| && key in run.states[j]
    requires forall m | i <= m < j :: !StoredAt(run, m, key)
    ensures key in run.states[i] && run.states[i][key] == run.states[j][key]
    decreases j
  {
    if i < j {
      assert Happens(run, j - 1);
      RowAfterStep(run, j - 1, key);
      ListStays(run, i, j - 1, key);
    }
  }

  /** A selection that failed, or was out of range, can be followed by any turns: as long as the list is
      still there and was not replaced, selecting from it in time prepares exactly the chosen entry. */
  lemma FailedSelectionsAreRetryable(run: Run, i: nat, j: nat, key: Scope, quantity: int)
    requires IsRun(run) && i < j < |run.turns| && Key(run.turns[i].user, run.turns[i].thread) == Some(key)
    requires !run.turns[i].message.preference && run.replies[i].status != ConfirmationRequired
    requires var resolution := Resolve(run.states[i], run.turns[i]); resolution.Selected? || resolution.OutOfRange?
    requires key in run.states[j] && forall m | i < m < j :: !StoredAt(run, m, key)
    ensures run.states[i + 1] == run.states[i]
    ensures key in run.states[i] && run.states[j][key] == run.states[i][key]
    ensures SelectsFrom(run.turns[j], key, run.states[i][key]) ==>
              run.replies[j].status == ConfirmationRequired && AsksFor(run.turns[j], run.states[i][key], run.replies[j].called, quantity)
  {
    assert Happens(run, i) && Happens(run, j);
    FailedSelectionKeepsStore(run.states[i], run.turns[i]);
    ListStays(run, i + 1, j, key);
    if SelectsFrom(run.turns[j], key, run.states[j][key]) {
      SelectionPrepares(run.states[j], run.turns[j], key, quantity);
    }
  }

  // ---------- whether a stored list is there ----------

  lemma StoredRows(rows: Rows, t: Turn, key: Scope)
    requires Stored(t, Handle(rows, t).reply, key)
    ensures StoreEvent(t).StoredEvent? && Handle(rows, t).rows == AfterStore(AfterLookup(rows, t), t)
  {
    var after := AfterLookup(rows, t);
    match Resolve(rows, t)
    case OutOfRange(_, _) =>
    case MissingContext(_) =>
    case Selected(product, quantity) => ProductLeaves(after, t, product, quantity, true, [SelectedEvent(quantity)]);
    case NoSelection =>
      if t.message.product.Some? {
        ProductLeaves(after, t, t.message.product.value, QuantityOf(t.message), false, []);
      }
  }

  /** After a turn that stored a list, it is there exactly when the scope had a list already, or the live
      lists were below the limit, or one of them precedes it. */
  lemma StoredListIsThere(run: Run, i: nat, key: Scope)
    requires IsRun(run) && StoredAt(run, i, key)
    ensures var rows, later := AfterLookup(run.states[i], run.turns[i]), run.turns[i].later;
            key in run.states[i + 1] <==>
            || key in rows || |Unexpired(rows, later)| < 100
            || exists j | j in Unexpired(rows, later) :: Precedes(rows, j, key, later)
  {
    var t := run.turns[i];
    var rows := AfterLookup(run.states[i], t);
    assert Happens(run, i);
    StoredRows(run.states[i], t, key);
    StoreStaysWithinLimit(run, i);
    FewerAfterLookup(run.states[i], t);
    if key in rows {
      ResavedSurvives(rows, key, t.found, QuantityOf(t.message), TTL, MAX_CONTEXTS, t.later);
    } else {
      NewSurvivesExactly(rows, key, t.found, QuantityOf(t.message), TTL, MAX_CONTEXTS, t.later);
    }
  }

  lemma CreatedAfterTurn(rows: Rows, t: Turn, key: Scope)
    requires key in Handle(rows, t).rows
    ensures var created := Handle(rows, t).rows[key].created;
            created == t.later || (key in rows && rows[key].created == created)
  {
    var after, own := AfterLookup(rows, t), Key(t.user, t.thread);
    RowsLeft(rows, t);
    if StoreEvent(t).StoredEvent? {
      PrunedIsPruned(Written(after, own.value, t.found, QuantityOf(t.message), TTL, t.later), t.later, MAX_CONTEXTS);
    }
  }

  lemma {:induction false} CreatedByATurn(run: Run, n: nat, key: Scope)
    requires IsRun(run) && n <= |run.turns| && key in run.states[n]
    ensures exists m | 0 <= m < n :: run.states[n][key].created == run.turns[m].later
  {
    assert Happens(run, n - 1);
    CreatedAfterTurn(run.states[n - 1], run.turns[n - 1], key);
    if run.states[n][key].created != run.turns[n - 1].later {
      CreatedByATurn(run, n - 1, key);
    }
  }

  /** With a clock that does not go back, a new list is dropped by its own save only if the limit of lists
      was created at that very instant by scopes that do not precede its own. */
  lemma NewListLostOnlyOnTies(run: Run, i: nat, key: Scope, j: Scope)
    requires IsRun(run) && StoredAt(run, i, key) && key !in run.states[i + 1]
    requires forall m | 0 <= m < i :: run.turns[m].later <= run.turns[i].later
    ensures var rows := AfterLookup(run.states[i], run.turns[i]);
            && |rows| == 100
            && (j in rows ==> rows[j].created == run.turns[i].later && !Precedes(rows, j, key, run.turns[i].later))
  {
    var t := run.turns[i];
    var rows := AfterLookup(run.states[i], t);
    StoredListIsThere(run, i, key);
    StoreStaysWithinLimit(run, i);
    FewerAfterLookup(run.states[i], t);
    FewerUnexpired(rows, t.later);
    Sizes(rows);
    Sizes(Unexpired(rows, t.later));
    Strictly(Unexpired(rows, t.later).Keys, rows.Keys);
    if j in rows {
      CreatedByATurn(run, i, j);
    }
  }
}

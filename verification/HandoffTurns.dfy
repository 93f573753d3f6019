/** Every turn of the write handoff, written out: what it replies, what the tool is called with, and the lists
    that are stored afterwards. */
module HandoffTurns {
  import opened Text
  import opened CandidateContexts
  import opened WriteHandoff

  // ---------- scopes and lists ----------

  /** The turn's user and thread, stripped, neither of them blank. */
  predicate IsScope(t: Turn, key: Scope) {
    && t.user.Some? && t.thread.Some? && !IsBlank(t.user.value) && !IsBlank(t.thread.value)
    && key.user == Strip(t.user.value) && key.thread == Strip(t.thread.value)
  }

  lemma ScopeIs(t: Turn, key: Scope)
    ensures IsScope(t, key) <==> Key(t.user, t.thread) == Some(key)
    ensures IsScope(t, key) ==> t.user.value != "" && t.thread.value != ""
  {
  }

  /** There is a list for the turn to select from: its scope's, and not expired. */
  predicate IsLive(rows: Rows, t: Turn, key: Scope) {
    IsScope(t, key) && key in rows && t.now < rows[key].expires
  }

  /** By creation time, then by user, then by thread. */
  predicate OlderRow(rows: Rows, j: Scope, k: Scope)
    requires j in rows && k in rows
  {
    || rows[j].created < rows[k].created
    || (rows[j].created == rows[k].created && (Less(j.user, k.user) || (j.user == k.user && Less(j.thread, k.thread))))
  }

  /** What is left of some rows: none expired, at most a hundred, and if some are missing the newest hundred. */
  predicate IsLeftOf(written: Rows, after: Rows, now: int) {
    && (forall k | k in after :: k in written && after[k] == written[k] && now < written[k].expires)
    && |after| <= 100
    && forall j | j in written && now < written[j].expires && j !in after ::
         |after| == 100 && forall k | k in after :: OlderRow(written, j, k)
  }

  lemma LeftAre(written: Rows, now: int)
    ensures IsLeftOf(written, Pruned(written, now, 100), now)
  {
    PrunedIsPruned(written, now, 100);
    var live, after := Unexpired(written, now), Pruned(written, now, 100);
    if |live| <= 100 {
      assert after == live;
    }
    forall j | j in written && now < written[j].expires && j !in after
      ensures |after| == 100 && forall k | k in after :: OlderRow(written, j, k)
    {
      forall k | k in after ensures OlderRow(written, j, k) {
        assert Before(live, j, k);
        LessTotal(j.user, k.user);
      }
    }
  }

  // ---------- acting on a product ----------

  /** Preparing the action for one product, for a list that was selected from or without one. */
  predicate Acts(
    t: Turn, product: string, quantity: int, events: seq<Event>, from: Option<Scope>, before: Rows, after: Rows, reply: Reply
  ) {
    if !t.admitted then after == before && reply == Reply(Failed, None, None, events)
    else
      && reply.called == Some(AddToCart(product, quantity))
      && if t.outcome.None? then after == before && reply.status == Failed && reply.pending == None && reply.events == events
         else if t.outcome.value.status == ClarificationRequired then
           after == before && reply.status == Completed && reply.pending == None && reply.events == events
         else if t.outcome.value.status == Prepared && t.outcome.value.pending.Some? && t.outcome.value.pending != Some("") then
           && reply.status == ConfirmationRequired && reply.pending == t.outcome.value.pending
           && (match from
               case None => after == before && reply.events == events
               case Some(key) => after == before - {key} && reply.events == events + [ClearedEvent(true)])
         else after == before && reply.status == Failed && reply.pending == None && reply.events == events
  }

  predicate IsUser(t: Turn) {
    t.user.Some? && t.user.value != ""
  }

  /** A turn that names a product acts on it, with the quantity its message gives, and leaves the lists alone. */
  lemma NamedProductTurn(rows: Rows, t: Turn, quantity: int)
    requires !t.message.preference && IsUser(t) && t.message.product.Some? && IsQuantity(t.message, quantity)
    ensures var h := Handle(rows, t); Acts(t, t.message.product.value, quantity, [], None, rows, h.rows, h.reply)
  {
    QuantityIs(t.message, quantity);
  }

  /** A turn that selects from a live list acts on the entry at that place, with its own quantity or, if that is
      one, the one stored with the list; a place that is not there is refused. */
  lemma SelectingTurn(rows: Rows, t: Turn, key: Scope, quantity: int)
    requires !t.message.preference && t.message.product.None? && t.message.selection.Some?
    requires IsLive(rows, t, key) && IsQuantity(t.message, quantity)
    ensures var h, place, list := Handle(rows, t), t.message.selection.value, rows[key];
            var many := if quantity == 1 then list.quantity else quantity;
            if 1 <= place <= |list.products|
            then Acts(t, list.products[place - 1], many, [SelectedEvent(many)], Some(key), rows, h.rows, h.reply)
            else h == Handled(rows, Reply(Completed, None, None, [OutOfRangeEvent(place, |list.products|)]))
  {
    QuantityIs(t.message, quantity);
    ScopeIs(t, key);
  }

  // ---------- storing a list ----------

  /** The rows after the lookup: the turn's own list is gone if it has expired. */
  predicate IsLookedUp(rows: Rows, t: Turn, after: Rows) {
    if exists key | key in rows :: t.message.selection.Some? && IsScope(t, key) && rows[key].expires <= t.now
    then forall key | key in rows && IsScope(t, key) :: after == rows - {key}
    else after == rows
  }

  /** Storing what was found: skipped without a thread, without candidates, for a blank scope or a quantity that
      is not positive; otherwise written for ten minutes, keeping its first creation time, and then pruned. */
  predicate Stores(rows: Rows, t: Turn, quantity: int, after: Rows, event: Event) {
    if t.thread.None? || t.thread.value == "" then after == rows && event == Skipped("missing_scope", |t.found|)
    else if t.found == [] then after == rows && event == Skipped("no_candidates", 0)
    else if IsBlank(t.user.GetOr("")) || IsBlank(t.thread.value) || quantity <= 0 then
      after == rows && event == Skipped("invalid_context", |t.found|)
    else
      && event == StoredEvent(|t.found|, quantity)
      && var key := Scope(Strip(t.user.GetOr("")), Strip(t.thread.value));
         IsLeftOf(rows[key := Context(t.found, quantity, t.later + 600,
                                      if key in rows then rows[key].created else t.later, t.later)], after, t.later)
  }

  lemma StoredIs(rows: Rows, t: Turn, key: Scope, quantity: int)
    requires IsScope(t, key) && t.found != [] && quantity > 0 && quantity == QuantityOf(t.message)
    ensures StoreEvent(t) == StoredEvent(|t.found|, quantity)
    ensures IsLeftOf(rows[key := Context(t.found, quantity, t.later + 600,
                                         if key in rows then rows[key].created else t.later, t.later)],
                     AfterStore(rows, t), t.later)
  {
    ScopeIs(t, key);
    LeftAre(Written(rows, key, t.found, quantity, 600, t.later), t.later);
  }

  lemma StoresIs(rows: Rows, t: Turn, quantity: int)
    requires IsUser(t) && IsQuantity(t.message, quantity)
    ensures Stores(rows, t, quantity, AfterStore(rows, t), StoreEvent(t))
  {
    QuantityIs(t.message, quantity);
    if StoreEvent(t).StoredEvent? {
      StoredIs(rows, t, Scope(Strip(t.user.value), Strip(t.thread.value)), quantity);
    }
  }

  lemma LookedUpIs(rows: Rows, t: Turn)
    requires IsUser(t) && t.message.product.None?
    ensures IsLookedUp(rows, t, AfterLookup(rows, t))
  {
    forall key | key in rows && IsScope(t, key) ensures Key(t.user, t.thread) == Some(key) {
      ScopeIs(t, key);
    }
  }

  /** A turn that neither names a product nor finds a list to select from asks which one is meant, and stores
      what it found. */
  lemma AskingTurn(rows: Rows, t: Turn, quantity: int, looked: Rows)
    requires !t.message.preference && IsUser(t) && t.message.product.None? && IsQuantity(t.message, quantity)
    requires t.message.selection.None? || forall key :: !IsLive(rows, t, key)
    requires looked == AfterLookup(rows, t)
    ensures IsLookedUp(rows, t, looked)
    ensures var h, missed := Handle(rows, t), if t.message.selection.Some? then [Missed(t.message.selection.value)] else [];
            && h.reply.status == Completed && h.reply.called == None && h.reply.pending == None
            && |h.reply.events| == |missed| + 1 && h.reply.events[..|missed|] == missed
            && Stores(looked, t, quantity, h.rows, h.reply.events[|missed|])
  {
    StoresIs(looked, t, quantity);
    LookedUpIs(rows, t);
    if t.message.selection.Some? && Key(t.user, t.thread).Some? {
      ScopeIs(t, Key(t.user, t.thread).value);
      assert !IsLive(rows, t, Key(t.user, t.thread).value);
    }
  }

  /** Without a user nothing is done. A preference is prepared without touching the lists, and needs confirmation
      exactly if the tool prepared it under an id. */
  lemma OtherTurns(rows: Rows, t: Turn)
    ensures !IsUser(t) ==> Handle(rows, t) == Handled(rows, Reply(Completed, None, None, []))
    ensures IsUser(t) && t.message.preference ==>
              var h := Handle(rows, t);
              && h.rows == rows && h.reply.events == []
              && if !t.admitted then h.reply.status == Failed && h.reply.called == None && h.reply.pending == None
                 else
                   && h.reply.called == Some(SavePreference)
                   && h.reply.pending == (if t.outcome.Some? then t.outcome.value.pending else None)
                   && h.reply.status == if t.outcome.Some? && t.outcome.value.status == Prepared
                                           && t.outcome.value.pending.Some? && t.outcome.value.pending != Some("")
                                        then ConfirmationRequired else Failed
  {
  }
}

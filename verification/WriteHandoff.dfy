/** The write handoff: a turn names a product or selects one from a stored candidate list, an action is
    prepared for confirmation, and a list is cleared only once it led to a prepared action. */
module WriteHandoff {
  import opened Text
  import opened CandidateContexts

  const TTL := 600
  const MAX_CONTEXTS := 100

  /** What the patterns find in a message: the three Arabic quantity patterns in order, and the Chinese one. */
  datatype Message = Message(
    preference: bool, product: Option<string>, selection: Option<int>, arabic: seq<nat>, chinese: Option<nat>
  )

  datatype Status = Prepared | ClarificationRequired | OtherStatus
  datatype ToolOutcome = ToolOutcome(status: Status, pending: Option<string>)

  /** A turn with what its surroundings answer: the times of its lookup and of its store, the products the
      search finds, whether the registry admits the action, and what the tool returns. */
  datatype Turn = Turn(
    message: Message, user: Option<string>, thread: Option<string>, now: int, later: int,
    found: seq<string>, admitted: bool, outcome: Option<ToolOutcome>
  )

  datatype Event =
    | Missed(selection: int)
    | OutOfRangeEvent(selection: int, count: nat)
    | SelectedEvent(quantity: int)
    | StoredEvent(count: nat, quantity: int)
    | Skipped(reason: string, count: nat)
    | ClearedEvent(cleared: bool)

  datatype ReplyStatus = Completed | Failed | ConfirmationRequired
  datatype Call = AddToCart(product: string, quantity: int) | SavePreference
  datatype Reply = Reply(status: ReplyStatus, called: Option<Call>, pending: Option<string>, events: seq<Event>)

  predicate Named(o: Option<string>) {
    o.Some? && o.value != ""
  }

  // ---------- quantities ----------

  function FirstPositive(found: seq<nat>): Option<nat> {
    if found == [] then None
    else if found[0] > 0 then Some(found[0])
    else FirstPositive(found[1..])
  }

  function QuantityOf(m: Message): int {
    match FirstPositive(m.arabic)
    case Some(n) => n
    case None => m.chinese.GetOr(1)
  }

  /** The first of the Arabic numbers that is not zero; without one the Chinese digit, and one without that. */
  predicate IsQuantity(m: Message, quantity: int) {
    || (exists i | 0 <= i < |m.arabic| ::
          m.arabic[i] > 0 && quantity == m.arabic[i] && forall j | 0 <= j < i :: m.arabic[j] == 0)
    || ((forall i | 0 <= i < |m.arabic| :: m.arabic[i] == 0)
        && quantity == if m.chinese.Some? then m.chinese.value as int else 1)
  }

  lemma {:induction false} FirstPositiveIs(found: seq<nat>)
    ensures match FirstPositive(found)
            case None => forall i | 0 <= i < |found| :: found[i] == 0
            case Some(n) => exists i | 0 <= i < |found| :: found[i] > 0 && n == found[i] && forall j | 0 <= j < i :: found[j] == 0
    decreases |found|
  {
    if found != [] && found[0] == 0 {
      FirstPositiveIs(found[1..]);
      assert found == [found[0]] + found[1..];
      if FirstPositive(found).Some? {
        var i :| 0 <= i < |found| - 1 && found[1..][i] > 0 && FirstPositive(found).value == found[1..][i]
                 && forall j | 0 <= j < i :: found[1..][j] == 0;
        assert found[i + 1] == found[1..][i];
        forall j | 0 <= j < i + 1 ensures found[j] == 0 {
          assert j > 0 ==> found[j] == found[1..][j - 1];
        }
      }
    }
  }

  lemma QuantityIs(m: Message, quantity: int)
    ensures IsQuantity(m, quantity) <==> quantity == QuantityOf(m)
  {
    FirstPositiveIs(m.arabic);
    if i :| 0 <= i < |m.arabic| && m.arabic[i] > 0 && quantity == m.arabic[i] && forall j | 0 <= j < i :: m.arabic[j] == 0 {
      var n := FirstPositive(m.arabic).value;
      var k :| 0 <= k < |m.arabic| && m.arabic[k] > 0 && n == m.arabic[k] && forall j | 0 <= j < k :: m.arabic[j] == 0;
      assert i == k;
    }
  }

  /** Patterns that do not match are left out of m.arabic; a matched zero is passed over. */
  method ExtractQuantity(m: Message) returns (quantity: int)
    ensures quantity == QuantityOf(m) && IsQuantity(m, quantity)
    ensures (m.chinese.Some? ==> m.chinese.value > 0) ==> quantity > 0
  {
    QuantityIs(m, QuantityOf(m));
    for i := 0 to |m.arabic|
      invariant FirstPositive(m.arabic) == FirstPositive(m.arabic[i..])
    {
      if m.arabic[i] > 0 {
        return m.arabic[i];
      }
    }
    quantity := m.chinese.GetOr(1);
  }

  // ---------- selection ----------

  datatype Resolution =
    | NoSelection
    | MissingContext(selection: int)
    | OutOfRange(selection: int, count: nat)
    | Selected(product: string, quantity: int)

  predicate Selects(t: Turn) {
    t.message.product.None? && t.message.selection.Some?
  }

  function LiveContext(rows: Rows, t: Turn): Option<Context> {
    if Named(t.user) && Named(t.thread) then Found(rows, Key(t.user, t.thread), t.now) else None
  }

  function Resolve(rows: Rows, t: Turn): Resolution {
    if !Selects(t) then NoSelection
    else
      var selection := t.message.selection.value;
      match LiveContext(rows, t)
      case None => MissingContext(selection)
      case Some(context) =>
        if selection < 1 || selection > |context.products| then OutOfRange(selection, |context.products|)
        else
          var quantity := QuantityOf(t.message);
          Selected(context.products[selection - 1], if quantity == 1 then context.quantity else quantity)
  }

  /** The rows after the lookup, which deletes the row it finds expired. */
  function AfterLookup(rows: Rows, t: Turn): Rows {
    if Selects(t) && Named(t.user) && Named(t.thread) then Looked(rows, Key(t.user, t.thread), t.now) else rows
  }

  // ---------- a turn ----------

  function Pending(outcome: Option<ToolOutcome>): Option<string> {
    if outcome.Some? then outcome.value.pending else None
  }

  predicate IsPrepared(outcome: Option<ToolOutcome>) {
    outcome.Some? && outcome.value.status == Prepared && Named(outcome.value.pending)
  }

  function HandlePreference(t: Turn): Reply {
    if !Named(t.user) then Reply(Completed, None, None, [])
    else if !t.admitted then Reply(Failed, None, None, [])
    else Reply(if IsPrepared(t.outcome) then ConfirmationRequired else Failed, Some(SavePreference), Pending(t.outcome), [])
  }

  /** Storing the candidates found for an ambiguous request. */
  function StoreEvent(t: Turn): Event {
    if !Named(t.user) || !Named(t.thread) then Skipped("missing_scope", |t.found|)
    else if t.found == [] then Skipped("no_candidates", 0)
    else if Key(t.user, t.thread).None? || QuantityOf(t.message) <= 0 then Skipped("invalid_context", |t.found|)
    else StoredEvent(|t.found|, QuantityOf(t.message))
  }

  ghost function AfterStore(rows: Rows, t: Turn): Rows {
    if StoreEvent(t).StoredEvent?
    then Saved(rows, Key(t.user, t.thread), t.found, QuantityOf(t.message), TTL, MAX_CONTEXTS, t.later)
    else rows
  }

  datatype Handled = Handled(rows: Rows, reply: Reply)

  /** Preparing the action for one product, which the user named or selected. */
  function HandleProduct(rows: Rows, t: Turn, product: string, quantity: int, selected: bool, events: seq<Event>): Handled {
    var call := Some(AddToCart(product, quantity));
    if !t.admitted then Handled(rows, Reply(Failed, None, None, events))
    else if t.outcome.None? then Handled(rows, Reply(Failed, call, None, events))
    else if t.outcome.value.status == ClarificationRequired then Handled(rows, Reply(Completed, call, None, events))
    else if !IsPrepared(t.outcome) then Handled(rows, Reply(Failed, call, None, events))
    else if !selected then Handled(rows, Reply(ConfirmationRequired, call, t.outcome.value.pending, events))
    else
      var key := Key(t.user, t.thread);
      var there := Named(t.thread) && key.Some? && key.value in rows;
      Handled(if Named(t.thread) then Cleared(rows, key) else rows,
              Reply(ConfirmationRequired, call, t.outcome.value.pending, events + [ClearedEvent(there)]))
  }

  ghost function HandleUnresolved(rows: Rows, t: Turn, events: seq<Event>): Handled {
    Handled(AfterStore(rows, t), Reply(Completed, None, None, events + [StoreEvent(t)]))
  }

  ghost function Handle(rows: Rows, t: Turn): Handled {
    if t.message.preference then Handled(rows, HandlePreference(t))
    else if !Named(t.user) then Handled(rows, Reply(Completed, None, None, []))
    else
      var after := AfterLookup(rows, t);
      match Resolve(rows, t)
      case OutOfRange(selection, count) => Handled(after, Reply(Completed, None, None, [OutOfRangeEvent(selection, count)]))
      case Selected(product, quantity) => HandleProduct(after, t, product, quantity, true, [SelectedEvent(quantity)])
      case MissingContext(selection) => HandleUnresolved(after, t, [Missed(selection)])
      case NoSelection =>
        if t.message.product.Some? then HandleProduct(after, t, t.message.product.value, QuantityOf(t.message), false, [])
        else HandleUnresolved(after, t, [])
  }

  // ---------- the handoff as it runs ----------

  method StoreCandidateContext(store: ContextStore, t: Turn, quantity: int) returns (event: Event)
    requires quantity == QuantityOf(t.message)
    modifies store
    ensures event == StoreEvent(t) && store.rows == AfterStore(old(store.rows), t)
  {
    if !Named(t.user) || !Named(t.thread) {
      return Skipped("missing_scope", |t.found|);
    }
    if t.found == [] {
      return Skipped("no_candidates", 0);
    }
    var context := store.Save(t.user, t.thread, t.found, quantity, TTL, MAX_CONTEXTS, t.later);
    if context.None? {
      return Skipped("invalid_context", |t.found|);
    }
    event := StoredEvent(|context.value.products|, context.value.quantity);
  }

  method ResolveCandidateSelection(store: ContextStore, t: Turn) returns (resolution: Resolution)
    requires t.message.product.None?
    modifies store
    ensures resolution == Resolve(old(store.rows), t) && store.rows == AfterLookup(old(store.rows), t)
  {
    if t.message.selection.None? {
      return NoSelection;
    }
    var selection := t.message.selection.value;
    var context := None;
    if Named(t.user) && Named(t.thread) {
      context := store.Get(t.user, t.thread, t.now);
    }
    if context.None? {
      return MissingContext(selection);
    }
    var products := context.value.products;
    if selection < 1 || selection > |products| {
      return OutOfRange(selection, |products|);
    }
    var quantity := ExtractQuantity(t.message);
    if quantity == 1 {
      quantity := context.value.quantity;
    }
    resolution := Selected(products[selection - 1], quantity);
  }

  method ClearCandidateContext(store: ContextStore, t: Turn) returns (cleared: bool)
    requires Named(t.user)
    modifies store
    ensures store.rows == if Named(t.thread) then Cleared(old(store.rows), Key(t.user, t.thread)) else old(store.rows)
    ensures cleared <==> Named(t.thread) && Key(t.user, t.thread).Some? && Key(t.user, t.thread).value in old(store.rows)
  {
    if !Named(t.thread) {
      return false;
    }
    cleared := store.Clear(t.user, t.thread);
  }

  method InvokeWriteHandoff(store: ContextStore, t: Turn) returns (reply: Reply)
    modifies store
    ensures Handled(store.rows, reply) == Handle(old(store.rows), t)
    ensures t.message.product.Some? && reply.called.Some? && reply.called.value.AddToCart? ==>
              reply.called.value.product == t.message.product.value && IsQuantity(t.message, reply.called.value.quantity)
  {
    if t.message.preference {
      return HandlePreference(t);
    }
    if !Named(t.user) {
      return Reply(Completed, None, None, []);
    }
    var product, events, selected := t.message.product, [], false;
    var quantity := ExtractQuantity(t.message);
    if product.None? {
      var resolution := ResolveCandidateSelection(store, t);
      match resolution {
        case NoSelection =>
        case MissingContext(selection) =>
          events := events + [Missed(selection)];
        case OutOfRange(selection, count) =>
          return Reply(Completed, None, None, events + [OutOfRangeEvent(selection, count)]);
        case Selected(chosen, many) =>
          product, quantity, selected := Some(chosen), many, true;
          events := events + [SelectedEvent(many)];
      }
    }
    if product.None? {
      var event := StoreCandidateContext(store, t, quantity);
      return Reply(Completed, None, None, events + [event]);
    }
    if !t.admitted {
      return Reply(Failed, None, None, events);
    }
    var call := Some(AddToCart(product.value, quantity));
    if t.outcome.None? {
      return Reply(Failed, call, None, events);
    }
    if t.outcome.value.status == ClarificationRequired {
      return Reply(Completed, call, None, events);
    }
    if t.outcome.value.status != Prepared || !Named(t.outcome.value.pending) {
      return Reply(Failed, call, None, events);
    }
    if selected {
      var cleared := ClearCandidateContext(store, t);
      events := events + [ClearedEvent(cleared)];
    }
    reply := Reply(ConfirmationRequired, call, t.outcome.value.pending, events);
  }
}

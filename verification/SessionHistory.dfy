/** What a whole history of accepted turns leaves behind: the incremental merge of every field equals a
    closed-form replay, provenance labels are sound, and exclusions are permanent. */
module SessionHistory {
  import opened Text
  import opened ShoppingSession

  /** Turns accepted one after the other, each from the state the previous one persisted. */
  ghost predicate IsHistory(shop: Shop, turns: seq<Turn>, sessions: seq<Session>) {
    && |turns| == |sessions|
    && forall i | 0 <= i < |turns| :: Accepted(shop, turns, sessions, i)
  }

  ghost predicate Accepted(shop: Shop, turns: seq<Turn>, sessions: seq<Session>, i: nat)
    requires i < |turns| == |sessions|
  {
    NextSession(shop, Before(sessions, i), turns[i]) == Ok(sessions[i])
  }

  function Before(sessions: seq<Session>, i: nat): Option<Session>
    requires i <= |sessions|
  {
    if i == 0 then None else Some(sessions[i - 1])
  }

  // ---------- replaying one field ----------

  /** What one turn says about one field: the value the user names, the value a preference offers, and
      whether everything remembered about the field is dropped first. */
  datatype Mention<V> = Mention(named: Option<V>, offered: Option<V>, drops: bool)

  function Carry<V>(prior: Option<V>, m: Mention<V>): Option<V> {
    if m.named.Some? then m.named
    else if !m.drops && prior.Some? then prior
    else m.offered
  }

  function Incremental<V>(legacy: Option<V>, ms: seq<Mention<V>>): Option<V> {
    if ms == [] then legacy else Carry(Incremental(legacy, ms[..|ms| - 1]), ms[|ms| - 1])
  }

  /** The last turn that drops the field; None when no turn does. */
  function LastDrop<V>(ms: seq<Mention<V>>): (r: Option<nat>)
    ensures match r
            case None => forall i | 0 <= i < |ms| :: !ms[i].drops
            case Some(j) => j < |ms| && ms[j].drops && forall i | j < i < |ms| :: !ms[i].drops
  {
    if ms == [] then None
    else if ms[|ms| - 1].drops then Some(|ms| - 1)
    else LastDrop(ms[..|ms| - 1])
  }

  /** The last turn from the given one on in which the user names the field. */
  function LastNamed<V>(ms: seq<Mention<V>>, from: nat): (r: Option<nat>)
    ensures match r
            case None => forall i | from <= i < |ms| :: ms[i].named.None?
            case Some(j) => from <= j < |ms| && ms[j].named.Some? && forall i | j < i < |ms| :: ms[i].named.None?
  {
    if |ms| <= from then None
    else if ms[|ms| - 1].named.Some? then Some(|ms| - 1)
    else LastNamed(ms[..|ms| - 1], from)
  }

  /** The first turn from the given one on in which a preference offers the field. */
  function FirstOffer<V>(ms: seq<Mention<V>>, from: nat): (r: Option<nat>)
    ensures match r
            case None => forall i | from <= i < |ms| :: ms[i].offered.None?
            case Some(j) => from <= j < |ms| && ms[j].offered.Some? && forall i | from <= i < j :: ms[i].offered.None?
  {
    if |ms| <= from then None
    else
      var earlier := FirstOffer(ms[..|ms| - 1], from);
      if earlier.Some? then earlier else if ms[|ms| - 1].offered.Some? then Some(|ms| - 1) else None
  }

  /** The user's last value not dropped afterwards; otherwise the legacy value if nothing was ever
      dropped; otherwise the first preference offered since the last drop; otherwise nothing. */
  function ClosedForm<V>(legacy: Option<V>, ms: seq<Mention<V>>): Option<V> {
    var drop := LastDrop(ms);
    var from := drop.GetOr(0);
    match LastNamed(ms, from)
    case Some(j) => ms[j].named
    case None =>
      if drop.None? && legacy.Some? then legacy
      else match FirstOffer(ms, from) case Some(j) => ms[j].offered case None => None
  }

  lemma {:induction false} IncrementalIsClosedForm<V>(legacy: Option<V>, ms: seq<Mention<V>>)
    ensures Incremental(legacy, ms) == ClosedForm(legacy, ms)
  {
    if ms != [] {
      IncrementalIsClosedForm(legacy, ms[..|ms| - 1]);
    }
  }

  // ---------- what a turn says about an attribute and about the budget ----------

  function Get<V>(m: map<string, V>, k: string): Option<V> {
    if k in m then Some(m[k]) else None
  }

  function AttributeMention(t: Turn, k: string): Mention<Constraint> {
    Mention(Get(t.request.attributes, k), Get(t.preferences - t.cleared, k), !t.merges || k in t.cleared)
  }

  /** An amount that is there; zero counts as absent. */
  function Amount(a: Option<real>): Option<real> { if a == Some(0.0) then None else a }

  function MaxMention(t: Turn): Mention<real> {
    Mention(Amount(t.request.budgetMax), None, !t.merges || "__budget__" in t.cleared)
  }

  function MinMention(t: Turn): Mention<real> {
    Mention(Amount(t.request.budgetMin), None, !t.merges || "__budget__" in t.cleared)
  }

  function Given(text: Option<string>): Option<string> {
    if text == Some("") then None else text
  }

  function CurrencyMention(t: Turn): Mention<string> {
    Mention(Given(t.request.currency), None, !t.merges || "__budget__" in t.cleared)
  }

  /** seq comprehensions over the turns, written as functions so that they can be named. */
  function AttributeMentions(turns: seq<Turn>, k: string): (ms: seq<Mention<Constraint>>)
    ensures |ms| == |turns| && forall i | 0 <= i < |ms| :: ms[i] == AttributeMention(turns[i], k)
  {
    seq(|turns|, i requires 0 <= i < |turns| => AttributeMention(turns[i], k))
  }

  function MaxMentions(turns: seq<Turn>): (ms: seq<Mention<real>>)
    ensures |ms| == |turns| && forall i | 0 <= i < |ms| :: ms[i] == MaxMention(turns[i])
  {
    seq(|turns|, i requires 0 <= i < |turns| => MaxMention(turns[i]))
  }

  function MinMentions(turns: seq<Turn>): (ms: seq<Mention<real>>)
    ensures |ms| == |turns| && forall i | 0 <= i < |ms| :: ms[i] == MinMention(turns[i])
  {
    seq(|turns|, i requires 0 <= i < |turns| => MinMention(turns[i]))
  }

  function CurrencyMentions(turns: seq<Turn>): (ms: seq<Mention<string>>)
    ensures |ms| == |turns| && forall i | 0 <= i < |ms| :: ms[i] == CurrencyMention(turns[i])
  {
    seq(|turns|, i requires 0 <= i < |turns| => CurrencyMention(turns[i]))
  }

  /** What the prose of an older thread contributes, once, before the first turn. */
  function Legacy(turns: seq<Turn>): Request {
    if turns == [] then FoldProse([]) else FoldProse(turns[0].prose)
  }

  lemma NextAttribute(shop: Shop, prior: Option<Session>, t: Turn, k: string)
    requires NextSession(shop, prior, t).Ok?
    ensures Get(NextSession(shop, prior, t).value.attributes, k)
         == Carry(Get(Inherited(prior, t).attributes, k), AttributeMention(t, k))
  {
  }

  lemma NextBudget(shop: Shop, prior: Option<Session>, t: Turn)
    requires NextSession(shop, prior, t).Ok?
    ensures var s := NextSession(shop, prior, t).value;
            && Amount(s.budgetMax) == Carry(Amount(Inherited(prior, t).budgetMax), MaxMention(t))
            && Amount(s.budgetMin) == Carry(Amount(Inherited(prior, t).budgetMin), MinMention(t))
  {
  }

  /** A sequence of values each of which carries the one before it. */
  ghost predicate IsChain<V>(legacy: Option<V>, ms: seq<Mention<V>>, values: seq<Option<V>>) {
    && |ms| == |values|
    && forall i | 0 <= i < |ms| :: ChainStep(legacy, ms, values, i)
  }

  ghost predicate ChainStep<V>(legacy: Option<V>, ms: seq<Mention<V>>, values: seq<Option<V>>, i: nat)
    requires i < |ms| == |values|
  {
    values[i] == Carry(if i == 0 then legacy else values[i - 1], ms[i])
  }

  lemma {:induction false} ChainIsReplay<V>(legacy: Option<V>, ms: seq<Mention<V>>, values: seq<Option<V>>)
    requires IsChain(legacy, ms, values) && ms != []
    ensures values[|ms| - 1] == Incremental(legacy, ms) == ClosedForm(legacy, ms)
  {
    var n := |ms| - 1;
    if n > 0 {
      forall i | 0 <= i < n ensures ChainStep(legacy, ms[..n], values[..n], i) {
        assert ChainStep(legacy, ms, values, i);
      }
      ChainIsReplay(legacy, ms[..n], values[..n]);
    }
    assert ChainStep(legacy, ms, values, n);
    IncrementalIsClosedForm(legacy, ms);
  }

  function Attributes(sessions: seq<Session>, k: string): (vs: seq<Option<Constraint>>)
    ensures |vs| == |sessions| && forall i | 0 <= i < |vs| :: vs[i] == Get(sessions[i].attributes, k)
  {
    seq(|sessions|, i requires 0 <= i < |sessions| => Get(sessions[i].attributes, k))
  }

  function Maxima(sessions: seq<Session>): (vs: seq<Option<real>>)
    ensures |vs| == |sessions| && forall i | 0 <= i < |vs| :: vs[i] == Amount(sessions[i].budgetMax)
  {
    seq(|sessions|, i requires 0 <= i < |sessions| => Amount(sessions[i].budgetMax))
  }

  function Minima(sessions: seq<Session>): (vs: seq<Option<real>>)
    ensures |vs| == |sessions| && forall i | 0 <= i < |vs| :: vs[i] == Amount(sessions[i].budgetMin)
  {
    seq(|sessions|, i requires 0 <= i < |sessions| => Amount(sessions[i].budgetMin))
  }

  function Currencies(sessions: seq<Session>): (vs: seq<Option<string>>)
    ensures |vs| == |sessions| && forall i | 0 <= i < |vs| :: vs[i] == Given(sessions[i].currency)
  {
    seq(|sessions|, i requires 0 <= i < |sessions| => Given(sessions[i].currency))
  }

  lemma NextCurrency(shop: Shop, prior: Option<Session>, t: Turn)
    requires NextSession(shop, prior, t).Ok?
    ensures Given(NextSession(shop, prior, t).value.currency) == Carry(Given(Inherited(prior, t).currency), CurrencyMention(t))
  {
  }

  /** So is the remembered currency. */
  lemma StoredCurrencyIsReplay(shop: Shop, turns: seq<Turn>, sessions: seq<Session>)
    requires IsHistory(shop, turns, sessions) && turns != []
    ensures Given(sessions[|turns| - 1].currency) == ClosedForm(Given(Legacy(turns).currency), CurrencyMentions(turns))
  {
    forall i | 0 <= i < |turns| ensures ChainStep(Given(Legacy(turns).currency), CurrencyMentions(turns), Currencies(sessions), i) {
      assert Accepted(shop, turns, sessions, i);
      NextCurrency(shop, Before(sessions, i), turns[i]);
    }
    ChainIsReplay(Given(Legacy(turns).currency), CurrencyMentions(turns), Currencies(sessions));
  }

  lemma AttributesChain(shop: Shop, turns: seq<Turn>, sessions: seq<Session>, k: string)
    requires IsHistory(shop, turns, sessions)
    ensures IsChain(Get(Legacy(turns).attributes, k), AttributeMentions(turns, k), Attributes(sessions, k))
  {
    forall i | 0 <= i < |turns|
      ensures ChainStep(Get(Legacy(turns).attributes, k), AttributeMentions(turns, k), Attributes(sessions, k), i)
    {
      assert Accepted(shop, turns, sessions, i);
      NextAttribute(shop, Before(sessions, i), turns[i], k);
    }
  }

  lemma BudgetsChain(shop: Shop, turns: seq<Turn>, sessions: seq<Session>)
    requires IsHistory(shop, turns, sessions)
    ensures IsChain(Amount(Legacy(turns).budgetMax), MaxMentions(turns), Maxima(sessions))
    ensures IsChain(Amount(Legacy(turns).budgetMin), MinMentions(turns), Minima(sessions))
  {
    forall i | 0 <= i < |turns|
      ensures ChainStep(Amount(Legacy(turns).budgetMax), MaxMentions(turns), Maxima(sessions), i)
      ensures ChainStep(Amount(Legacy(turns).budgetMin), MinMentions(turns), Minima(sessions), i)
    {
      assert Accepted(shop, turns, sessions, i);
      NextBudget(shop, Before(sessions, i), turns[i]);
    }
  }

  /** Over every history, each stored attribute is the closed-form replay of the turns. */
  lemma StoredAttributeIsReplay(shop: Shop, turns: seq<Turn>, sessions: seq<Session>, k: string)
    requires IsHistory(shop, turns, sessions) && turns != []
    ensures Get(sessions[|turns| - 1].attributes, k)
         == ClosedForm(Get(Legacy(turns).attributes, k), AttributeMentions(turns, k))
  {
    AttributesChain(shop, turns, sessions, k);
    ChainIsReplay(Get(Legacy(turns).attributes, k), AttributeMentions(turns, k), Attributes(sessions, k));
  }

  /** The remembered budget limits are the closed-form replay of the turns too. */
  lemma StoredBudgetIsReplay(shop: Shop, turns: seq<Turn>, sessions: seq<Session>)
    requires IsHistory(shop, turns, sessions) && turns != []
    ensures var s := sessions[|turns| - 1];
            && Amount(s.budgetMax) == ClosedForm(Amount(Legacy(turns).budgetMax), MaxMentions(turns))
            && Amount(s.budgetMin) == ClosedForm(Amount(Legacy(turns).budgetMin), MinMentions(turns))
  {
    BudgetsChain(shop, turns, sessions);
    ChainIsReplay(Amount(Legacy(turns).budgetMax), MaxMentions(turns), Maxima(sessions));
    ChainIsReplay(Amount(Legacy(turns).budgetMin), MinMentions(turns), Minima(sessions));
  }

  // ---------- provenance ----------

  /** A label follows the same rule as a value: naming and accepted preferences set it, drops erase it. */
  function LabelMention(t: Turn, k: string): Mention<Source> {
    Mention(
      if k in t.request.attributes then Some(FromUser)
      else if k in t.preferences - t.cleared then Some(FromPreference)
      else None,
      None, !t.merges || k in t.cleared)
  }

  function LabelMentions(turns: seq<Turn>, k: string): (ms: seq<Mention<Source>>)
    ensures |ms| == |turns| && forall i | 0 <= i < |ms| :: ms[i] == LabelMention(turns[i], k)
  {
    seq(|turns|, i requires 0 <= i < |turns| => LabelMention(turns[i], k))
  }

  function Labels(sessions: seq<Session>, k: string): (vs: seq<Option<Source>>)
    ensures |vs| == |sessions| && forall i | 0 <= i < |vs| :: vs[i] == Get(sessions[i].sources, k)
  {
    seq(|sessions|, i requires 0 <= i < |sessions| => Get(sessions[i].sources, k))
  }

  lemma LabelledIsStored(shop: Shop, prior: Option<Session>, t: Turn)
    requires NextSession(shop, prior, t).Ok?
    ensures var s := NextSession(shop, prior, t).value; s.sources.Keys <= s.attributes.Keys
  {
  }

  lemma NextLabel(shop: Shop, prior: Option<Session>, t: Turn, k: string)
    requires NextSession(shop, prior, t).Ok?
    requires prior.Some? ==> prior.value.sources.Keys <= prior.value.attributes.Keys
    ensures Get(NextSession(shop, prior, t).value.sources, k) == Carry(Get(Sources(prior), k), LabelMention(t, k))
  {
    NextAttribute(shop, prior, t, k);
    if prior.Some? && k in prior.value.sources {
      assert k in prior.value.attributes;
    }
  }

  lemma LabelsChain(shop: Shop, turns: seq<Turn>, sessions: seq<Session>, k: string)
    requires IsHistory(shop, turns, sessions)
    ensures IsChain(None, LabelMentions(turns, k), Labels(sessions, k))
  {
    forall i | 0 <= i < |turns| ensures ChainStep(None, LabelMentions(turns, k), Labels(sessions, k), i) {
      assert Accepted(shop, turns, sessions, i);
      if i > 0 {
        assert Accepted(shop, turns, sessions, i - 1);
        LabelledIsStored(shop, Before(sessions, i - 1), turns[i - 1]);
      }
      NextLabel(shop, Before(sessions, i), turns[i], k);
    }
  }

  /** Every stored label is the closed-form replay of the turns. */
  lemma StoredLabelIsReplay(shop: Shop, turns: seq<Turn>, sessions: seq<Session>, k: string)
    requires IsHistory(shop, turns, sessions) && turns != []
    ensures Get(sessions[|turns| - 1].sources, k) == ClosedForm(None, LabelMentions(turns, k))
  {
    LabelsChain(shop, turns, sessions, k);
    ChainIsReplay(None, LabelMentions(turns, k), Labels(sessions, k));
  }

  /** Turn j is the latest in which the user names k, and since then nothing dropped k and no
      preference has mentioned it. */
  ghost predicate UserOwnsSince(turns: seq<Turn>, k: string, j: nat) {
    && j < |turns| && k in turns[j].request.attributes
    && forall i | j < i < |turns| ::
         k !in turns[i].request.attributes && k !in turns[i].preferences
         && turns[i].merges && k !in turns[i].cleared
  }

  lemma OwnershipInClosedForm(turns: seq<Turn>, k: string)
    ensures ClosedForm(None, LabelMentions(turns, k)) == Some(FromUser) <==> exists j: nat :: UserOwnsSince(turns, k, j)
  {
    var ms := LabelMentions(turns, k);
    var from := LastDrop(ms).GetOr(0);
    var last := LastNamed(ms, from);
    if ClosedForm(None, ms) == Some(FromUser) {
      assert UserOwnsSince(turns, k, last.value);
    }
    if j: nat :| UserOwnsSince(turns, k, j) {
      assert ms[j].named == Some(FromUser);
      assert forall i | j < i < |ms| :: ms[i].named.None? && !ms[i].drops;
      assert from <= j && last == Some(j);
    }
  }

  lemma OwnedValue(turns: seq<Turn>, legacy: Option<Constraint>, k: string, j: nat)
    requires UserOwnsSince(turns, k, j)
    ensures ClosedForm(legacy, AttributeMentions(turns, k)) == Some(turns[j].request.attributes[k])
  {
    var ms := AttributeMentions(turns, k);
    assert ms[j].named.Some?;
    assert forall i | j < i < |ms| :: ms[i].named.None? && !ms[i].drops;
    assert LastNamed(ms, LastDrop(ms).GetOr(0)) == Some(j);
  }

  /** A field is labelled "user" exactly when the user named it, and since then nothing dropped it and
      no preference has mentioned it. */
  lemma UserLabelIsExact(shop: Shop, turns: seq<Turn>, sessions: seq<Session>, k: string)
    requires IsHistory(shop, turns, sessions) && turns != []
    ensures Get(sessions[|turns| - 1].sources, k) == Some(FromUser) <==> exists j: nat :: UserOwnsSince(turns, k, j)
  {
    StoredLabelIsReplay(shop, turns, sessions, k);
    OwnershipInClosedForm(turns, k);
  }

  /** The value of a field labelled "user" is the one the user last named. */
  lemma UserLabelIsSound(shop: Shop, turns: seq<Turn>, sessions: seq<Session>, k: string) returns (j: nat)
    requires IsHistory(shop, turns, sessions) && turns != []
    requires Get(sessions[|turns| - 1].sources, k) == Some(FromUser)
    ensures UserOwnsSince(turns, k, j)
    ensures Get(sessions[|turns| - 1].attributes, k) == Some(turns[j].request.attributes[k])
  {
    UserLabelIsExact(shop, turns, sessions, k);
    j :| UserOwnsSince(turns, k, j);
    OwnedValue(turns, Get(Legacy(turns).attributes, k), k, j);
    StoredAttributeIsReplay(shop, turns, sessions, k);
  }

  predicate Drops(t: Turn, k: string) {
    !t.merges || k in t.cleared
  }

  /** Turn j is the latest in which the user names k, and nothing has dropped k since. */
  predicate NamedSinceDrop(turns: seq<Turn>, k: string, j: nat) {
    && j < |turns| && k in turns[j].request.attributes
    && forall i | j < i < |turns| :: k !in turns[i].request.attributes && !Drops(turns[i], k)
  }

  predicate NeverDropped(turns: seq<Turn>, k: string) {
    forall i | 0 <= i < |turns| :: !Drops(turns[i], k)
  }

  /** Turn i is the first from the last drop on whose preferences offer k. */
  predicate FirstOffered(turns: seq<Turn>, k: string, i: nat) {
    && i < |turns| && k in turns[i].preferences - turns[i].cleared
    && (forall j | i < j < |turns| :: !Drops(turns[j], k))
    && (Drops(turns[i], k)
        || forall j | 0 <= j < i && k in turns[j].preferences - turns[j].cleared ::
             exists d | j < d <= i :: Drops(turns[d], k))
  }

  lemma NamedInClosedForm(turns: seq<Turn>, legacy: Option<Constraint>, k: string)
    ensures forall j: nat | NamedSinceDrop(turns, k, j) ::
              ClosedForm(legacy, AttributeMentions(turns, k)) == Some(turns[j].request.attributes[k])
    ensures (exists j: nat :: NamedSinceDrop(turns, k, j))
        <==> LastNamed(AttributeMentions(turns, k), LastDrop(AttributeMentions(turns, k)).GetOr(0)).Some?
  {
    var ms := AttributeMentions(turns, k);
    var last := LastNamed(ms, LastDrop(ms).GetOr(0));
    forall j: nat | NamedSinceDrop(turns, k, j) ensures last == Some(j) {
      assert ms[j].named.Some?;
      assert forall i | j < i < |ms| :: ms[i].named.None? && !ms[i].drops;
    }
    if last.Some? {
      assert forall i | last.value < i < |ms| :: ms[i].named.None? && !ms[i].drops;
      assert NamedSinceDrop(turns, k, last.value);
    }
  }

  lemma OfferInClosedForm(turns: seq<Turn>, k: string)
    ensures var ms := AttributeMentions(turns, k);
            match FirstOffer(ms, LastDrop(ms).GetOr(0))
            case None => true
            case Some(i) => FirstOffered(turns, k, i) && ms[i].offered == Some(turns[i].preferences[k])
  {
    var ms := AttributeMentions(turns, k);
    var drop := LastDrop(ms);
    match FirstOffer(ms, drop.GetOr(0))
    case None =>
    case Some(i) =>
      assert forall j | i < j < |ms| :: !ms[j].drops;
      forall j | 0 <= j < i && k in turns[j].preferences - turns[j].cleared
        ensures exists d | j < d <= i :: Drops(turns[d], k)
      {
        assert ms[j].offered.Some?;
        assert ms[drop.value].drops && j < drop.value <= i;
        assert Drops(turns[drop.value], k);
      }
  }

  lemma NeverDroppedInClosedForm(turns: seq<Turn>, k: string)
    ensures LastDrop(AttributeMentions(turns, k)).None? <==> NeverDropped(turns, k)
  {
    var ms := AttributeMentions(turns, k);
    assert forall i | 0 <= i < |turns| :: ms[i].drops == Drops(turns[i], k);
  }

  /** Where a stored value comes from: the user, if a turn since the last drop names the field; otherwise
      what older prose said, if nothing was ever dropped; otherwise the first preference since then. */
  lemma StoredValueOrigin(shop: Shop, turns: seq<Turn>, sessions: seq<Session>, k: string)
    requires IsHistory(shop, turns, sessions) && turns != [] && k in sessions[|turns| - 1].attributes
    ensures var value := sessions[|turns| - 1].attributes[k];
            if exists j: nat :: NamedSinceDrop(turns, k, j) then
              forall j: nat | NamedSinceDrop(turns, k, j) :: value == turns[j].request.attributes[k]
            else if NeverDropped(turns, k) && k in Legacy(turns).attributes then value == Legacy(turns).attributes[k]
            else exists i: nat :: FirstOffered(turns, k, i) && value == turns[i].preferences[k]
  {
    StoredAttributeIsReplay(shop, turns, sessions, k);
    NamedInClosedForm(turns, Get(Legacy(turns).attributes, k), k);
    OfferInClosedForm(turns, k);
    NeverDroppedInClosedForm(turns, k);
  }

  /** Turn i's preferences set the label of k, and nothing has named or dropped k since. */
  predicate PreferredSince(turns: seq<Turn>, k: string, i: nat) {
    && i < |turns| && k in turns[i].preferences - turns[i].cleared && k !in turns[i].request.attributes
    && forall j | i < j < |turns| :: k !in turns[j].request.attributes && !Drops(turns[j], k)
  }

  lemma PreferredFromLabel(turns: seq<Turn>, k: string)
    requires ClosedForm(None, LabelMentions(turns, k)) == Some(FromPreference)
    ensures exists i: nat :: PreferredSince(turns, k, i)
  {
    var ms := LabelMentions(turns, k);
    var last := LastNamed(ms, LastDrop(ms).GetOr(0)).value;
    assert forall j | last < j < |ms| :: ms[j].named.None? && !ms[j].drops;
    assert PreferredSince(turns, k, last);
  }

  lemma LabelFromPreferred(turns: seq<Turn>, k: string, i: nat)
    requires PreferredSince(turns, k, i)
    ensures ClosedForm(None, LabelMentions(turns, k)) == Some(FromPreference)
  {
    var ms := LabelMentions(turns, k);
    assert ms[i].named == Some(FromPreference);
    assert forall j | i < j < |ms| :: ms[j].named != Some(FromUser) && !ms[j].drops;
    var from := LastDrop(ms).GetOr(0);
    assert LastNamed(ms, from).Some? && i <= LastNamed(ms, from).value;
  }

  /** A field is labelled "preference" exactly when a turn's preferences mention it without the user
      naming it, and nothing has named or dropped it since. */
  lemma PreferenceLabelIsExact(shop: Shop, turns: seq<Turn>, sessions: seq<Session>, k: string)
    requires IsHistory(shop, turns, sessions) && turns != []
    ensures Get(sessions[|turns| - 1].sources, k) == Some(FromPreference) <==> exists i: nat :: PreferredSince(turns, k, i)
  {
    StoredLabelIsReplay(shop, turns, sessions, k);
    if ClosedForm(None, LabelMentions(turns, k)) == Some(FromPreference) {
      PreferredFromLabel(turns, k);
    }
    if i: nat :| PreferredSince(turns, k, i) {
      LabelFromPreferred(turns, k, i);
    }
  }

  /** The label "preference" stands at a value the user named exactly when, after the latest turn that
      named it and with nothing dropped since, some turn's preferences mention the field. */
  lemma PreferenceLabelCoversUserValue(shop: Shop, turns: seq<Turn>, sessions: seq<Session>, k: string, j: nat)
    requires IsHistory(shop, turns, sessions) && turns != [] && NamedSinceDrop(turns, k, j)
    ensures Get(sessions[|turns| - 1].attributes, k) == Some(turns[j].request.attributes[k])
    ensures Get(sessions[|turns| - 1].sources, k) == Some(FromPreference)
        <==> exists i | j < i < |turns| :: k in turns[i].preferences
    ensures Get(sessions[|turns| - 1].sources, k) == Some(FromUser)
        <==> forall i | j < i < |turns| :: k !in turns[i].preferences
  {
    StoredAttributeIsReplay(shop, turns, sessions, k);
    NamedInClosedForm(turns, Get(Legacy(turns).attributes, k), k);
    PreferenceLabelIsExact(shop, turns, sessions, k);
    UserLabelIsExact(shop, turns, sessions, k);
    if i :| j < i < |turns| && k in turns[i].preferences {
      assert PreferredSince(turns, k, i);
    }
    if i: nat :| PreferredSince(turns, k, i) {
      assert j < i;
    }
    if forall i | j < i < |turns| :: k !in turns[i].preferences {
      assert UserOwnsSince(turns, k, j);
    }
  }

  /** The turn gives k a label. */
  predicate GivesLabel(t: Turn, k: string) {
    k in t.request.attributes || k in t.preferences - t.cleared
  }

  /** What older prose said about k, which no turn has dropped and none has labelled. */
  predicate SilentlyInherited(turns: seq<Turn>, k: string) {
    && k in Legacy(turns).attributes && NeverDropped(turns, k)
    && forall i | 0 <= i < |turns| :: !GivesLabel(turns[i], k)
  }

  /** Nothing labels k since the last drop, so no turn named or offered a value for it either. */
  lemma NoLabelNoValue(turns: seq<Turn>, k: string)
    requires ClosedForm(None, LabelMentions(turns, k)).None?
    ensures var ms := AttributeMentions(turns, k);
            var from := LastDrop(ms).GetOr(0);
            LastNamed(ms, from).None? && FirstOffer(ms, from).None?
            && forall i | from <= i < |turns| :: !GivesLabel(turns[i], k)
  {
    var values, labels := AttributeMentions(turns, k), LabelMentions(turns, k);
    SameDrop(values, labels);
    var from := LastDrop(values).GetOr(0);
    forall i | from <= i < |turns| ensures !GivesLabel(turns[i], k) && values[i].named.None? && values[i].offered.None? {
      assert labels[i].named.None?;
    }
  }

  lemma SilentIsUnlabelled(turns: seq<Turn>, k: string)
    requires SilentlyInherited(turns, k)
    ensures var legacy := Get(Legacy(turns).attributes, k);
            ClosedForm(legacy, AttributeMentions(turns, k)).Some? && ClosedForm(None, LabelMentions(turns, k)).None?
  {
    var values, labels := AttributeMentions(turns, k), LabelMentions(turns, k);
    SameDrop(values, labels);
    NeverDroppedInClosedForm(turns, k);
    forall i | 0 <= i < |turns| ensures values[i].named.None? && labels[i].named.None? {
      assert !GivesLabel(turns[i], k);
    }
  }

  lemma SilentClosedForm(turns: seq<Turn>, k: string)
    ensures var legacy := Get(Legacy(turns).attributes, k);
            ClosedForm(legacy, AttributeMentions(turns, k)).Some? && ClosedForm(None, LabelMentions(turns, k)).None?
            <==> SilentlyInherited(turns, k)
  {
    if SilentlyInherited(turns, k) {
      SilentIsUnlabelled(turns, k);
    }
    if ClosedForm(None, LabelMentions(turns, k)).None? {
      NoLabelNoValue(turns, k);
      NeverDroppedInClosedForm(turns, k);
    }
  }

  lemma {:induction false} SameDrop<V, W>(a: seq<Mention<V>>, b: seq<Mention<W>>)
    requires |a| == |b| && forall i | 0 <= i < |a| :: a[i].drops == b[i].drops
    ensures LastDrop(a) == LastDrop(b)
  {
    if a != [] {
      SameDrop(a[..|a| - 1], b[..|b| - 1]);
    }
  }

  /** A stored field has no label exactly when it is only what older prose said. */
  lemma UnlabelledExactly(shop: Shop, turns: seq<Turn>, sessions: seq<Session>, k: string)
    requires IsHistory(shop, turns, sessions) && turns != []
    ensures var s := sessions[|turns| - 1];
            k in s.attributes && k !in s.sources <==> SilentlyInherited(turns, k)
  {
    StoredLabelIsReplay(shop, turns, sessions, k);
    StoredAttributeIsReplay(shop, turns, sessions, k);
    SilentClosedForm(turns, k);
  }

  /** Every labelled field is stored, and every stored field is labelled exactly when each field that older
      prose named and nothing has dropped has been named or preferred by some turn. */
  lemma LabelsCoverAttributes(shop: Shop, turns: seq<Turn>, sessions: seq<Session>)
    requires IsHistory(shop, turns, sessions) && turns != []
    ensures var s := sessions[|turns| - 1];
            && s.sources.Keys <= s.attributes.Keys
            && (s.sources.Keys == s.attributes.Keys <==>
                forall k | k in Legacy(turns).attributes && NeverDropped(turns, k) ::
                  exists i | 0 <= i < |turns| :: GivesLabel(turns[i], k))
  {
    var s := sessions[|turns| - 1];
    assert Accepted(shop, turns, sessions, |turns| - 1);
    LabelledIsStored(shop, Before(sessions, |turns| - 1), turns[|turns| - 1]);
    forall k ensures k in s.attributes && k !in s.sources <==> SilentlyInherited(turns, k) {
      UnlabelledExactly(shop, turns, sessions, k);
    }
    if k :| k in s.attributes && k !in s.sources {
      assert SilentlyInherited(turns, k);
    }
  }

  // ---------- exclusions ----------

  lemma {:induction false} DistinctIsIdentity(codes: seq<string>)
    requires forall i, j | 0 <= i < j < |codes| :: codes[i] != codes[j]
    ensures Distinct(codes) == codes
  {
    if codes != [] {
      DistinctIsIdentity(codes[..|codes| - 1]);
      assert codes == codes[..|codes| - 1] + [codes[|codes| - 1]];
    }
  }

  ghost predicate NoRepeats(codes: seq<string>) {
    forall i, j | 0 <= i < j < |codes| :: codes[i] != codes[j]
  }

  lemma OneMoreExclusion(before: seq<string>, code: string)
    requires NoRepeats(before)
    ensures Distinct(before + [code]) == before + if code in before then [] else [code]
  {
    DistinctIsIdentity(before);
    var all := before + [code];
    assert all[..|all| - 1] == before && all[|all| - 1] == code;
  }

  lemma ExclusionsGrow(before: seq<string>, added: seq<string>)
    requires NoRepeats(before) && |added| <= 1
    ensures NoRepeats(Distinct(before + added))
    ensures Distinct(before + added) == before + if added == [] || added[0] in before then [] else added
  {
    if added == [] {
      DistinctIsIdentity(before);
      assert before + added == before;
    } else {
      assert added == [added[0]];
      OneMoreExclusion(before, added[0]);
    }
  }

  lemma {:induction false} ExclusionsAt(shop: Shop, turns: seq<Turn>, sessions: seq<Session>, n: nat)
    requires IsHistory(shop, turns, sessions) && n < |turns|
    ensures NoRepeats(sessions[n].excluded)
    ensures sessions[n].version == n + 1
    ensures n > 0 ==> sessions[n - 1].excluded <= sessions[n].excluded
    ensures forall c | c in sessions[n].candidates :: c !in sessions[n].excluded
  {
    var prior := Before(sessions, n);
    assert Accepted(shop, turns, sessions, n);
    if n > 0 {
      ExclusionsAt(shop, turns, sessions, n - 1);
    }
    ExclusionsGrow(if prior.Some? then prior.value.excluded else [], NewlyExcluded(prior, turns[n].exclusion, turns[n].now));
  }

  lemma {:induction false} ExclusionsNeverShrink(
    shop: Shop, turns: seq<Turn>, sessions: seq<Session>, i: nat, n: nat
  )
    requires IsHistory(shop, turns, sessions) && i <= n < |turns|
    ensures sessions[i].excluded <= sessions[n].excluded
  {
    if i < n {
      ExclusionsAt(shop, turns, sessions, n);
      ExclusionsNeverShrink(shop, turns, sessions, i, n - 1);
    }
  }

  /** Over every history the exclusion list keeps its order, never repeats a code and only grows at its
      end; a code once excluded is never shown again; and the version counts the turns. */
  lemma ExclusionsArePermanent(
    shop: Shop, turns: seq<Turn>, sessions: seq<Session>, i: nat, n: nat
  )
    requires IsHistory(shop, turns, sessions) && i <= n < |turns|
    ensures NoRepeats(sessions[n].excluded) && sessions[n].version == n + 1
    ensures sessions[i].excluded <= sessions[n].excluded
    ensures forall c | c in sessions[i].excluded :: c !in sessions[n].candidates
  {
    ExclusionsAt(shop, turns, sessions, n);
    ExclusionsNeverShrink(shop, turns, sessions, i, n);
  }

  /** What an exclusion ordinal does to a live candidate list: the SKU shown at that position, and only
      it, joins the exclusions. */
  lemma ExclusionNamesShownCandidate(shop: Shop, prior: Session, t: Turn)
    requires NextSession(shop, Some(prior), t).Ok? && NoRepeats(prior.excluded)
    requires forall c | c in prior.candidates :: c !in prior.excluded
    ensures var s := NextSession(shop, Some(prior), t).value;
            s.excluded == prior.excluded +
              match t.exclusion
              case None => []
              case Some(i) =>
                if 1 <= i <= |prior.candidates| && (prior.expiresAt.None? || t.now < prior.expiresAt.value)
                then [prior.candidates[i - 1]] else []
  {
    ExclusionsGrow(prior.excluded, NewlyExcluded(Some(prior), t.exclusion, t.now));
  }

  // ---------- rejected turns ----------

  /** A new upper limit below the remembered lower limit, without clearing the budget, is not resolved
      in favour of the newer statement: the turn is rejected. */
  lemma LoweredMaximumIsRejected(shop: Shop, prior: Session, t: Turn)
    requires t.merges && "__budget__" !in t.cleared
    requires t.request.budgetMin.None? && t.request.budgetMax.Some? && t.request.budgetMax.value > 0.0
    requires prior.budgetMin.Some? && prior.budgetMin.value > t.request.budgetMax.value
    ensures NextSession(shop, Some(prior), t) == Err(BudgetRangeInverted)
  {
  }

  predicate Positive(a: Option<real>) { a.Some? ==> a.value > 0.0 }

  /** The request and state schemas admit only positive amounts. */
  predicate AmountsArePositive(prior: Option<Session>, t: Turn) {
    && Positive(t.request.budgetMin) && Positive(t.request.budgetMax)
    && Positive(Inherited(prior, t).budgetMin) && Positive(Inherited(prior, t).budgetMax)
  }

  /** In general a turn is rejected for its budget exactly when the merged limits are inverted. */
  lemma BudgetRejection(shop: Shop, prior: Option<Session>, t: Turn)
    requires AmountsArePositive(prior, t)
    ensures var low := Carry(Amount(Inherited(prior, t).budgetMin), MinMention(t));
            var high := Carry(Amount(Inherited(prior, t).budgetMax), MaxMention(t));
            (NextSession(shop, prior, t) == Err(BudgetRangeInverted))
              == (low.Some? && high.Some? && low.value > high.value)
  {
  }
}

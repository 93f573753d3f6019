/** What one turn of the shopping session leaves behind, in terms of the message, the context and the catalog:
    which earlier statement wins, which SKUs are ranked and shown, and when the turn is accepted. */
module SessionTurn {
  import opened Sequences
  import opened Text
  import opened ShoppingSession

  // ---------- earlier prose ----------

  function IsProse(): ContextItem -> bool { (item: ContextItem) => item.prose }
  function ContentOf(): ContextItem -> string { (item: ContextItem) => item.content }

  /** Older prose is the content of exactly the prose items, in order. */
  lemma {:induction false} ProseMessagesAre(context: seq<ContextItem>)
    ensures ProseMessages(context) == Map(Filter(context, IsProse()), ContentOf())
    decreases |context|
  {
    if context != [] {
      var front, last := context[..|context| - 1], context[|context| - 1];
      var picked := if last.prose then [last] else [];
      ProseMessagesAre(front);
      assert context == front + [last];
      FilterAppend(front, last, IsProse());
      MapConcat(Filter(front, IsProse()), picked, ContentOf());
      MapOne(last, ContentOf());
    }
  }

  lemma {:induction false} ParsedInOrder(shop: Shop, category: string, messages: seq<string>)
    ensures var parsed := ParseAll(shop, category, messages);
            |parsed| == |messages| && forall i | 0 <= i < |messages| :: parsed[i] == shop.parse(messages[i], category)
    decreases |messages|
  {
    if messages != [] {
      ParsedInOrder(shop, category, messages[..|messages| - 1]);
    }
  }

  /** The value that the last of several statements gives, if one of them gives any. */
  ghost predicate IsLastSaid<V>(said: seq<Option<V>>, result: Option<V>) {
    match result
    case None => forall i | 0 <= i < |said| :: said[i].None?
    case Some(v) => exists i | 0 <= i < |said| :: said[i] == Some(v) && forall j | i < j < |said| :: said[j].None?
  }

  lemma OneMoreSaid<V>(said: seq<Option<V>>, before: Option<V>, last: Option<V>)
    requires IsLastSaid(said, before)
    ensures IsLastSaid(said + [last], if last.Some? then last else before)
  {
    var all := said + [last];
    if last.Some? {
      assert all[|said|] == last;
    } else if before.Some? {
      var i :| 0 <= i < |said| && said[i] == before && forall j | i < j < |said| :: said[j].None?;
      assert all[i] == before && forall j | i < j < |all| :: all[j].None?;
    }
  }

  /** What each earlier statement says about an attribute. */
  function SaidOf(prose: seq<Request>, k: string): (said: seq<Option<Constraint>>)
    ensures |said| == |prose|
    ensures forall i | 0 <= i < |prose| :: said[i] == if k in prose[i].attributes then Some(prose[i].attributes[k]) else None
  {
    seq(|prose|, i requires 0 <= i < |prose| => if k in prose[i].attributes then Some(prose[i].attributes[k]) else None)
  }

  /** An amount that was given; zero counts as none, as an empty currency does. */
  function SaidMaxima(prose: seq<Request>): (said: seq<Option<real>>)
    ensures |said| == |prose|
    ensures forall i | 0 <= i < |prose| :: said[i] == if prose[i].budgetMax == Some(0.0) then None else prose[i].budgetMax
  {
    seq(|prose|, i requires 0 <= i < |prose| => if prose[i].budgetMax == Some(0.0) then None else prose[i].budgetMax)
  }

  function SaidMinima(prose: seq<Request>): (said: seq<Option<real>>)
    ensures |said| == |prose|
    ensures forall i | 0 <= i < |prose| :: said[i] == if prose[i].budgetMin == Some(0.0) then None else prose[i].budgetMin
  {
    seq(|prose|, i requires 0 <= i < |prose| => if prose[i].budgetMin == Some(0.0) then None else prose[i].budgetMin)
  }

  function SaidCurrencies(prose: seq<Request>): (said: seq<Option<string>>)
    ensures |said| == |prose|
    ensures forall i | 0 <= i < |prose| :: said[i] == if prose[i].currency == Some("") then None else prose[i].currency
  {
    seq(|prose|, i requires 0 <= i < |prose| => if prose[i].currency == Some("") then None else prose[i].currency)
  }

  lemma LastOfAll<V>(all: seq<Option<V>>, before: Option<V>)
    requires all != [] && IsLastSaid(all[..|all| - 1], before)
    ensures var last := all[|all| - 1]; IsLastSaid(all, if last.Some? then last else before)
  {
    OneMoreSaid(all[..|all| - 1], before, all[|all| - 1]);
    assert all[..|all| - 1] + [all[|all| - 1]] == all;
  }

  lemma {:induction false} LastAttributeWins(prose: seq<Request>, k: string)
    ensures var r := FoldProse(prose).attributes; IsLastSaid(SaidOf(prose, k), if k in r then Some(r[k]) else None)
    decreases |prose|
  {
    if prose != [] {
      var front := prose[..|prose| - 1];
      var r := FoldProse(front).attributes;
      LastAttributeWins(front, k);
      assert SaidOf(prose, k)[..|prose| - 1] == SaidOf(front, k);
      LastOfAll(SaidOf(prose, k), if k in r then Some(r[k]) else None);
    }
  }

  lemma {:induction false} LastMaximumWins(prose: seq<Request>)
    ensures IsLastSaid(SaidMaxima(prose), FoldProse(prose).budgetMax)
    decreases |prose|
  {
    if prose != [] {
      var front := prose[..|prose| - 1];
      LastMaximumWins(front);
      assert SaidMaxima(prose)[..|prose| - 1] == SaidMaxima(front);
      LastOfAll(SaidMaxima(prose), FoldProse(front).budgetMax);
    }
  }

  lemma {:induction false} LastMinimumWins(prose: seq<Request>)
    ensures IsLastSaid(SaidMinima(prose), FoldProse(prose).budgetMin)
    decreases |prose|
  {
    if prose != [] {
      var front := prose[..|prose| - 1];
      LastMinimumWins(front);
      assert SaidMinima(prose)[..|prose| - 1] == SaidMinima(front);
      LastOfAll(SaidMinima(prose), FoldProse(front).budgetMin);
    }
  }

  lemma {:induction false} LastCurrencyWins(prose: seq<Request>)
    ensures IsLastSaid(SaidCurrencies(prose), FoldProse(prose).currency)
    decreases |prose|
  {
    if prose != [] {
      var front := prose[..|prose| - 1];
      LastCurrencyWins(front);
      assert SaidCurrencies(prose)[..|prose| - 1] == SaidCurrencies(front);
      LastOfAll(SaidCurrencies(prose), FoldProse(front).currency);
    }
  }

  /** Without a state, the last earlier message that names an attribute, a limit or a currency decides it. */
  lemma LaterProseWins(prose: seq<Request>, k: string)
    ensures var r := FoldProse(prose);
            && IsLastSaid(SaidOf(prose, k), if k in r.attributes then Some(r.attributes[k]) else None)
            && IsLastSaid(SaidMaxima(prose), r.budgetMax) && IsLastSaid(SaidMinima(prose), r.budgetMin)
            && IsLastSaid(SaidCurrencies(prose), r.currency)
  {
    LastAttributeWins(prose, k);
    LastMaximumWins(prose);
    LastMinimumWins(prose);
    LastCurrencyWins(prose);
  }

  // ---------- ranking ----------

  function CodeNotIn(codes: seq<string>): Sku -> bool { (s: Sku) => s.code !in codes }
  function IdIn(ids: seq<int>): Sku -> bool { (s: Sku) => s.id in ids }
  function CodeOf(): Sku -> string { (s: Sku) => s.code }

  lemma {:induction false} WithoutIs(skus: seq<Sku>, codes: seq<string>)
    ensures Without(skus, codes) == Filter(skus, CodeNotIn(codes))
    decreases |skus|
  {
    if skus != [] {
      WithoutIs(skus[1..], codes);
    }
  }

  lemma {:induction false} ChosenAre(skus: seq<Sku>, ids: seq<int>)
    ensures ChosenCodes(skus, ids) == Map(Filter(skus, IdIn(ids)), CodeOf())
    decreases |skus|
  {
    if skus != [] {
      var picked := if skus[0].id in ids then [skus[0]] else [];
      ChosenAre(skus[1..], ids);
      FilterCons(skus, IdIn(ids));
      MapConcat(picked, Filter(skus[1..], IdIn(ids)), CodeOf());
      MapOne(skus[0], CodeOf());
    }
  }

  /** s is what ranking for a request leaves: the codes of the SKUs chosen of the catalog without the excluded
      ones, in catalog order, and a list that is live for half an hour if anything was chosen. */
  predicate RankedFor(shop: Shop, prior: Option<Session>, turn: Turn, request: Request, s: Session) {
    var pool := Filter(turn.catalog, CodeNotIn(s.excluded));
    var ids := shop.recommend(pool, request, turn.message);
    && s.version == (match prior case None => 1 case Some(p) => p.version + 1) && s.category == turn.category
    && s.budgetMin == request.budgetMin && s.budgetMax == request.budgetMax && s.currency == request.currency
    && s.attributes == request.attributes
    && s.candidates == Map(Filter(pool, IdIn(ids)), CodeOf())
    && s.expiresAt == if ids == [] then None else Some(turn.now + 1800)
  }

  lemma RankLeaves(shop: Shop, prior: Option<Session>, turn: Turn, request: Request, excluded: seq<string>)
    ensures var r := Rank(shop, prior, turn, request, excluded);
            r.Ok? ==> r.value.excluded == excluded && RankedFor(shop, prior, turn, request, r.value)
  {
    WithoutIs(turn.catalog, excluded);
    var pool := Without(turn.catalog, excluded);
    ChosenAre(pool, shop.recommend(pool, request, turn.message));
  }

  /** An accepted turn leaves a session ranked for the merged request. */
  lemma TurnLeaves(shop: Shop, prior: Option<Session>, turn: Turn)
    ensures var r := NextSession(shop, prior, turn);
            r.Ok? ==> RankedFor(shop, prior, turn, MergedRequest(prior, turn), r.value)
  {
    RankLeaves(shop, prior, turn, MergedRequest(prior, turn), Excluded(prior, turn.exclusion, turn.now));
  }

  /** A turn is accepted exactly when its merged limits are not inverted, at most three SKUs are shown and at
      most twenty are excluded; otherwise the first of these that fails is the error. */
  lemma AcceptedExactly(shop: Shop, prior: Option<Session>, turn: Turn, pool: seq<Sku>, shown: seq<string>, excluded: seq<string>)
    requires excluded == Excluded(prior, turn.exclusion, turn.now) && pool == Filter(turn.catalog, CodeNotIn(excluded))
    requires shown == Map(Filter(pool, IdIn(shop.recommend(pool, MergedRequest(prior, turn), turn.message))), CodeOf())
    ensures var request, r := MergedRequest(prior, turn), NextSession(shop, prior, turn);
            if request.budgetMin.Some? && request.budgetMax.Some? && request.budgetMin.value > request.budgetMax.value
            then r == Err(BudgetRangeInverted)
            else if |shown| > 3 then r == Err(TooManyCandidates)
            else if |excluded| > 20 then r == Err(TooManyExclusions)
            else r.Ok? && r.value.candidates == shown && r.value.excluded == excluded
  {
    WithoutIs(turn.catalog, excluded);
    ChosenAre(pool, shop.recommend(pool, MergedRequest(prior, turn), turn.message));
  }

  function ParsedBy(shop: Shop, category: string): string -> Request { (m: string) => shop.parse(m, category) }

  /** A turn is read from the message, in the category asked for, and from the older prose in order. */
  lemma TurnRead(shop: Shop, input: Input, context: seq<ContextItem>)
    ensures var t := ReadTurn(shop, input, context);
            && t.message == input.message && t.category == input.category && t.request == shop.parse(input.message, input.category)
            && t.cleared == shop.cleared(input.message) && t.exclusion == shop.exclusion(input.message)
            && t.preferences == input.preferences && t.catalog == input.catalog && t.now == input.now
            && t.merges == MergesContext(shop, input, context)
            && t.prose == Map(Map(Filter(context, IsProse()), ContentOf()), ParsedBy(shop, input.category))
  {
    ProseMessagesAre(context);
    ParsedInOrder(shop, input.category, ProseMessages(context));
  }
}

/** The multi-turn shopping session: how one turn of deterministic_ranking_node merges the current
    request with the persisted state, explicit clears and stored preferences. */
module ShoppingSession {
  import opened Text

  type Constraint = string

  datatype Source = FromUser | FromPreference | FromInheritance | FromSystem

  datatype Session = Session(
    version: nat, category: string,
    budgetMin: Option<real>, budgetMax: Option<real>, currency: Option<string>,
    attributes: map<string, Constraint>, sources: map<string, Source>,
    candidates: seq<string>, excluded: seq<string>, expiresAt: Option<int>
  )

  datatype Request = Request(
    budgetMin: Option<real>, budgetMax: Option<real>, currency: Option<string>, attributes: map<string, Constraint>
  )

  datatype Sku = Sku(id: int, code: string)

  /** Text understanding and ranking, which the session only calls: parse reads a message for a
      category, cleared names the fields it removes, exclusion the ordinal it excludes, classify the
      category it mentions, and recommend ranks a pool of SKUs and returns the chosen SKU ids. */
  datatype Shop = Shop(
    parse: (string, string) -> Request, cleared: string -> set<string>, exclusion: string -> Option<int>,
    classify: string -> Option<string>, recommend: (seq<Sku>, Request, string) -> seq<int>
  )

  const BUDGET_FIELD := "__budget__"
  const CANDIDATE_TTL_SECONDS := 1800
  const MAX_CANDIDATES := 3
  const MAX_EXCLUDED := 20

  // ---------- context ----------

  /** A persisted recommendation_state: its category, and the state it validates as, if it does. */
  datatype RawState = RawState(category: Option<string>, validated: Option<Session>)

  /** prose marks user messages and conversation summaries. */
  datatype ContextItem = ContextItem(content: string, prose: bool, state: Option<RawState>)

  datatype Input = Input(
    message: string, category: string, categoryInherited: bool,
    preferences: map<string, Constraint>, catalog: seq<Sku>, now: int
  )

  /** The most recent valid state of the category. */
  function LatestSessionState(context: seq<ContextItem>, category: string): Option<Session> {
    if context == [] then None
    else
      var item := context[|context| - 1];
      if item.state.Some? && item.state.value.category == Some(category) && item.state.value.validated.Some?
      then item.state.value.validated
      else LatestSessionState(context[..|context| - 1], category)
  }

  /** The most recent category of the thread, from a state or from prose. */
  function ContextCategory(shop: Shop, context: seq<ContextItem>): Option<string> {
    if context == [] then None
    else
      var item := context[|context| - 1];
      var named := if item.state.Some? then item.state.value.category.GetOr("") else "";
      var mentioned := if item.prose then shop.classify(item.content).GetOr("") else "";
      if named != "" then Some(named)
      else if mentioned != "" then Some(mentioned)
      else ContextCategory(shop, context[..|context| - 1])
  }

  function ProseMessages(context: seq<ContextItem>): seq<string> {
    if context == [] then []
    else
      var item := context[|context| - 1];
      ProseMessages(context[..|context| - 1]) + if item.prose then [item.content] else []
  }

  predicate HasStructuredContext(context: seq<ContextItem>) {
    exists i | 0 <= i < |context| :: context[i].state.Some?
  }

  predicate MergesContext(shop: Shop, input: Input, context: seq<ContextItem>) {
    && (ProseMessages(context) != [] || HasStructuredContext(context))
    && (input.categoryInherited || ContextCategory(shop, context) in {None, Some(input.category)})
  }

  function ParseAll(shop: Shop, category: string, messages: seq<string>): seq<Request> {
    if messages == [] then []
    else ParseAll(shop, category, messages[..|messages| - 1]) + [shop.parse(messages[|messages| - 1], category)]
  }

  // ---------- one turn ----------

  /** Everything a turn brings to the session: prose is used only while no state exists yet. */
  datatype Turn = Turn(
    message: string, category: string, request: Request, cleared: set<string>, exclusion: Option<int>,
    merges: bool, prose: seq<Request>, preferences: map<string, Constraint>, catalog: seq<Sku>, now: int
  )

  function ReadTurn(shop: Shop, input: Input, context: seq<ContextItem>): Turn {
    Turn(input.message, input.category, shop.parse(input.message, input.category), shop.cleared(input.message),
         shop.exclusion(input.message), MergesContext(shop, input, context),
         ParseAll(shop, input.category, ProseMessages(context)), input.preferences, input.catalog, input.now)
  }

  /** Python's `or` on an optional amount: zero counts as absent. */
  function OrAmount(a: Option<real>, b: Option<real>): Option<real> {
    if a.Some? && a.value != 0.0 then a else b
  }

  function OrText(a: Option<string>, b: Option<string>): Option<string> {
    if a.Some? && a.value != "" then a else b
  }

  /** The request that older prose messages amount to, later ones winning. */
  function FoldProse(prose: seq<Request>): Request {
    if prose == [] then Request(None, None, None, map[])
    else
      var before, last := FoldProse(prose[..|prose| - 1]), prose[|prose| - 1];
      Request(OrAmount(last.budgetMin, before.budgetMin), OrAmount(last.budgetMax, before.budgetMax),
              OrText(last.currency, before.currency), before.attributes + last.attributes)
  }

  function Inherited(prior: Option<Session>, turn: Turn): Request {
    match prior
    case Some(s) => Request(s.budgetMin, s.budgetMax, s.currency, s.attributes)
    case None => FoldProse(turn.prose)
  }

  function MergedRequest(prior: Option<Session>, turn: Turn): Request {
    var merged :=
      if !turn.merges then turn.request
      else
        var carried := Inherited(prior, turn);
        var kept := if BUDGET_FIELD in turn.cleared then Request(None, None, None, carried.attributes) else carried;
        Request(OrAmount(turn.request.budgetMin, kept.budgetMin), OrAmount(turn.request.budgetMax, kept.budgetMax),
                OrText(turn.request.currency, kept.currency), (kept.attributes - turn.cleared) + turn.request.attributes);
    merged.(attributes := (turn.preferences - turn.cleared) + merged.attributes)
  }

  function MergedSources(
    carried: map<string, Source>, preferences: map<string, Constraint>, named: map<string, Constraint>, kept: set<string>
  ): map<string, Source> {
    var offered := map k | k in preferences && k !in named :: FromPreference;
    var all := carried + offered + (map k | k in named :: FromUser);
    map k | k in all && k in kept :: all[k]
  }

  function Sources(prior: Option<Session>): map<string, Source> {
    if prior.Some? then prior.value.sources else map[]
  }

  predicate CandidatesAreCurrent(s: Session, now: int) {
    s.expiresAt.None? || s.expiresAt.value > now
  }

  function NewlyExcluded(prior: Option<Session>, ordinal: Option<int>, now: int): seq<string> {
    if prior.Some? && ordinal.Some? && CandidatesAreCurrent(prior.value, now)
       && 1 <= ordinal.value <= |prior.value.candidates|
    then [prior.value.candidates[ordinal.value - 1]]
    else []
  }

  /** dict.fromkeys: first occurrences, in order. */
  function Distinct(codes: seq<string>): (r: seq<string>)
    ensures forall c :: c in r <==> c in codes
    ensures forall i, j | 0 <= i < j < |r| :: r[i] != r[j]
  {
    if codes == [] then []
    else
      var front, last := Distinct(codes[..|codes| - 1]), codes[|codes| - 1];
      assert codes == codes[..|codes| - 1] + [last];
      if last in front then front else front + [last]
  }

  function Excluded(prior: Option<Session>, ordinal: Option<int>, now: int): seq<string> {
    Distinct((if prior.Some? then prior.value.excluded else []) + NewlyExcluded(prior, ordinal, now))
  }

  function Without(skus: seq<Sku>, codes: seq<string>): (r: seq<Sku>)
    ensures forall s | s in r :: s in skus && s.code !in codes
  {
    if skus == [] then []
    else (if skus[0].code in codes then [] else [skus[0]]) + Without(skus[1..], codes)
  }

  function ChosenCodes(skus: seq<Sku>, ids: seq<int>): (r: seq<string>)
    ensures forall c | c in r :: exists s | s in skus :: s.code == c && s.id in ids
  {
    if skus == [] then []
    else
      var rest := ChosenCodes(skus[1..], ids);
      if skus[0].id in ids then [skus[0].code] + rest else rest
  }

  datatype RankingError = BudgetRangeInverted | TooManyCandidates | TooManyExclusions

  /** ShoppingSessionState's validation. */
  function Validated(s: Session): Result<Session, RankingError> {
    if s.budgetMin.Some? && s.budgetMax.Some? && s.budgetMin.value > s.budgetMax.value then Err(BudgetRangeInverted)
    else if |s.candidates| > MAX_CANDIDATES then Err(TooManyCandidates)
    else if |s.excluded| > MAX_EXCLUDED then Err(TooManyExclusions)
    else Ok(s)
  }

  /** Ranks what the exclusions leave of the catalog and assembles the state to persist. */
  function Rank(shop: Shop, prior: Option<Session>, turn: Turn, request: Request, excluded: seq<string>)
    : Result<Session, RankingError>
  {
    var pool := Without(turn.catalog, excluded);
    var chosen := shop.recommend(pool, request, turn.message);
    Validated(Session(
      if prior.Some? then prior.value.version + 1 else 1, turn.category,
      request.budgetMin, request.budgetMax, request.currency, request.attributes,
      MergedSources(Sources(prior), turn.preferences, turn.request.attributes, request.attributes.Keys),
      ChosenCodes(pool, chosen), excluded,
      if chosen != [] then Some(turn.now + CANDIDATE_TTL_SECONDS) else None))
  }

  function NextSession(shop: Shop, prior: Option<Session>, turn: Turn): Result<Session, RankingError> {
    Rank(shop, prior, turn, MergedRequest(prior, turn), Excluded(prior, turn.exclusion, turn.now))
  }

  // ---------- what is found in the context ----------

  /** Item i holds a valid state of the category. */
  predicate HoldsState(context: seq<ContextItem>, category: string, i: nat) {
    && i < |context| && context[i].state.Some? && context[i].state.value.category == Some(category)
    && context[i].state.value.validated.Some?
  }

  /** The state of item i, which is the last item holding a valid one of the category. */
  predicate IsLatestState(context: seq<ContextItem>, category: string, i: nat, s: Session) {
    && HoldsState(context, category, i) && context[i].state.value.validated == Some(s)
    && forall j | i < j < |context| :: !HoldsState(context, category, j)
  }

  predicate NoState(context: seq<ContextItem>, category: string) {
    forall i | 0 <= i < |context| :: !HoldsState(context, category, i)
  }

  lemma LatestStateOneMore(context: seq<ContextItem>, category: string, i: nat, s: Session)
    requires context != []
    ensures var n: nat, front := |context| - 1, context[..|context| - 1];
            IsLatestState(context, category, i, s) <==>
            || (i == n && HoldsState(context, category, n) && context[n].state.value.validated == Some(s))
            || (!HoldsState(context, category, n) && IsLatestState(front, category, i, s))
  {
    var n: nat, front := |context| - 1, context[..|context| - 1];
    assert forall j: nat | j < n :: HoldsState(front, category, j) == HoldsState(context, category, j);
  }

  lemma {:induction false} LatestStateIs(context: seq<ContextItem>, category: string)
    ensures var r := LatestSessionState(context, category);
            if r.None? then NoState(context, category) else exists i: nat :: IsLatestState(context, category, i, r.value)
    decreases |context|
  {
    if context != [] {
      var n: nat, front := |context| - 1, context[..|context| - 1];
      var r := LatestSessionState(context, category);
      if HoldsState(context, category, n) {
        LatestStateOneMore(context, category, n, r.value);
      } else {
        LatestStateIs(front, category);
        if r.Some? {
          var i: nat :| IsLatestState(front, category, i, r.value);
          LatestStateOneMore(context, category, i, r.value);
        } else {
          assert forall i: nat | i < n :: HoldsState(front, category, i) == HoldsState(context, category, i);
        }
      }
    }
  }

  /** The latest state is found if and only if some item holds a valid state of the category and no later
      item does; None exactly when no item holds one. */
  lemma LatestStateExactly(context: seq<ContextItem>, category: string, s: Session)
    ensures LatestSessionState(context, category) == Some(s) <==> exists i: nat :: IsLatestState(context, category, i, s)
    ensures LatestSessionState(context, category) == None <==> NoState(context, category)
  {
    LatestStateIs(context, category);
    if i: nat :| IsLatestState(context, category, i, s) {
      var found := LatestSessionState(context, category);
      assert HoldsState(context, category, i);
      var j: nat :| IsLatestState(context, category, j, found.value);
      assert i == j;
    }
  }

  /** Item i names a category: the one of its state, or else the one its prose is about. */
  predicate Names(shop: Shop, item: ContextItem, category: string) {
    && category != ""
    && if item.state.Some? && item.state.value.category.Some? && item.state.value.category != Some("")
       then item.state.value.category == Some(category)
       else item.prose && shop.classify(item.content) == Some(category)
  }

  predicate NamesNone(shop: Shop, item: ContextItem) {
    && !(item.state.Some? && item.state.value.category.Some? && item.state.value.category != Some(""))
    && !(item.prose && shop.classify(item.content).Some? && shop.classify(item.content) != Some(""))
  }

  /** The category of the thread is the one the last item that names any category names. */
  lemma {:induction false} ContextCategoryIs(shop: Shop, context: seq<ContextItem>)
    ensures match ContextCategory(shop, context)
            case None => forall i | 0 <= i < |context| :: NamesNone(shop, context[i])
            case Some(category) =>
              exists i | 0 <= i < |context| ::
                Names(shop, context[i], category) && forall j | i < j < |context| :: NamesNone(shop, context[j])
    decreases |context|
  {
    if context != [] {
      var n: nat, front := |context| - 1, context[..|context| - 1];
      if NamesNone(shop, context[n]) {
        ContextCategoryIs(shop, front);
        match ContextCategory(shop, front)
        case None =>
        case Some(category) =>
          var i :| 0 <= i < |front| && Names(shop, front[i], category) && forall j | i < j < |front| :: NamesNone(shop, front[j]);
          assert Names(shop, context[i], category);
          assert forall j | i < j < |context| :: NamesNone(shop, context[j]);
      } else {
        assert Names(shop, context[n], ContextCategory(shop, context).value);
      }
    }
  }

  lemma {:induction false} ProseIs(context: seq<ContextItem>)
    ensures ProseMessages(context) == [] <==> forall i | 0 <= i < |context| :: !context[i].prose
    decreases |context|
  {
    if context != [] {
      var n: nat := |context| - 1;
      ProseIs(context[..n]);
    }
  }

  /** A turn builds on what came before exactly when there is prose or a state to build on, and the user
      asked for the thread's own category: inherited, or the last one named, or none was ever named. */
  lemma MergesExactly(shop: Shop, input: Input, context: seq<ContextItem>)
    ensures MergesContext(shop, input, context) <==>
            && (exists i | 0 <= i < |context| :: context[i].prose || context[i].state.Some?)
            && (|| input.categoryInherited
                || (forall i | 0 <= i < |context| :: NamesNone(shop, context[i]))
                || exists i | 0 <= i < |context| ::
                     Names(shop, context[i], input.category) && forall j | i < j < |context| :: NamesNone(shop, context[j]))
  {
    ProseIs(context);
    ContextCategoryIs(shop, context);
    var found := ContextCategory(shop, context);
    if i :| 0 <= i < |context| && Names(shop, context[i], input.category) && forall j | i < j < |context| :: NamesNone(shop, context[j]) {
      assert !NamesNone(shop, context[i]);
      var k :| 0 <= k < |context| && Names(shop, context[k], found.value) && forall j | k < j < |context| :: NamesNone(shop, context[j]);
      assert !NamesNone(shop, context[k]);
      assert i == k;
    }
  }

  // ---------- the node as it runs ----------

  method FindLatestSessionState(context: seq<ContextItem>, category: string) returns (latest: Option<Session>)
    ensures latest == LatestSessionState(context, category)
    ensures forall s :: latest == Some(s) <==> exists i: nat :: IsLatestState(context, category, i, s)
    ensures latest == None <==> NoState(context, category)
  {
    forall s
      ensures LatestSessionState(context, category) == Some(s) <==> exists i: nat :: IsLatestState(context, category, i, s)
      ensures LatestSessionState(context, category) == None <==> NoState(context, category)
    {
      LatestStateExactly(context, category, s);
    }
    var n := |context|;
    assert context[..n] == context;
    while n > 0
      invariant 0 <= n <= |context|
      invariant LatestSessionState(context, category) == LatestSessionState(context[..n], category)
    {
      n := n - 1;
      assert context[..n + 1][..n] == context[..n];
      var raw := context[n].state;
      if raw.Some? && raw.value.category == Some(category) && raw.value.validated.Some? {
        return raw.value.validated;
      }
    }
    return None;
  }

  method MergeProse(shop: Shop, category: string, messages: seq<string>) returns (inherited: Request)
    ensures inherited == FoldProse(ParseAll(shop, category, messages))
  {
    inherited := Request(None, None, None, map[]);
    for i := 0 to |messages|
      invariant inherited == FoldProse(ParseAll(shop, category, messages[..i]))
    {
      assert messages[..i + 1][..i] == messages[..i];
      var earlier := shop.parse(messages[i], category);
      ghost var parsed := ParseAll(shop, category, messages[..i]) + [earlier];
      assert parsed[..|parsed| - 1] == ParseAll(shop, category, messages[..i]);
      inherited := Request(
        OrAmount(earlier.budgetMin, inherited.budgetMin), OrAmount(earlier.budgetMax, inherited.budgetMax),
        OrText(earlier.currency, inherited.currency), inherited.attributes + earlier.attributes);
    }
    assert messages[..|messages|] == messages;
  }

  method DropCleared(attributes: map<string, Constraint>, cleared: set<string>) returns (kept: map<string, Constraint>)
    ensures kept == attributes - cleared
  {
    kept := attributes;
    var remaining := cleared;
    while remaining != {}
      invariant remaining <= cleared
      invariant kept == attributes - (cleared - remaining)
      decreases remaining
    {
      var key :| key in remaining;
      kept := kept - {key};
      remaining := remaining - {key};
    }
  }

  /** The first half of the node: current request, inherited context, clears, then preferences. */
  method MergeRequest(shop: Shop, input: Input, context: seq<ContextItem>, prior: Option<Session>)
    returns (request: Request)
    ensures request == MergedRequest(prior, ReadTurn(shop, input, context))
  {
    request := shop.parse(input.message, input.category);
    var cleared := shop.cleared(input.message);
    if MergesContext(shop, input, context) {
      var inherited: Request;
      if prior.Some? {
        inherited := Request(prior.value.budgetMin, prior.value.budgetMax, prior.value.currency, prior.value.attributes);
      } else {
        inherited := MergeProse(shop, input.category, ProseMessages(context));
      }
      var merged := DropCleared(inherited.attributes, cleared);
      merged := merged + request.attributes;
      if BUDGET_FIELD in cleared {
        inherited := inherited.(budgetMin := None, budgetMax := None, currency := None);
      }
      request := Request(
        OrAmount(request.budgetMin, inherited.budgetMin), OrAmount(request.budgetMax, inherited.budgetMax),
        OrText(request.currency, inherited.currency), merged);
    }
    if input.preferences != map[] {
      request := request.(attributes := (input.preferences - cleared) + request.attributes);
    } else {
      assert (input.preferences - cleared) + request.attributes == request.attributes;
    }
  }

  /** The second half's first step: the exclusion list with the SKU an ordinal names, if it names one. */
  method MergeExclusions(prior: Option<Session>, ordinal: Option<int>, now: int) returns (excluded: seq<string>)
    ensures excluded == Excluded(prior, ordinal, now)
  {
    var newlyExcluded := [];
    if prior.Some? && CandidatesAreCurrent(prior.value, now) && ordinal.Some? {
      var index := ordinal.value - 1;
      if 0 <= index < |prior.value.candidates| {
        newlyExcluded := newlyExcluded + [prior.value.candidates[index]];
      }
    }
    return Distinct((if prior.Some? then prior.value.excluded else []) + newlyExcluded);
  }

  method DeterministicRanking(shop: Shop, input: Input, context: seq<ContextItem>)
    returns (r: Result<Session, RankingError>)
    ensures r == NextSession(shop, LatestSessionState(context, input.category), ReadTurn(shop, input, context))
    ensures forall i: nat, s | IsLatestState(context, input.category, i, s) && r.Ok? :: r.value.version == s.version + 1
    ensures NoState(context, input.category) && r.Ok? ==> r.value.version == 1
    ensures r.Ok? ==> r.value.category == input.category
  {
    var prior := FindLatestSessionState(context, input.category);
    var request := MergeRequest(shop, input, context, prior);
    var excluded := MergeExclusions(prior, shop.exclusion(input.message), input.now);
    var turn := ReadTurn(shop, input, context);
    return Rank(shop, prior, turn, request, excluded);
  }
}

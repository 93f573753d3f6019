/** Persisting session states of one thread when several runs work on it at once. Each run reads some
    state the thread has had, ranks its turn from it, checks versions against a later read, and writes
    with a compare-and-swap. Whatever the interleaving, the writes form one history of turns. */
module SessionStore {
  import opened Text
  import opened ShoppingSession
  import opened SessionHistory

  /** How a turn is ranked from a state; ShopRanker is the shop's way. */
  type Ranker = (Option<Session>, Turn) -> Result<Session, RankingError>

  function ShopRanker(shop: Shop): Ranker {
    (prior, turn) => NextSession(shop, prior, turn)
  }

  ghost predicate CountsTurns(next: Ranker) {
    forall prior, turn ::
      next(prior, turn).Ok? ==>
        next(prior, turn).value.version == VersionOf(prior) + 1 && next(prior, turn).value.category == turn.category
  }

  lemma RankCountsTurn(shop: Shop, prior: Option<Session>, turn: Turn, request: Request, excluded: seq<string>)
    ensures var r := Rank(shop, prior, turn, request, excluded);
            r.Ok? ==> r.value.version == VersionOf(prior) + 1 && r.value.category == turn.category
  {
  }

  lemma ShopRankerCountsTurns(shop: Shop)
    ensures CountsTurns(ShopRanker(shop))
  {
    forall prior, turn
      ensures var r := ShopRanker(shop)(prior, turn);
              r.Ok? ==> r.value.version == VersionOf(prior) + 1 && r.value.category == turn.category
    {
      RankCountsTurn(shop, prior, turn, MergedRequest(prior, turn), Excluded(prior, turn.exclusion, turn.now));
    }
  }

  datatype StoreError = VersionStale | VersionConflict

  function VersionOf(s: Option<Session>): nat {
    if s.Some? then s.value.version else 0
  }

  /** The version checks before writing; Ok(false) is a repeated write of the stored state itself. */
  function CheckVersion(stored: Option<Session>, s: Session): Result<bool, StoreError> {
    if s.version == VersionOf(stored) then if stored == Some(s) then Ok(false) else Err(VersionStale)
    else if s.version != VersionOf(stored) + 1 then Err(VersionConflict)
    else Ok(true)
  }

  datatype Worker =
    | Ranked(snapshot: Option<Session>, turn: Turn, result: Session)
    | Checked(seen: Option<Session>, snapshot: Option<Session>, turn: Turn, result: Session)

  /** turns and sessions record every write so far, in order. */
  datatype Thread = Thread(
    stored: Option<Session>, workers: map<nat, Worker>, turns: seq<Turn>, sessions: seq<Session>
  )

  const EMPTY := Thread(None, map[], [], [])

  /** Read ranks a turn from the state with the given version, which may be out of date by then. */
  datatype Event = Read(w: nat, version: nat, turn: Turn) | Check(w: nat) | Write(w: nat)

  function ApplyRead(next: Ranker, th: Thread, w: nat, version: nat, turn: Turn): Thread {
    if version > |th.sessions| then th
    else
      var snapshot := Before(th.sessions, version);
      if snapshot.Some? && snapshot.value.category != turn.category then th
      else
        var ranked := next(snapshot, turn);
        if ranked.Err? then th
        else th.(workers := th.workers[w := Ranked(snapshot, turn, ranked.value)])
  }

  function ApplyCheck(th: Thread, w: nat): Thread {
    if w !in th.workers || !th.workers[w].Ranked? then th
    else
      var Ranked(snapshot, turn, result) := th.workers[w];
      if CheckVersion(th.stored, result) == Ok(true)
      then th.(workers := th.workers[w := Checked(th.stored, snapshot, turn, result)])
      else th.(workers := th.workers - {w})
  }

  function ApplyWrite(th: Thread, w: nat): Thread {
    if w !in th.workers || !th.workers[w].Checked? then th
    else
      var Checked(seen, _, turn, result) := th.workers[w];
      var done := th.(workers := th.workers - {w});
      if th.stored == seen
      then done.(stored := Some(result), turns := th.turns + [turn], sessions := th.sessions + [result])
      else done
  }

  function Apply(next: Ranker, th: Thread, e: Event): Thread {
    match e
    case Read(w, version, turn) => ApplyRead(next, th, w, version, turn)
    case Check(w) => ApplyCheck(th, w)
    case Write(w) => ApplyWrite(th, w)
  }

  function Run(next: Ranker, events: seq<Event>): Thread {
    if events == [] then EMPTY else Apply(next, Run(next, events[..|events| - 1]), events[|events| - 1])
  }

  /** The version checks: one past the stored version is to be written, the stored state itself is a repeated write,
      another state of that version is stale, and any other version conflicts. */
  lemma VersionChecksAre(stored: Option<Session>, s: Session, last: nat)
    requires last == if stored == None then 0 else stored.value.version
    ensures CheckVersion(stored, s) == Ok(true) <==> s.version == last + 1
    ensures CheckVersion(stored, s) == Ok(false) <==> stored == Some(s)
    ensures CheckVersion(stored, s) == Err(VersionStale) <==> s.version == last && stored != Some(s)
    ensures CheckVersion(stored, s) == Err(VersionConflict) <==> s.version < last || s.version > last + 1
  {
  }

  /** A run starts from any state the thread has had, or from none, if that is of the turn's category and the turn can
      be ranked from it; it is the only run that changes. */
  lemma ReadIs(next: Ranker, th: Thread, w: nat, version: nat, turn: Turn, snapshot: Option<Session>)
    requires version <= |th.sessions| && snapshot == if version == 0 then None else Some(th.sessions[version - 1])
    ensures var after := Apply(next, th, Read(w, version, turn));
            if (snapshot == None || snapshot.value.category == turn.category) && next(snapshot, turn).Ok? then
              after == th.(workers := th.workers[w := Ranked(snapshot, turn, next(snapshot, turn).value)])
            else after == th
    ensures forall later: nat | later > |th.sessions| :: Apply(next, th, Read(w, later, turn)) == th
  {
  }

  /** A ranked run goes on from its check only if its state is one version past the stored one; a checked run writes
      only if the stored state is still the one of its check. */
  lemma CheckAndWriteAre(next: Ranker, th: Thread, w: nat, last: nat)
    requires w in th.workers && last == if th.stored == None then 0 else th.stored.value.version
    ensures match th.workers[w]
            case Ranked(snapshot, turn, result) =>
              && Apply(next, th, Write(w)) == th
              && Apply(next, th, Check(w)) == th.(workers :=
                   if result.version == last + 1 then th.workers[w := Checked(th.stored, snapshot, turn, result)]
                   else th.workers - {w})
            case Checked(seen, _, turn, result) =>
              && Apply(next, th, Check(w)) == th
              && Apply(next, th, Write(w)) ==
                   if th.stored == seen then
                     Thread(Some(result), th.workers - {w}, th.turns + [turn], th.sessions + [result])
                   else th.(workers := th.workers - {w})
  {
  }

  // ---------- what every interleaving keeps ----------

  ghost predicate WasStored(sessions: seq<Session>, s: Option<Session>) {
    s.Some? ==> s.value in sessions
  }

  ghost predicate IsChained(next: Ranker, turns: seq<Turn>, sessions: seq<Session>) {
    && |turns| == |sessions|
    && forall i | 0 <= i < |turns| :: IsStep(next, turns, sessions, i)
  }

  ghost predicate IsStep(next: Ranker, turns: seq<Turn>, sessions: seq<Session>, i: nat)
    requires i < |turns| == |sessions|
  {
    next(Before(sessions, i), turns[i]) == Ok(sessions[i])
  }

  ghost predicate WorkerOk(next: Ranker, sessions: seq<Session>, w: Worker) {
    && WasStored(sessions, w.snapshot)
    && (w.snapshot.Some? ==> w.snapshot.value.category == w.turn.category)
    && next(w.snapshot, w.turn) == Ok(w.result)
    && (w.Checked? ==> w.result.version == VersionOf(w.seen) + 1)
  }

  ghost predicate Inv(next: Ranker, th: Thread) {
    && IsChained(next, th.turns, th.sessions)
    && th.stored == Before(th.sessions, |th.sessions|)
    && (forall i | 0 <= i < |th.sessions| :: th.sessions[i].version == i + 1)
    && (forall i | 0 <= i < |th.sessions| :: th.sessions[i].category == th.sessions[0].category)
    && forall w | w in th.workers :: WorkerOk(next, th.sessions, th.workers[w])
  }

  /** A version identifies the stored state: whoever ranked from it ranked from the latest one. */
  lemma SameVersionSameState(next: Ranker, th: Thread, s: Option<Session>)
    requires CountsTurns(next) && Inv(next, th) && WasStored(th.sessions, s) && VersionOf(s) == VersionOf(th.stored)
    ensures s == th.stored
  {
    if s.Some? {
      var i :| 0 <= i < |th.sessions| && th.sessions[i] == s.value;
    }
  }

  lemma WriteKeepsHistory(next: Ranker, th: Thread, turn: Turn, result: Session)
    requires CountsTurns(next) && Inv(next, th) && next(th.stored, turn) == Ok(result)
    requires th.stored.Some? ==> th.stored.value.category == turn.category
    ensures IsChained(next, th.turns + [turn], th.sessions + [result])
    ensures var after := th.sessions + [result];
            forall i | 0 <= i < |after| :: after[i].version == i + 1 && after[i].category == after[0].category
  {
    var turns, sessions := th.turns + [turn], th.sessions + [result];
    forall i | 0 <= i < |turns| ensures IsStep(next, turns, sessions, i) {
      assert Before(sessions, i) == Before(th.sessions, i);
      assert i < |th.turns| ==> IsStep(next, th.turns, th.sessions, i);
    }
  }

  lemma WriteStep(next: Ranker, th: Thread, w: nat)
    requires CountsTurns(next) && Inv(next, th)
    ensures Inv(next, Apply(next, th, Write(w)))
  {
    var after := Apply(next, th, Write(w));
    if w in th.workers && th.workers[w].Checked? && th.stored == th.workers[w].seen {
      var worker := th.workers[w];
      assert WorkerOk(next, th.sessions, worker);
      SameVersionSameState(next, th, worker.snapshot);
      WriteKeepsHistory(next, th, worker.turn, worker.result);
    }
    forall v | v in after.workers ensures WorkerOk(next, after.sessions, after.workers[v]) {
      assert WorkerOk(next, th.sessions, th.workers[v]);
    }
  }

  lemma StepKeepsInv(next: Ranker, th: Thread, e: Event)
    requires CountsTurns(next) && Inv(next, th)
    ensures Inv(next, Apply(next, th, e))
  {
    if e.Write? {
      WriteStep(next, th, e.w);
    } else {
      var after := Apply(next, th, e);
      forall v | v in after.workers ensures WorkerOk(next, after.sessions, after.workers[v]) {
        if v in th.workers {
          assert WorkerOk(next, th.sessions, th.workers[v]);
        }
      }
    }
  }

  /** For every interleaving of runs on one thread: the states written are a history of turns, each
      ranked from the state written just before it, versions count up by one and the category never
      changes. No write is lost and none is based on a stale state. */
  lemma {:induction false} EveryRunIsAHistory(next: Ranker, events: seq<Event>)
    requires CountsTurns(next)
    ensures Inv(next, Run(next, events))
  {
    if events != [] {
      EveryRunIsAHistory(next, events[..|events| - 1]);
      StepKeepsInv(next, Run(next, events[..|events| - 1]), events[|events| - 1]);
    }
  }

  lemma WrittenTurnsAreHistory(shop: Shop, events: seq<Event>)
    ensures var th := Run(ShopRanker(shop), events);
            && IsHistory(shop, th.turns, th.sessions)
            && th.stored == Before(th.sessions, |th.sessions|)
            && VersionOf(th.stored) == |th.turns|
  {
    ShopRankerCountsTurns(shop);
    EveryRunIsAHistory(ShopRanker(shop), events);
    var th := Run(ShopRanker(shop), events);
    ChainedIsHistory(shop, th.turns, th.sessions);
  }

  lemma LastIsReplay(shop: Shop, turns: seq<Turn>, sessions: seq<Session>, last: Session, k: string)
    requires IsHistory(shop, turns, sessions) && turns != [] && sessions[|turns| - 1] == last
    ensures Get(last.attributes, k) == ClosedForm(Get(Legacy(turns).attributes, k), AttributeMentions(turns, k))
    ensures Get(last.sources, k) == ClosedForm(None, LabelMentions(turns, k))
  {
    StoredAttributeIsReplay(shop, turns, sessions, k);
    StoredLabelIsReplay(shop, turns, sessions, k);
  }

  /** So whatever is stored under concurrency is the closed-form replay of the written turns. */
  lemma StoredStateIsReplay(shop: Shop, events: seq<Event>, th: Thread, k: string)
    requires th == Run(ShopRanker(shop), events) && th.stored.Some?
    ensures Get(th.stored.value.attributes, k) == ClosedForm(Get(Legacy(th.turns).attributes, k), AttributeMentions(th.turns, k))
    ensures Get(th.stored.value.sources, k) == ClosedForm(None, LabelMentions(th.turns, k))
    ensures th.stored.value.version == |th.turns|
  {
    WrittenTurnsAreHistory(shop, events);
    LastIsReplay(shop, th.turns, th.sessions, th.stored.value, k);
  }

  lemma ChainedIsHistory(shop: Shop, turns: seq<Turn>, sessions: seq<Session>)
    requires IsChained(ShopRanker(shop), turns, sessions)
    ensures IsHistory(shop, turns, sessions)
  {
    forall i | 0 <= i < |turns| ensures Accepted(shop, turns, sessions, i) {
      assert IsStep(ShopRanker(shop), turns, sessions, i);
    }
  }

  /** A run that ranked from the stored state is refused only if another write came in between: checked
      and written without interruption, it commits. */
  lemma UninterruptedRunCommits(next: Ranker, th: Thread, w: nat)
    requires CountsTurns(next) && Inv(next, th) && w in th.workers && th.workers[w].Ranked? && th.workers[w].snapshot == th.stored
    ensures var worker, after := th.workers[w], Apply(next, Apply(next, th, Check(w)), Write(w));
            after.stored == Some(worker.result) && after.turns == th.turns + [worker.turn]
  {
    assert WorkerOk(next, th.sessions, th.workers[w]);
  }

  /** A turn ranked without the stored state, which is what a change of category amounts to, is refused. */
  lemma OutdatedRunIsRefused(next: Ranker, th: Thread, w: nat)
    requires CountsTurns(next) && Inv(next, th) && w in th.workers && th.workers[w].Ranked? && th.workers[w].snapshot != th.stored
    ensures var after := Apply(next, th, Check(w));
            after.stored == th.stored && after.sessions == th.sessions && w !in after.workers
  {
    var worker := th.workers[w];
    assert WorkerOk(next, th.sessions, worker);
    if VersionOf(worker.snapshot) == VersionOf(th.stored) {
      SameVersionSameState(next, th, worker.snapshot);
    }
  }
}

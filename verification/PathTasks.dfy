/** What the specialists are asked on either path of a reading, and what the dispatcher leaves of their
    answers: executed routes, tool calls, summaries, flags, evidence, usage and trace, written out. */
module PathTasks {
  import opened Sequences
  import opened Text
  import Planning
  import opened ReadPipeline
  import opened PlanExecutor
  import opened PipelineRefinement
  import opened PathEquivalence

  /** The message of the current turn: the last one, or nothing before the first. */
  predicate IsCurrent(messages: seq<string>, m: string) {
    m == if messages == [] then "" else messages[|messages| - 1]
  }

  /** What a parallel step asks: a focus that is a text and not empty replaces the message for the product and the
      document specialist only. */
  function Asked(step: Planning.Step, m: string): string {
    if (step.recipient == "product_agent" || step.recipient == "rag_agent") && "query_focus" in step.metadata then
      match step.metadata["query_focus"]
      case Str(focus) => if |focus| > 0 then focus else m
      case _ => m
    else m
  }

  /** The answers of the steps' specialists, each to its own question. */
  predicate AreAnswers(work: Work, r: Request, c: seq<Planning.Step>, questions: seq<string>, effects: seq<Effect>) {
    && |c| == |questions| == |effects|
    && forall i | 0 <= i < |c| ::
         effects[i] == work(Task(c[i].recipient, Some(c[i].stepId), questions[i], r.userId, r.threadId))
  }

  function SummaryName(route: string): string {
    match route
    case "product_agent" => "product_summary"
    case "rag_agent" => "rag_summary"
    case _ => "preference_summary"
  }

  predicate AreRoutes(executed: seq<string>, c: seq<Planning.Step>) {
    |executed| == |c| && forall i | 0 <= i < |c| :: executed[i] == c[i].recipient
  }

  /** Each step leaves its summary under its specialist's name; nothing else changes. */
  ghost predicate AreSummaries(before: map<string, string>, after: map<string, string>, c: seq<Planning.Step>, effects: seq<Effect>)
    requires |c| == |effects|
  {
    && (forall i | 0 <= i < |c| ::
          SummaryName(c[i].recipient) in after && after[SummaryName(c[i].recipient)] == effects[i].summary)
    && forall key | forall i | 0 <= i < |c| :: SummaryName(c[i].recipient) != key ::
         if key in before then key in after && after[key] == before[key] else key !in after
  }

  function ToolsIn(e: Effect): seq<string> { e.tools }

  function UsageIn(e: Effect): seq<Usage> { [e.usage] }

  // ---------- the contributions of given effects ----------

  ghost predicate AreEffects(work: Work, r: Request, c: seq<Planning.Step>, effects: seq<Effect>) {
    && |effects| == |c|
    && forall i | 0 <= i < |c| ::
         c[i].recipient in SUMMARY_KEYS && effects[i] == EffectOf(work, r, c[i])
  }

  lemma QuestionIs(step: Planning.Step, r: Request, m: string)
    requires IsCurrent(r.messages, m) && step.recipient in SUMMARY_KEYS
    ensures Query(step.recipient, step.metadata, r) == Asked(step, m)
  {
  }

  lemma {:induction false} ListsAre(work: Work, r: Request, c: seq<Planning.Step>, effects: seq<Effect>)
    requires AreEffects(work, r, c, effects)
    ensures Tools(work, r, c) == Flat(effects, ToolsIn) && UsagesOf(work, r, c) == Flat(effects, UsageIn)
    decreases |c|
  {
    if c != [] {
      var n: nat := |c| - 1;
      ListsAre(work, r, c[..n], effects[..n]);
    }
  }

  lemma NameIs(route: string)
    requires route in SUMMARY_KEYS
    ensures SUMMARY_KEYS[route] == SummaryName(route)
  {
  }

  lemma NamesDiffer(a: string, b: string)
    requires a in SUMMARY_KEYS && b in SUMMARY_KEYS && a != b
    ensures SummaryName(a) != SummaryName(b)
  {
  }

  lemma FrontEffects(work: Work, r: Request, c: seq<Planning.Step>, effects: seq<Effect>)
    requires AreEffects(work, r, c, effects) && c != []
    ensures AreEffects(work, r, c[..|c| - 1], effects[..|c| - 1])
  {
  }

  lemma LastNameIsNew(c: seq<Planning.Step>)
    requires c != [] && Planning.Distinct(Planning.Recipients(c))
    requires forall i | 0 <= i < |c| :: c[i].recipient in SUMMARY_KEYS
    ensures forall i | 0 <= i < |c| - 1 :: SummaryName(c[i].recipient) != SummaryName(c[|c| - 1].recipient)
  {
    var rs := Planning.Recipients(c);
    forall i | 0 <= i < |c| - 1 ensures SummaryName(c[i].recipient) != SummaryName(c[|c| - 1].recipient) {
      assert rs[i] != rs[|c| - 1];
      NamesDiffer(c[i].recipient, c[|c| - 1].recipient);
    }
  }

  lemma SummariesGrow(work: Work, r: Request, c: seq<Planning.Step>, before: map<string, string>)
    requires c != [] && c[|c| - 1].recipient in SUMMARY_KEYS
    ensures var front, last := c[..|c| - 1], c[|c| - 1];
            before + Summaries(work, r, c)
            == (before + Summaries(work, r, front)) + map[SummaryName(last.recipient) := EffectOf(work, r, last).summary]
  {
    var front, last := c[..|c| - 1], c[|c| - 1];
    NameIs(last.recipient);
    RegroupMaps(before, Summaries(work, r, front), map[SummaryName(last.recipient) := EffectOf(work, r, last).summary]);
  }

  lemma {:induction false} SummariesAre(
    work: Work, r: Request, c: seq<Planning.Step>, effects: seq<Effect>, before: map<string, string>
  )
    requires AreEffects(work, r, c, effects) && Planning.Distinct(Planning.Recipients(c))
    ensures AreSummaries(before, before + Summaries(work, r, c), c, effects)
    decreases |c|
  {
    if c != [] {
      var n: nat := |c| - 1;
      DistinctFront(c);
      FrontEffects(work, r, c, effects);
      SummariesAre(work, r, c[..n], effects[..n], before);
      LastNameIsNew(c);
      SummariesGrow(work, r, c, before);
      OneSummary(before, before + Summaries(work, r, c[..n]), before + Summaries(work, r, c), c, effects);
    }
  }

  lemma OneSummary(
    before: map<string, string>, middle: map<string, string>, after: map<string, string>,
    c: seq<Planning.Step>, effects: seq<Effect>
  )
    requires |c| == |effects| > 0
    requires var n := |c| - 1;
             && AreSummaries(before, middle, c[..n], effects[..n])
             && after == middle + map[SummaryName(c[n].recipient) := effects[n].summary]
             && forall i | 0 <= i < n :: SummaryName(c[i].recipient) != SummaryName(c[n].recipient)
    ensures AreSummaries(before, after, c, effects)
  {
    var n := |c| - 1;
    forall key | forall i | 0 <= i < |c| :: SummaryName(c[i].recipient) != key
      ensures if key in before then key in after && after[key] == before[key] else key !in after
    {
      assert forall i | 0 <= i < n :: SummaryName(c[..n][i].recipient) != key;
    }
    forall i | 0 <= i < n
      ensures SummaryName(c[i].recipient) in after && after[SummaryName(c[i].recipient)] == effects[i].summary
    {
      assert c[..n][i] == c[i] && effects[..n][i] == effects[i];
    }
  }

  /** What the document specialist leaves, if it is among the steps. */
  lemma {:induction false} DocumentsLeave(work: Work, r: Request, c: seq<Planning.Step>, effects: seq<Effect>)
    requires AreEffects(work, r, c, effects) && Planning.Distinct(Planning.Recipients(c))
    ensures forall i | 0 <= i < |c| && c[i].recipient == "rag_agent" ::
              Flags(work, r, c) == effects[i].flags && LastEvidence(work, r, c, None) == Some(effects[i].evidence)
    ensures (forall i | 0 <= i < |c| :: c[i].recipient != "rag_agent") ==>
              Flags(work, r, c) == [] && LastEvidence(work, r, c, None) == None
    decreases |c|
  {
    if c != [] {
      var n: nat := |c| - 1;
      DistinctFront(c);
      FrontEffects(work, r, c, effects);
      DocumentsLeave(work, r, c[..n], effects[..n]);
      LastLeaves(work, r, c, effects);
      forall i | 0 <= i < n ensures c[i] == c[..n][i] && c[i].recipient != c[n].recipient {
        assert c[..n][i] in c[..n];
      }
    }
  }

  lemma LastLeaves(work: Work, r: Request, c: seq<Planning.Step>, effects: seq<Effect>)
    requires AreEffects(work, r, c, effects) && c != []
    ensures var n := |c| - 1;
            && Flags(work, r, c) == Flags(work, r, c[..n]) + (if c[n].recipient == "rag_agent" then effects[n].flags else [])
            && LastEvidence(work, r, c, None)
               == if c[n].recipient == "rag_agent" then Some(effects[n].evidence) else LastEvidence(work, r, c[..n], None)
  {
  }

  // ---------- the dispatcher ----------

  lemma BareEffects(work: Work, r: Request, c: seq<Planning.Step>, m: string, effects: seq<Effect>)
    requires IsCurrent(r.messages, m) && AreAnswers(work, r, c, seq(|c|, _ => m), effects)
    requires forall i | 0 <= i < |c| :: c[i].recipient in SUMMARY_KEYS
    ensures AreEffects(work, r, Bare(c), effects)
  {
    forall i | 0 <= i < |c| ensures effects[i] == EffectOf(work, r, Bare(c)[i]) {
      QuestionIs(Bare(c)[i], r, m);
    }
  }

  /** What the answers leave of a state. */
  ghost predicate Left(s: GraphState, t: GraphState, c: seq<Planning.Step>, effects: seq<Effect>)
    requires |c| == |effects|
  {
    && AreRoutes(t.executed, c)
    && t.toolCalls == Flat(effects, ToolsIn) && t.usage == Flat(effects, UsageIn)
    && AreSummaries(s.summaries, t.summaries, c, effects)
    && (forall i | 0 <= i < |c| && c[i].recipient == "rag_agent" ::
          t.safetyFlags == s.safetyFlags + effects[i].flags && t.evidence == Some(effects[i].evidence))
    && ((forall i | 0 <= i < |c| :: c[i].recipient != "rag_agent") ==>
          t.safetyFlags == s.safetyFlags && t.evidence == None)
  }

  lemma ExecutedLeave(work: Work, s: GraphState, t: GraphState, c: seq<Planning.Step>, effects: seq<Effect>)
    requires HasExecuted(work, s, t, c) && BeforeReading(s)
    requires AreEffects(work, s.request, c, effects) && Planning.Distinct(Planning.Recipients(c))
    ensures Left(s, t, c, effects)
  {
    var r := s.request;
    ListsAre(work, r, c, effects);
    SummariesAre(work, r, c, effects, s.summaries);
    DocumentsLeave(work, r, c, effects);
    assert [] + Flat(effects, ToolsIn) == Flat(effects, ToolsIn) && [] + Flat(effects, UsageIn) == Flat(effects, UsageIn);
    ConcatNothing(s.safetyFlags);
  }

  lemma LeftByBare(s: GraphState, t: GraphState, c: seq<Planning.Step>, effects: seq<Effect>)
    requires |c| == |effects| && Left(s, t, Bare(c), effects)
    ensures Left(s, t, c, effects)
  {
    assert forall i | 0 <= i < |c| :: Bare(c)[i].recipient == c[i].recipient;
    SameNames(s.summaries, t.summaries, c, effects);
  }

  /** The dispatcher executes the steps of its routes in order and asks each specialist the last message, whatever
      focus the plan has. The answers' tool calls and usage follow those before; each summary is left under its
      specialist's key; only the document specialist adds flags and evidence. */
  lemma DispatcherAsksTheMessage(
    work: Work, s: GraphState, plan: Planning.Plan, c: seq<Planning.Step>, m: string, effects: seq<Effect>
  )
    requires Executable(plan, c) && BeforeReading(s) && s.routes == Planning.Recipients(c)
    requires IsCurrent(s.request.messages, m) && AreAnswers(work, s.request, c, seq(|c|, _ => m), effects)
    ensures Left(s, DispatchLoop(work, plan, s), c, effects)
  {
    var t := SequentialRead(work, s, plan, c);
    assert s == s.(routes := Planning.Recipients(c));
    SequentialReadInClosedForm(work, s, plan, c);
    BareEffects(work, s.request, c, m, effects);
    assert Planning.Recipients(Bare(c)) == Planning.Recipients(c);
    ExecutedLeave(work, s, t, Bare(c), effects);
    LeftByBare(s, t, c, effects);
  }

  lemma SameNames(before: map<string, string>, after: map<string, string>, c: seq<Planning.Step>, effects: seq<Effect>)
    requires |c| == |effects| && AreSummaries(before, after, Bare(c), effects)
    ensures AreSummaries(before, after, c, effects)
  {
    assert forall i | 0 <= i < |c| :: Bare(c)[i].recipient == c[i].recipient;
    forall key | forall i | 0 <= i < |c| :: SummaryName(c[i].recipient) != key
      ensures if key in before then key in after && after[key] == before[key] else key !in after
    {
      assert forall i | 0 <= i < |c| :: SummaryName(Bare(c)[i].recipient) != key;
    }
  }

  // ---------- the dispatcher's trace ----------

  predicate IsSelection(item: TraceItem, position: nat, route: string, before: seq<string>) {
    item == Entry(map["index" := Num(position), "node" := Txt("route_dispatcher"), "event" := Txt("selected_route"),
                      "selected_route" := Txt(route), "executed_routes" := Txts(before)])
  }

  /** A specialist's record: its details cannot replace its position, node and event. */
  predicate IsRecord(item: TraceItem, position: nat, route: string, effect: Effect) {
    && item.Entry? && item.fields.Keys == {"index", "node", "event"} + effect.detail.Keys
    && item.fields["index"] == Num(position) && item.fields["node"] == Txt(route) && item.fields["event"] == Txt(effect.event)
    && forall key | key in effect.detail && key !in {"index", "node", "event"} :: item.fields[key] == effect.detail[key]
  }

  predicate IsClosing(item: TraceItem, position: nat, executed: seq<string>) {
    item == Entry(map["index" := Num(position), "node" := Txt("route_dispatcher"),
                      "event" := Txt("selected_decision_agent"), "executed_routes" := Txts(executed)])
  }

  lemma SelectionIs(trace: seq<TraceItem>, route: string, executed: seq<string>)
    ensures var after := AppendAgentStep(trace, "route_dispatcher", "selected_route",
                           map["selected_route" := Txt(route), "executed_routes" := Txts(executed)]);
            |after| == |trace| + 1 && after[..|trace|] == trace && IsSelection(after[|trace|], |trace| + 1, route, executed)
  {
  }

  lemma ClosingIs(trace: seq<TraceItem>, executed: seq<string>)
    ensures var after := AppendAgentStep(trace, "route_dispatcher", "selected_decision_agent",
                           map["executed_routes" := Txts(executed)]);
            |after| == |trace| + 1 && after[..|trace|] == trace && IsClosing(after[|trace|], |trace| + 1, executed)
  {
  }

  lemma RecordIs(trace: seq<TraceItem>, route: string, effect: Effect)
    ensures var after := AppendAgentStep(trace, route, effect.event, effect.detail);
            |after| == |trace| + 1 && after[..|trace|] == trace && IsRecord(after[|trace|], |trace| + 1, route, effect)
  {
  }

  /** The records from position n on: a selection and a specialist's record for each step from the k-th. */
  ghost predicate IsLog(trace: seq<TraceItem>, n: nat, routes: seq<string>, effects: seq<Effect>, k: nat)
    requires |routes| == |effects|
  {
    && |trace| == n + 2 * |routes| + 1
    && (forall i | k <= i < |routes| ::
          && IsSelection(trace[n + 2 * i], n + 2 * i + 1, routes[i], routes[..i])
          && IsRecord(trace[n + 2 * i + 1], n + 2 * i + 2, routes[i], effects[i]))
    && IsClosing(trace[n + 2 * |routes|], n + 2 * |routes| + 1, routes)
  }

  /** A state of the loop before its k-th round. */
  ghost predicate BeforeRound(s: GraphState, t: GraphState, routes: seq<string>, k: nat) {
    && k <= |routes| && t.routes == routes && t.executed == routes[..k] && t.stepMetadata == map[]
    && t.request == s.request && |t.trace| == |s.trace| + 2 * k
  }

  ghost predicate RoundLogged(t: GraphState, next: GraphState, routes: seq<string>, effects: seq<Effect>, k: nat)
    requires k < |routes| == |effects|
  {
    var n := |t.trace|;
    && |next.trace| == n + 2 && next.trace[..n] == t.trace
    && IsSelection(next.trace[n], n + 1, routes[k], routes[..k])
    && IsRecord(next.trace[n + 1], n + 2, routes[k], effects[k])
  }

  lemma RoundLogs(t: GraphState, step: Planning.Step, selected: seq<TraceItem>, routes: seq<string>, effects: seq<Effect>, k: nat)
    requires k < |routes| == |effects| && t.executed == routes[..k]
    requires step.recipient == routes[k] && step.recipient in SUMMARY_KEYS
    requires selected == AppendAgentStep(t.trace, "route_dispatcher", "selected_route",
               map["selected_route" := Txt(routes[k]), "executed_routes" := Txts(t.executed)])
    ensures RoundLogged(t, AfterRound(t, step, effects[k], selected), routes, effects, k)
  {
    var next := AfterRound(t, step, effects[k], selected);
    SelectionIs(t.trace, routes[k], t.executed);
    RecordIs(selected, step.recipient, effects[k]);
    assert next.trace[..|t.trace|] == selected[..|t.trace|];
    assert next.trace[|t.trace|] == selected[|t.trace|];
  }

  lemma NextRoundIs(
    work: Work, plan: Planning.Plan, s: GraphState, t: GraphState, c: seq<Planning.Step>, effects: seq<Effect>, k: nat
  ) returns (next: GraphState)
    requires Executable(plan, c) && k < |c| && BeforeRound(s, t, Planning.Recipients(c), k)
    requires AreEffects(work, s.request, Bare(c), effects)
    ensures DispatchLoop(work, plan, t) == DispatchLoop(work, plan, next)
    ensures BeforeRound(s, next, Planning.Recipients(c), k + 1)
    ensures RoundLogged(t, next, Planning.Recipients(c), effects, k)
  {
    var routes, step := Planning.Recipients(c), Bare(c)[k];
    assert routes[0..] == routes;
    FirstUnexecutedAfter(routes, k, 0);
    var trace := Dispatch(plan, t).trace;
    LoopUnfolds(work, plan, t, step.recipient, step.stepId);
    RoundPatch(work, t, step, trace);
    next := AfterRound(t, step, effects[k], trace);
    RoundLogs(t, step, trace, routes, effects, k);
    TakeOneMore(routes, k);
  }

  lemma LoopCloses(work: Work, plan: Planning.Plan, t: GraphState)
    requires t.executed == t.routes
    ensures var after := DispatchLoop(work, plan, t);
            && |after.trace| == |t.trace| + 1 && after.trace[..|t.trace|] == t.trace
            && IsClosing(after.trace[|t.trace|], |t.trace| + 1, t.routes)
  {
    assert FirstUnexecuted(t.routes, t.executed).None?;
    assert DispatchLoop(work, plan, t) == Dispatch(plan, t);
    ClosingIs(t.trace, t.executed);
  }

  lemma LogExtends(
    trace: seq<TraceItem>, n: nat, t: GraphState, next: GraphState, routes: seq<string>, effects: seq<Effect>, k: nat
  )
    requires |routes| == |effects| && k < |routes| && IsLog(trace, n, routes, effects, k + 1)
    requires |t.trace| == n + 2 * k && RoundLogged(t, next, routes, effects, k)
    requires next.trace <= trace
    ensures IsLog(trace, n, routes, effects, k) && t.trace <= trace
  {
    assert trace[n + 2 * k] == next.trace[n + 2 * k] && trace[n + 2 * k + 1] == next.trace[n + 2 * k + 1];
    assert trace[..n + 2 * k] == next.trace[..n + 2 * k];
  }

  /** The records of a trace after those of a state's. */
  ghost predicate Logged(s: GraphState, t: GraphState, trace: seq<TraceItem>, c: seq<Planning.Step>, effects: seq<Effect>, k: nat)
    requires |c| == |effects|
  {
    IsLog(trace, |s.trace|, Planning.Recipients(c), effects, k) && t.trace <= trace
  }

  lemma NothingLeft(
    work: Work, plan: Planning.Plan, s: GraphState, t: GraphState, c: seq<Planning.Step>, effects: seq<Effect>
  )
    requires |c| == |effects| && BeforeRound(s, t, Planning.Recipients(c), |c|)
    ensures Logged(s, t, DispatchLoop(work, plan, t).trace, c, effects, |c|)
  {
    var routes := Planning.Recipients(c);
    assert routes[..|c|] == routes;
    LoopCloses(work, plan, t);
  }

  lemma {:induction false} LoopLogs(
    work: Work, plan: Planning.Plan, s: GraphState, t: GraphState, c: seq<Planning.Step>, effects: seq<Effect>, k: nat
  )
    requires Executable(plan, c) && BeforeRound(s, t, Planning.Recipients(c), k)
    requires AreEffects(work, s.request, Bare(c), effects)
    ensures Logged(s, t, DispatchLoop(work, plan, t).trace, c, effects, k)
    decreases |c| - k
  {
    if k == |c| {
      NothingLeft(work, plan, s, t, c, effects);
    } else {
      var next := NextRoundIs(work, plan, s, t, c, effects, k);
      var rest: nat := k + 1;
      LoopLogs(work, plan, s, next, c, effects, rest);
      LogExtends(DispatchLoop(work, plan, t).trace, |s.trace|, t, next, Planning.Recipients(c), effects, k);
    }
  }

  /** The dispatcher's trace, record by record: for every step its selection, after the routes executed before it,
      and the record of its specialist's answer, and at the end the hand-over to the decision agent. */
  lemma DispatcherTraceIs(
    work: Work, s: GraphState, plan: Planning.Plan, c: seq<Planning.Step>, m: string, effects: seq<Effect>
  )
    requires Executable(plan, c) && BeforeReading(s) && s.routes == Planning.Recipients(c)
    requires IsCurrent(s.request.messages, m) && AreAnswers(work, s.request, c, seq(|c|, _ => m), effects)
    ensures var trace := DispatchLoop(work, plan, s).trace;
            s.trace <= trace && IsLog(trace, |s.trace|, Planning.Recipients(c), effects, 0)
  {
    BareEffects(work, s.request, c, m, effects);
    assert Planning.Recipients(c)[..0] == [];
    LoopLogs(work, plan, s, s, c, effects, 0);
  }

  // ---------- one selection ----------

  predicate IsFirstLeft(s: GraphState, i: nat) {
    i < |s.routes| && s.routes[i] !in s.executed && forall j | 0 <= j < i :: s.routes[j] in s.executed
  }

  lemma {:induction false} FirstLeftIs(routes: seq<string>, executed: seq<string>, i: nat)
    requires i < |routes| && routes[i] !in executed && forall j | 0 <= j < i :: routes[j] in executed
    ensures FirstUnexecuted(routes, executed) == Some(routes[i])
    decreases |routes|
  {
    if i > 0 {
      FirstLeftIs(routes[1..], executed, i - 1);
    }
  }

  /** The id of the first plan step for the route, if there is one. */
  predicate IsStepIdFor(steps: seq<Planning.Step>, route: string, id: Option<string>) {
    match id
    case None => forall k | 0 <= k < |steps| :: steps[k].recipient != route
    case Some(x) =>
      exists k | 0 <= k < |steps| ::
        steps[k].recipient == route && steps[k].stepId == x && forall j | 0 <= j < k :: steps[j].recipient != route
  }

  lemma {:induction false} StepIdIs(steps: seq<Planning.Step>, route: string)
    ensures IsStepIdFor(steps, route, StepIdFor(steps, route))
    decreases |steps|
  {
    if steps != [] && steps[0].recipient != route {
      var rest := steps[1..];
      StepIdIs(rest, route);
      if StepIdFor(rest, route).Some? {
        var k :| 0 <= k < |rest| && rest[k].recipient == route && rest[k].stepId == StepIdFor(rest, route).value
                 && forall j | 0 <= j < k :: rest[j].recipient != route;
        assert steps[k + 1] == rest[k];
        assert forall j | 0 < j < k + 1 :: steps[j] == rest[j - 1];
      } else {
        assert forall j | 0 < j < |steps| :: steps[j] == rest[j - 1];
      }
    }
  }

  /** From any state: the first route not executed is selected, under the id of its first plan step, with a record
      of the routes executed before it; when none is left, the decision agent is. */
  lemma DispatchIs(plan: Planning.Plan, s: GraphState, i: nat)
    ensures var t := Dispatch(plan, s);
            && t == s.(current := t.current, planStepId := t.planStepId, trace := t.trace)
            && |t.trace| == |s.trace| + 1 && s.trace <= t.trace
            && (IsFirstLeft(s, i) ==>
                  && t.current == Some(s.routes[i]) && IsStepIdFor(plan.steps, s.routes[i], t.planStepId)
                  && IsSelection(t.trace[|s.trace|], |s.trace| + 1, s.routes[i], s.executed))
            && ((forall j | 0 <= j < |s.routes| :: s.routes[j] in s.executed) ==>
                  t.current == None && t.planStepId == None && IsClosing(t.trace[|s.trace|], |s.trace| + 1, s.executed))
  {
    if IsFirstLeft(s, i) {
      FirstLeftIs(s.routes, s.executed, i);
      StepIdIs(plan.steps, s.routes[i]);
      SelectionIs(s.trace, s.routes[i], s.executed);
    }
    ClosingIs(s.trace, s.executed);
  }
}

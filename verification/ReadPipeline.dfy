/** The read pipeline of the multi-agent graph: the specialists as graph nodes, the sequential
    dispatcher loop, the isolated state of a parallel step, and the fan-in of parallel results. */
module ReadPipeline {
  import opened Sequences
  import opened Text
  import Planning

  // ---------- graph state ----------

  datatype Value = Num(n: int) | Txt(s: string) | Txts(items: seq<string>)

  type Record = map<string, Value>

  /** An entry of agent_steps; the fan-in skips entries that are not dictionaries. */
  datatype TraceItem = Entry(fields: Record) | NotADict

  datatype Usage = Usage(
    inputTokens: Option<nat>, outputTokens: Option<nat>, totalTokens: Option<nat>, cost: Option<real>,
    toolCalls: nat, steps: nat
  )

  datatype Reference = Reference(refType: string, refId: string, scope: string, metadata: string)

  /** The request identity and current-turn inputs that every step may see. */
  datatype Request = Request(
    messages: seq<string>, userId: string, threadId: Option<string>, contextItems: seq<string>, intent: Option<string>
  )

  datatype GraphState = GraphState(
    request: Request, routes: seq<string>, executed: seq<string>, current: Option<string>,
    planStepId: Option<string>, stepMetadata: Planning.Metadata, summaries: map<string, string>,
    safetyFlags: seq<string>, toolCalls: seq<string>, trace: seq<TraceItem>, usage: seq<Usage>,
    evidence: Option<seq<Reference>>
  )

  /** append_agent_step: the new record's index is its position. */
  function AppendAgentStep(trace: seq<TraceItem>, node: string, event: string, detail: Record): seq<TraceItem> {
    trace + [Entry(map["index" := Num(|trace| + 1), "node" := Txt(node), "event" := Txt(event)]
                   + (detail - {"index", "node", "event"}))]
  }

  // ---------- specialists ----------

  const SUMMARY_KEYS := map[
    "product_agent" := "product_summary", "rag_agent" := "rag_summary", "preference_agent" := "preference_summary"
  ]

  /** What a local specialist reads of its task. */
  datatype Task = Task(recipient: string, taskId: Option<string>, query: string, userId: string, threadId: Option<string>)

  datatype Effect = Effect(
    summary: string, tools: seq<string>, flags: seq<string>, event: string, detail: Record, usage: Usage,
    evidence: seq<Reference>
  )

  /** The deterministic work of the specialists; only rag_agent's flags and evidence reach the graph. */
  type Work = Task -> Effect

  function LastMessage(request: Request): string {
    if request.messages == [] then "" else request.messages[|request.messages| - 1]
  }

  /** query_override or message; the preference specialist has no override. */
  function Query(recipient: string, metadata: Planning.Metadata, request: Request): string {
    if recipient != "preference_agent" && "query_focus" in metadata
       && metadata["query_focus"].Str? && metadata["query_focus"].s != ""
    then metadata["query_focus"].s
    else LastMessage(request)
  }

  function TaskOf(recipient: string, stepId: Option<string>, metadata: Planning.Metadata, request: Request): Task {
    Task(recipient, stepId, Query(recipient, metadata, request), request.userId, request.threadId)
  }

  /** A specialist node's patch; None marks keys the patch does not contain. */
  datatype StepOutput = StepOutput(
    summaries: map<string, string>, executed: seq<string>, toolCalls: seq<string>,
    safetyFlags: Option<seq<string>>, trace: seq<TraceItem>, usage: seq<Usage>, evidence: Option<seq<Reference>>
  )

  function SpecialistNode(work: Work, route: string, view: GraphState): StepOutput {
    var effect := work(TaskOf(route, view.planStepId, view.stepMetadata, view.request));
    StepOutput(
      if route in SUMMARY_KEYS then map[SUMMARY_KEYS[route] := effect.summary] else map[],
      view.executed + [route], view.toolCalls + effect.tools,
      if route == "rag_agent" then Some(view.safetyFlags + effect.flags) else None,
      AppendAgentStep(view.trace, route, effect.event, effect.detail),
      view.usage + [effect.usage],
      if route == "rag_agent" then Some(effect.evidence) else None)
  }

  /** The graph's state update: keys of the patch replace the state's. */
  function ApplyPatch(s: GraphState, out: StepOutput): GraphState {
    s.(executed := out.executed, current := None, summaries := s.summaries + out.summaries,
       toolCalls := out.toolCalls, trace := out.trace, usage := out.usage,
       safetyFlags := out.safetyFlags.GetOr(s.safetyFlags),
       evidence := if out.evidence.Some? then out.evidence else s.evidence)
  }

  // ---------- the sequential dispatcher ----------

  function FirstUnexecuted(routes: seq<string>, executed: seq<string>): (r: Option<string>)
    ensures r.None? <==> forall x | x in routes :: x in executed
    ensures r.Some? ==> r.value in routes && r.value !in executed
  {
    if routes == [] then None
    else if routes[0] !in executed then Some(routes[0])
    else FirstUnexecuted(routes[1..], executed)
  }

  function StepIdFor(steps: seq<Planning.Step>, route: string): Option<string> {
    if steps == [] then None
    else if steps[0].recipient == route then Some(steps[0].stepId)
    else StepIdFor(steps[1..], route)
  }

  /** route_dispatcher_node; note that it sets plan_step_id but never plan_step_metadata. */
  function Dispatch(plan: Planning.Plan, s: GraphState): GraphState {
    match FirstUnexecuted(s.routes, s.executed)
    case Some(route) =>
      s.(current := Some(route), planStepId := StepIdFor(plan.steps, route),
         trace := AppendAgentStep(s.trace, "route_dispatcher", "selected_route",
                    map["selected_route" := Txt(route), "executed_routes" := Txts(s.executed)]))
    case None =>
      s.(current := None, planStepId := None,
         trace := AppendAgentStep(s.trace, "route_dispatcher", "selected_decision_agent",
                    map["executed_routes" := Txts(s.executed)]))
  }

  ghost function Unexecuted(s: GraphState): set<string> {
    set r | r in s.routes && r !in s.executed
  }

  /** The dispatcher loop: dispatch, run the selected specialist, and again, until none is left. */
  function DispatchLoop(work: Work, plan: Planning.Plan, s: GraphState): GraphState
    decreases Unexecuted(s)
  {
    var selected := Dispatch(plan, s);
    if selected.current.None? then selected
    else
      var route := selected.current.value;
      var next := ApplyPatch(selected, SpecialistNode(work, route, selected));
      assert route in Unexecuted(s) && route !in Unexecuted(next);
      DispatchLoop(work, plan, next)
  }

  method RouteDispatcher(plan: Planning.Plan, s: GraphState) returns (patched: GraphState)
    ensures patched == Dispatch(plan, s)
  {
    for i := 0 to |s.routes|
      invariant FirstUnexecuted(s.routes, s.executed) == FirstUnexecuted(s.routes[i..], s.executed)
    {
      assert s.routes[i..][1..] == s.routes[i + 1..];
      var route := s.routes[i];
      if route !in s.executed {
        return s.(current := Some(route), planStepId := StepIdFor(plan.steps, route),
                  trace := AppendAgentStep(s.trace, "route_dispatcher", "selected_route",
                             map["selected_route" := Txt(route), "executed_routes" := Txts(s.executed)]));
      }
    }
    return s.(current := None, planStepId := None,
              trace := AppendAgentStep(s.trace, "route_dispatcher", "selected_decision_agent",
                         map["executed_routes" := Txts(s.executed)]));
  }

  /** The cycle of graph edges between the dispatcher and the specialists. It ends because every turn
      of it executes a route that was not executed before. */
  method RunDispatcher(work: Work, plan: Planning.Plan, start: GraphState) returns (s: GraphState)
    ensures s == DispatchLoop(work, plan, start)
  {
    ghost var before := start;
    s := RouteDispatcher(plan, start);
    while s.current.Some?
      invariant s == Dispatch(plan, before)
      invariant DispatchLoop(work, plan, before) == DispatchLoop(work, plan, start)
      decreases Unexecuted(before)
    {
      var route := s.current.value;
      var patched := ApplyPatch(s, SpecialistNode(work, route, s));
      assert route in Unexecuted(before) && route !in Unexecuted(patched);
      before := patched;
      s := RouteDispatcher(plan, patched);
    }
  }

  // ---------- isolated parallel steps ----------

  /** build_isolated_step_state: the request, the step, and nothing of the other steps. */
  function IsolatedState(s: GraphState, step: Planning.Step): GraphState {
    GraphState(s.request, [], [], Some(step.recipient), Some(step.stepId), step.metadata, map[],
               s.safetyFlags, [], [], [], None)
  }

  // ---------- fan-in ----------

  datatype StepStatus = Completed | Failed | Cancelled | Skipped

  datatype StepResult = StepResult(
    stepId: string, status: StepStatus, usage: Option<Usage>, attempts: nat, errorCode: Option<string>
  )

  datatype PlanResult = PlanResult(
    planId: string, stepResults: seq<StepResult>, outputs: map<string, StepOutput>, evidence: seq<Reference>
  )

  datatype StatusRow = StatusRow(stepId: string, recipient: string, status: StepStatus, attempts: nat)

  /** The patch merge_parallel_step_results returns; current_route is always None in it. */
  datatype Merged = Merged(
    executed: seq<string>, toolCalls: seq<string>, safetyFlags: seq<string>, trace: seq<TraceItem>,
    summaries: map<string, string>, usage: seq<Usage>, evidence: seq<Reference>, statuses: seq<StatusRow>,
    errorCodes: seq<string>
  )

  datatype MergeError = PlanIdentityMismatch | StepsMismatch | UnknownOutput

  function ResultsById(results: seq<StepResult>): (byId: map<string, StepResult>)
    ensures forall id :: id in byId <==> exists i | 0 <= i < |results| :: results[i].stepId == id
  {
    if results == [] then map[]
    else ResultsById(results[..|results| - 1])[results[|results| - 1].stepId := results[|results| - 1]]
  }

  function StepIds(steps: seq<Planning.Step>): set<string> {
    set s | s in steps :: s.stepId
  }

  function AppendUnique(target: seq<string>, values: seq<string>): seq<string>
    decreases |values|
  {
    if values == [] then target
    else AppendUnique(if values[0] in target then target else target + [values[0]], values[1..])
  }

  function Renumbered(trace: seq<TraceItem>, fields: Record, stepId: string): TraceItem {
    Entry(map["index" := Num(|trace| + 1)] + (fields - {"index"}) + map["plan_step_id" := Txt(stepId)])
  }

  function AppendTrace(trace: seq<TraceItem>, items: seq<TraceItem>, stepId: string): seq<TraceItem>
    decreases |items|
  {
    if items == [] then trace
    else if items[0].NotADict? then AppendTrace(trace, items[1..], stepId)
    else AppendTrace(trace + [Renumbered(trace, items[0].fields, stepId)], items[1..], stepId)
  }

  const NO_OUTPUT := StepOutput(map[], [], [], None, [], [], None)

  /** One completed step's contribution; a completed step without output still counts as executed. */
  function MergeStep(m: Merged, step: Planning.Step, out: StepOutput): Merged {
    var key := if step.recipient in SUMMARY_KEYS then SUMMARY_KEYS[step.recipient] else "";
    m.(summaries := if key in out.summaries then m.summaries[key := out.summaries[key]] else m.summaries,
       executed := m.executed + [step.recipient],
       toolCalls := m.toolCalls + out.toolCalls,
       safetyFlags := AppendUnique(m.safetyFlags, out.safetyFlags.GetOr([])),
       trace := AppendTrace(m.trace, out.trace, step.stepId))
  }

  function MergeSteps(
    m: Merged, steps: seq<Planning.Step>, byId: map<string, StepResult>, outputs: map<string, StepOutput>
  ): Merged
    requires forall s | s in steps :: s.stepId in byId
  {
    if steps == [] then m
    else
      var step := steps[|steps| - 1];
      var before := MergeSteps(m, steps[..|steps| - 1], byId, outputs);
      if byId[step.stepId].status != Completed then before
      else MergeStep(before, step, if step.stepId in outputs then outputs[step.stepId] else NO_OUTPUT)
  }

  function Usages(steps: seq<Planning.Step>, byId: map<string, StepResult>): seq<Usage>
    requires forall s | s in steps :: s.stepId in byId
  {
    if steps == [] then []
    else
      var last := byId[steps[|steps| - 1].stepId].usage;
      Usages(steps[..|steps| - 1], byId) + if last.Some? then [last.value] else []
  }

  function Statuses(steps: seq<Planning.Step>, byId: map<string, StepResult>): seq<StatusRow>
    requires forall s | s in steps :: s.stepId in byId
  {
    seq(|steps|, i requires 0 <= i < |steps| =>
      StatusRow(steps[i].stepId, steps[i].recipient, byId[steps[i].stepId].status, byId[steps[i].stepId].attempts))
  }

  function ErrorCodes(results: seq<StepResult>): seq<string> {
    if results == [] then []
    else
      var last := results[|results| - 1].errorCode;
      ErrorCodes(results[..|results| - 1]) + if last.Some? then [last.value] else []
  }

  function EmptyMerge(s: GraphState, plan: Planning.Plan, result: PlanResult): Merged
    requires forall x | x in plan.steps :: x.stepId in ResultsById(result.stepResults)
  {
    var byId := ResultsById(result.stepResults);
    Merged([], [], s.safetyFlags, s.trace, map[], Usages(plan.steps, byId), result.evidence,
           Statuses(plan.steps, byId), ErrorCodes(result.stepResults))
  }

  function Merge(s: GraphState, plan: Planning.Plan, result: PlanResult): Result<Merged, MergeError> {
    var byId := ResultsById(result.stepResults);
    if result.planId != plan.planId then Err(PlanIdentityMismatch)
    else if byId.Keys != StepIds(plan.steps) then Err(StepsMismatch)
    else if !(result.outputs.Keys <= StepIds(plan.steps)) then Err(UnknownOutput)
    else Ok(MergeSteps(EmptyMerge(s, plan, result), plan.steps, byId, result.outputs))
  }

  method AppendUniqueTo(target: seq<string>, values: seq<string>) returns (r: seq<string>)
    ensures r == AppendUnique(target, values)
  {
    r := target;
    for i := 0 to |values|
      invariant AppendUnique(r, values[i..]) == AppendUnique(target, values)
    {
      assert values[i..][1..] == values[i + 1..];
      if values[i] !in r {
        r := r + [values[i]];
      }
    }
  }

  method AppendTraceTo(trace: seq<TraceItem>, items: seq<TraceItem>, stepId: string) returns (r: seq<TraceItem>)
    ensures r == AppendTrace(trace, items, stepId)
  {
    r := trace;
    for i := 0 to |items|
      invariant AppendTrace(r, items[i..], stepId) == AppendTrace(trace, items, stepId)
    {
      assert items[i..][1..] == items[i + 1..];
      if items[i].Entry? {
        r := r + [Renumbered(r, items[i].fields, stepId)];
      }
    }
  }

  /** The body of the merge loop for a completed step. */
  method MergeCompletedStep(before: Merged, step: Planning.Step, out: StepOutput) returns (m: Merged)
    ensures m == MergeStep(before, step, out)
  {
    m := before;
    var key := if step.recipient in SUMMARY_KEYS then SUMMARY_KEYS[step.recipient] else "";
    if key in out.summaries {
      m := m.(summaries := m.summaries[key := out.summaries[key]]);
    }
    m := m.(executed := m.executed + [step.recipient]);
    m := m.(toolCalls := m.toolCalls + out.toolCalls);
    var flags := AppendUniqueTo(m.safetyFlags, out.safetyFlags.GetOr([]));
    m := m.(safetyFlags := flags);
    var trace := AppendTraceTo(m.trace, out.trace, step.stepId);
    m := m.(trace := trace);
  }

  /** merge_parallel_step_results: fills the merged fields step by step, in plan order. */
  method MergeParallelStepResults(s: GraphState, plan: Planning.Plan, result: PlanResult)
    returns (r: Result<Merged, MergeError>)
    ensures r == Merge(s, plan, result)
  {
    if result.planId != plan.planId {
      return Err(PlanIdentityMismatch);
    }
    var byId := ResultsById(result.stepResults);
    if byId.Keys != StepIds(plan.steps) {
      return Err(StepsMismatch);
    }
    if !(result.outputs.Keys <= StepIds(plan.steps)) {
      return Err(UnknownOutput);
    }
    var m := EmptyMerge(s, plan, result);
    for i := 0 to |plan.steps|
      invariant m == MergeSteps(EmptyMerge(s, plan, result), plan.steps[..i], byId, result.outputs)
    {
      TakeOneMore(plan.steps, i);
      var step := plan.steps[i];
      if byId[step.stepId].status == Completed {
        m := MergeCompletedStep(m, step, if step.stepId in result.outputs then result.outputs[step.stepId] else NO_OUTPUT);
      }
    }
    TakeAll(plan.steps);
    return Ok(m);
  }
}

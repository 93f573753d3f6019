/** The fan-in of a parallel reading in closed form: it holds what the completed steps contribute,
    whatever the schedule, the number of workers and the order in which results are listed. */
module PipelineRefinement {
  import opened Text
  import Planning
  import opened ReadPipeline
  import opened PlanExecutor

  // ---------- what the completed steps contribute ----------

  /** The handler of parallel_read_executor_node. */
  function StepHandler(work: Work, s: GraphState): Handler {
    (step: Planning.Step) =>
      var out := SpecialistNode(work, step.recipient, IsolatedState(s, step));
      Handled(out, out.usage[|out.usage| - 1], out.evidence.GetOr([]))
  }

  function EffectOf(work: Work, request: Request, step: Planning.Step): Effect {
    work(TaskOf(step.recipient, Some(step.stepId), step.metadata, request))
  }

  /** The steps whose run completed, in plan order. */
  function CompletedSteps(steps: seq<Planning.Step>, runs: seq<StepRun>): (cs: seq<Planning.Step>)
    requires |steps| == |runs|
    ensures forall c | c in cs :: c in steps
  {
    if steps == [] then []
    else
      var n := |steps| - 1;
      CompletedSteps(steps[..n], runs[..n]) + if runs[n].status == Completed then [steps[n]] else []
  }

  function Tools(work: Work, request: Request, steps: seq<Planning.Step>): seq<string> {
    if steps == [] then []
    else Tools(work, request, steps[..|steps| - 1]) + EffectOf(work, request, steps[|steps| - 1]).tools
  }

  function Flags(work: Work, request: Request, steps: seq<Planning.Step>): seq<string> {
    if steps == [] then []
    else
      var last := steps[|steps| - 1];
      Flags(work, request, steps[..|steps| - 1])
      + if last.recipient == "rag_agent" then EffectOf(work, request, last).flags else []
  }

  function Summaries(work: Work, request: Request, steps: seq<Planning.Step>): map<string, string> {
    if steps == [] then map[]
    else
      var last := steps[|steps| - 1];
      Summaries(work, request, steps[..|steps| - 1])
      + if last.recipient in SUMMARY_KEYS then map[SUMMARY_KEYS[last.recipient] := EffectOf(work, request, last).summary]
        else map[]
  }

  /** A trace record without its position and its plan step. */
  function Unnumbered(fields: Record): Record {
    fields - {"index", "plan_step_id"}
  }

  function StepRecord(work: Work, request: Request, step: Planning.Step): Record {
    SpecialistRecord(step.recipient, EffectOf(work, request, step))
  }

  function Records(work: Work, request: Request, steps: seq<Planning.Step>): seq<TraceItem> {
    if steps == [] then []
    else Records(work, request, steps[..|steps| - 1]) + [Entry(StepRecord(work, request, steps[|steps| - 1]))]
  }

  predicate IsDispatcherItem(item: TraceItem) {
    item.Entry? && "node" in item.fields && item.fields["node"] == Txt("route_dispatcher")
  }

  /** The trace as both paths must agree on it: no dispatcher entries, positions or plan steps. */
  function Project(trace: seq<TraceItem>): seq<TraceItem> {
    if trace == [] then []
    else
      var last := trace[|trace| - 1];
      Project(trace[..|trace| - 1])
      + if IsDispatcherItem(last) then [] else if last.Entry? then [Entry(Unnumbered(last.fields))] else [last]
  }

  lemma ProjectAppend(trace: seq<TraceItem>, item: TraceItem)
    ensures Project(trace + [item]) == Project(trace)
         + if IsDispatcherItem(item) then [] else if item.Entry? then [Entry(Unnumbered(item.fields))] else [item]
  {
    assert (trace + [item])[..|trace|] == trace;
  }

  // ---------- fan-in in closed form ----------

  lemma {:induction false} AppendUniqueKnown(target: seq<string>, known: seq<string>, more: seq<string>)
    requires forall v | v in known :: v in target
    ensures AppendUnique(target, known + more) == AppendUnique(target, more)
    decreases |known|
  {
    if known == [] {
      assert known + more == more;
    } else {
      assert (known + more)[1..] == known[1..] + more;
      AppendUniqueKnown(target, known[1..], more);
    }
  }

  lemma {:induction false} AppendUniqueConcat(target: seq<string>, a: seq<string>, b: seq<string>)
    ensures AppendUnique(AppendUnique(target, a), b) == AppendUnique(target, a + b)
    decreases |a|
  {
    if a == [] {
      assert a + b == b;
    } else {
      assert (a + b)[1..] == a[1..] + b;
      AppendUniqueConcat(if a[0] in target then target else target + [a[0]], a[1..], b);
    }
  }

  lemma {:induction false} AppendUniqueKeeps(target: seq<string>, values: seq<string>)
    ensures target <= AppendUnique(target, values)
    decreases |values|
  {
    if values != [] {
      AppendUniqueKeeps(if values[0] in target then target else target + [values[0]], values[1..]);
    }
  }

  /** Values none of which is in the target or repeated. */
  predicate AllNew(target: seq<string>, values: seq<string>) {
    && (forall i, j | 0 <= i < j < |values| :: values[i] != values[j])
    && forall i | 0 <= i < |values| :: values[i] !in target
  }

  lemma {:induction false} AppendUniqueIsAppend(target: seq<string>, values: seq<string>)
    ensures |AppendUnique(target, values)| <= |target| + |values|
    ensures AppendUnique(target, values) == target + values <==> AllNew(target, values)
    decreases |values|
  {
    if values == [] {
      assert target + values == target;
    } else if values[0] in target {
      AppendUniqueIsAppend(target, values[1..]);
    } else {
      var grown := target + [values[0]];
      AppendUniqueIsAppend(grown, values[1..]);
      assert grown + values[1..] == target + values;
      assert AllNew(grown, values[1..]) <==> AllNew(target, values) by {
        assert values == [values[0]] + values[1..];
        if AllNew(grown, values[1..]) {
          forall i, j | 0 <= i < j < |values| ensures values[i] != values[j] {
            assert values[j] == values[1..][j - 1];
            if i > 0 {
              assert values[i] == values[1..][i - 1];
            }
          }
          forall i | 0 <= i < |values| ensures values[i] !in target {
            if i > 0 {
              assert values[i] == values[1..][i - 1];
            }
          }
        }
      }
    }
  }

  /** The runs of a plan under some schedule: each is possible for its step's handler. */
  ghost predicate PossibleRuns(work: Work, s: GraphState, plan: Planning.Plan, runs: seq<StepRun>) {
    && |runs| == |plan.steps|
    && forall i | 0 <= i < |runs| :: PossibleAnswer(StepHandler(work, s)(plan.steps[i]), runs[i])
  }

  /** A run holds its handler's answer if it completed, and none otherwise. */
  predicate PossibleAnswer(handled: Handled, run: StepRun) {
    run.answer == if run.status == Completed then Some(handled) else None
  }

  /** Results and outputs that agree with the runs of these steps. */
  ghost predicate Agrees(
    work: Work, s: GraphState, steps: seq<Planning.Step>, runs: seq<StepRun>,
    byId: map<string, StepResult>, outputs: map<string, StepOutput>
  )
    requires |steps| == |runs|
  {
    forall i | 0 <= i < |steps| :: AgreesAt(work, s, steps[i], runs[i], byId, outputs)
  }

  ghost predicate AgreesAt(
    work: Work, s: GraphState, step: Planning.Step, run: StepRun,
    byId: map<string, StepResult>, outputs: map<string, StepOutput>
  ) {
    && step.stepId in byId && byId[step.stepId].status == run.status && byId[step.stepId].usage == run.usage
    && (run.status == Completed ==>
          step.stepId in outputs && outputs[step.stepId] == StepHandler(work, s)(step).output)
  }

  /** One completed step's merge, in terms of what the step contributes. */
  lemma MergeStepContribution(work: Work, s: GraphState, m: Merged, step: Planning.Step)
    requires step.recipient in SUMMARY_KEYS
    requires forall f | f in s.safetyFlags :: f in m.safetyFlags
    ensures var r, effect := MergeStep(m, step, StepHandler(work, s)(step).output), EffectOf(work, s.request, step);
            && r.executed == m.executed + [step.recipient]
            && r.toolCalls == m.toolCalls + effect.tools
            && r.summaries == m.summaries + map[SUMMARY_KEYS[step.recipient] := effect.summary]
            && r.safetyFlags == (if step.recipient == "rag_agent" then AppendUnique(m.safetyFlags, effect.flags) else m.safetyFlags)
            && Project(r.trace) == Project(m.trace) + [Entry(StepRecord(work, s.request, step))]
  {
    var out := StepHandler(work, s)(step).output;
    var effect := EffectOf(work, s.request, step);
    assert [] + effect.tools == effect.tools;
    AppendUniqueKnown(m.safetyFlags, s.safetyFlags, effect.flags);
    MergeTraceContribution(m.trace, step.recipient, step.stepId, effect);
  }

  lemma NumberingDropped(fields: Record, index: Value, stepId: Value)
    ensures Unnumbered(map["index" := index] + (fields - {"index"}) + map["plan_step_id" := stepId]) == Unnumbered(fields)
  {
    assert (map["index" := index] + (fields - {"index"}) + map["plan_step_id" := stepId]).Keys
        == fields.Keys + {"index", "plan_step_id"};
  }

  lemma IndexDropped(index: Value, node: Value, event: Value, detail: Record)
    ensures Unnumbered(map["index" := index, "node" := node, "event" := event] + detail)
         == Unnumbered(map["node" := node, "event" := event] + detail)
  {
    assert map["index" := index, "node" := node, "event" := event] == map["index" := index] + map["node" := node, "event" := event];
  }

  /** What append_agent_step adds to a trace, projected. */
  function SpecialistRecord(recipient: string, effect: Effect): Record {
    Unnumbered(map["node" := Txt(recipient), "event" := Txt(effect.event)] + (effect.detail - {"index", "node", "event"}))
  }

  function NumberedFields(n: int, recipient: string, effect: Effect): Record {
    map["index" := Num(n), "node" := Txt(recipient), "event" := Txt(effect.event)] + (effect.detail - {"index", "node", "event"})
  }

  lemma NotTheDispatcher(n: int, recipient: string, effect: Effect)
    requires recipient in SUMMARY_KEYS
    ensures var fields := NumberedFields(n, recipient, effect);
            "node" in fields && fields["node"] == Txt(recipient) && recipient != "route_dispatcher"
            && Unnumbered(fields) == SpecialistRecord(recipient, effect)
  {
    IndexDropped(Num(n), Txt(recipient), Txt(effect.event), effect.detail - {"index", "node", "event"});
  }

  lemma MergeTraceContribution(trace: seq<TraceItem>, recipient: string, stepId: string, effect: Effect)
    requires recipient in SUMMARY_KEYS
    ensures Project(AppendTrace(trace, AppendAgentStep([], recipient, effect.event, effect.detail), stepId))
         == Project(trace) + [Entry(SpecialistRecord(recipient, effect))]
  {
    var items := AppendAgentStep([], recipient, effect.event, effect.detail);
    var fields := NumberedFields(1, recipient, effect);
    assert items == [Entry(fields)] && items[1..] == [];
    NotTheDispatcher(1, recipient, effect);
    NumberingDropped(fields, Num(|trace| + 1), Txt(stepId));
    ProjectAppend(trace, Renumbered(trace, fields, stepId));
  }

  /** A merge that holds exactly the contributions of the given steps, on top of the state. */
  ghost predicate HoldsContributions(work: Work, s: GraphState, r: Merged, c: seq<Planning.Step>) {
    && r.executed == Planning.Recipients(c)
    && r.toolCalls == Tools(work, s.request, c)
    && r.summaries == Summaries(work, s.request, c)
    && r.safetyFlags == AppendUnique(s.safetyFlags, Flags(work, s.request, c))
    && Project(r.trace) == Project(s.trace) + Records(work, s.request, c)
  }

  lemma StepsGrow(work: Work, request: Request, front: seq<Planning.Step>, step: Planning.Step)
    requires step.recipient in SUMMARY_KEYS
    ensures var c, effect := front + [step], EffectOf(work, request, step);
            && Planning.Recipients(c) == Planning.Recipients(front) + [step.recipient]
            && Tools(work, request, c) == Tools(work, request, front) + effect.tools
            && Summaries(work, request, c)
               == Summaries(work, request, front) + map[SUMMARY_KEYS[step.recipient] := effect.summary]
            && Flags(work, request, c)
               == Flags(work, request, front) + (if step.recipient == "rag_agent" then effect.flags else [])
            && Records(work, request, c) == Records(work, request, front) + [Entry(StepRecord(work, request, step))]
  {
    var c := front + [step];
    assert c[..|front|] == front;
    assert Planning.Recipients(c) == Planning.Recipients(front) + [step.recipient];
  }

  lemma Regroup<T>(a: seq<T>, b: seq<T>, c: seq<T>)
    ensures (a + b) + c == a + (b + c)
  {
  }

  lemma ContributionAdded(work: Work, s: GraphState, r: Merged, front: seq<Planning.Step>, step: Planning.Step)
    requires HoldsContributions(work, s, r, front) && step.recipient in SUMMARY_KEYS
    ensures HoldsContributions(work, s, MergeStep(r, step, StepHandler(work, s)(step).output), front + [step])
  {
    var flags, more := Flags(work, s.request, front), EffectOf(work, s.request, step).flags;
    StepsGrow(work, s.request, front, step);
    AppendUniqueKeeps(s.safetyFlags, flags);
    MergeStepContribution(work, s, r, step);
    AppendUniqueConcat(s.safetyFlags, flags, if step.recipient == "rag_agent" then more else []);
    Regroup(Project(s.trace), Records(work, s.request, front), [Entry(StepRecord(work, s.request, step))]);
  }

  lemma MergeOneMore(
    work: Work, s: GraphState, before: Merged, front: seq<Planning.Step>, step: Planning.Step, run: StepRun,
    byId: map<string, StepResult>, outputs: map<string, StepOutput>
  )
    requires HoldsContributions(work, s, before, front) && AgreesAt(work, s, step, run, byId, outputs)
    requires step.recipient in SUMMARY_KEYS
    ensures var out := if step.stepId in outputs then outputs[step.stepId] else NO_OUTPUT;
            HoldsContributions(work, s, if byId[step.stepId].status != Completed then before else MergeStep(before, step, out),
                               front + if run.status == Completed then [step] else [])
  {
    if run.status == Completed {
      ContributionAdded(work, s, before, front, step);
    } else {
      assert front + [] == front;
    }
  }

  /** The merge of any prefix of the plan holds what its completed steps contribute. */
  lemma {:induction false} MergeInClosedForm(
    work: Work, s: GraphState, m: Merged, steps: seq<Planning.Step>, runs: seq<StepRun>,
    byId: map<string, StepResult>, outputs: map<string, StepOutput>
  )
    requires |steps| == |runs| && Agrees(work, s, steps, runs, byId, outputs)
    requires forall x | x in steps :: x.recipient in SUMMARY_KEYS && x.stepId in byId
    requires HoldsContributions(work, s, m, [])
    ensures HoldsContributions(work, s, MergeSteps(m, steps, byId, outputs), CompletedSteps(steps, runs))
  {
    if steps != [] {
      var n := |steps| - 1;
      assert forall i | 0 <= i < n :: AgreesAt(work, s, steps[i], runs[i], byId, outputs);
      MergeInClosedForm(work, s, m, steps[..n], runs[..n], byId, outputs);
      assert AgreesAt(work, s, steps[n], runs[n], byId, outputs);
      MergeOneMore(work, s, MergeSteps(m, steps[..n], byId, outputs), CompletedSteps(steps[..n], runs[..n]),
                   steps[n], runs[n], byId, outputs);
    }
  }

  // ---------- the executor's result, merged ----------

  lemma {:induction false} ResultsByIdAt(results: seq<StepResult>, i: nat)
    requires i < |results|
    requires forall j, k | 0 <= j < k < |results| :: results[j].stepId != results[k].stepId
    ensures results[i].stepId in ResultsById(results) && ResultsById(results)[results[i].stepId] == results[i]
  {
    if i < |results| - 1 {
      ResultsByIdAt(results[..|results| - 1], i);
    }
  }

  lemma {:induction false} OutputsAt(steps: seq<Planning.Step>, runs: seq<StepRun>, i: nat)
    requires |steps| == |runs| && i < |steps|
    requires forall j, k | 0 <= j < k < |steps| :: steps[j].stepId != steps[k].stepId
    requires runs[i].status == Completed && runs[i].answer.Some?
    ensures steps[i].stepId in Outputs(steps, runs)
    ensures Outputs(steps, runs)[steps[i].stepId] == runs[i].answer.value.output
  {
    if i < |steps| - 1 {
      OutputsAt(steps[..|steps| - 1], runs[..|steps| - 1], i);
    }
  }

  lemma {:induction false} OutputsKeys(steps: seq<Planning.Step>, runs: seq<StepRun>)
    requires |steps| == |runs|
    ensures Outputs(steps, runs).Keys <= StepIds(steps)
  {
    if steps != [] {
      OutputsKeys(steps[..|steps| - 1], runs[..|steps| - 1]);
    }
  }

  lemma AggregateAgreesAt(work: Work, s: GraphState, plan: Planning.Plan, runs: seq<StepRun>, i: nat)
    requires Planning.WellFormedPlan(plan) && PossibleRuns(work, s, plan, runs) && i < |runs|
    ensures var result := AggregatePlanResult(plan, runs);
            AgreesAt(work, s, plan.steps[i], runs[i], ResultsById(result.stepResults), result.outputs)
  {
    ResultsByIdAt(AggregatePlanResult(plan, runs).stepResults, i);
    if runs[i].status == Completed {
      OutputsAt(plan.steps, runs, i);
    }
  }

  lemma {:induction false} StepIdsIn(steps: seq<Planning.Step>, results: seq<StepResult>)
    requires |steps| == |results| && forall i | 0 <= i < |steps| :: results[i].stepId == steps[i].stepId
    ensures ResultsById(results).Keys == StepIds(steps)
  {
    forall id ensures id in ResultsById(results) <==> id in StepIds(steps) {
      if id in StepIds(steps) {
        var i :| 0 <= i < |steps| && steps[i].stepId == id;
        assert results[i].stepId == id;
      }
      if id in ResultsById(results) {
        var i :| 0 <= i < |results| && results[i].stepId == id;
        assert steps[i] in steps;
      }
    }
  }

  lemma AggregateAgrees(work: Work, s: GraphState, plan: Planning.Plan, runs: seq<StepRun>)
    requires Planning.WellFormedPlan(plan) && PossibleRuns(work, s, plan, runs)
    ensures var result := AggregatePlanResult(plan, runs);
            && ResultsById(result.stepResults).Keys == StepIds(plan.steps)
            && result.outputs.Keys <= StepIds(plan.steps)
            && Agrees(work, s, plan.steps, runs, ResultsById(result.stepResults), result.outputs)
  {
    OutputsKeys(plan.steps, runs);
    forall i | 0 <= i < |runs|
      ensures AgreesAt(work, s, plan.steps[i], runs[i], ResultsById(AggregatePlanResult(plan, runs).stepResults),
                       AggregatePlanResult(plan, runs).outputs)
    {
      AggregateAgreesAt(work, s, plan, runs, i);
    }
    StepIdsIn(plan.steps, AggregatePlanResult(plan, runs).stepResults);
  }

  predicate Registered(plan: Planning.Plan) {
    forall x | x in plan.steps :: x.recipient in SUMMARY_KEYS
  }

  /** The parallel path: execute, aggregate, fan in. */
  function ParallelRead(s: GraphState, plan: Planning.Plan, runs: seq<StepRun>): Result<Merged, MergeError>
    requires |runs| == |plan.steps|
  {
    Merge(s, plan, AggregatePlanResult(plan, runs))
  }

  /** The fan-in always succeeds on the executor's own result and holds exactly the contributions of
      the completed steps, in plan order. */
  lemma ParallelReadInClosedForm(work: Work, s: GraphState, plan: Planning.Plan, runs: seq<StepRun>)
    requires Planning.WellFormedPlan(plan) && Registered(plan) && PossibleRuns(work, s, plan, runs)
    ensures var r := ParallelRead(s, plan, runs);
            r.Ok? && HoldsContributions(work, s, r.value, CompletedSteps(plan.steps, runs))
  {
    AggregateAgrees(work, s, plan, runs);
    var result := AggregatePlanResult(plan, runs);
    var m := EmptyMerge(s, plan, result);
    assert Project(s.trace) + [] == Project(s.trace);
    MergeInClosedForm(work, s, m, plan.steps, runs, ResultsById(result.stepResults), result.outputs);
  }

  // ---------- schedule independence ----------

  /** What a fan-in passes on, positions and attempt counts aside. */
  predicate SameReading(a: Merged, b: Merged) {
    && a.executed == b.executed && a.toolCalls == b.toolCalls && a.summaries == b.summaries
    && a.safetyFlags == b.safetyFlags && Project(a.trace) == Project(b.trace) && a.evidence == b.evidence
  }

  lemma {:induction false} MergeKeepsUsage(
    m: Merged, steps: seq<Planning.Step>, byId: map<string, StepResult>, outputs: map<string, StepOutput>
  )
    requires forall x | x in steps :: x.stepId in byId
    ensures var r := MergeSteps(m, steps, byId, outputs); r.usage == m.usage && r.evidence == m.evidence
  {
    if steps != [] {
      MergeKeepsUsage(m, steps[..|steps| - 1], byId, outputs);
    }
  }

  /** The evidence of a fan-in is what the executor collected. */
  lemma FanInEvidence(s: GraphState, plan: Planning.Plan, runs: seq<StepRun>)
    requires |runs| == |plan.steps| && ParallelRead(s, plan, runs).Ok?
    ensures ParallelRead(s, plan, runs).value.evidence == CollectReferences(runs)
  {
    var result := AggregatePlanResult(plan, runs);
    MergeKeepsUsage(EmptyMerge(s, plan, result), plan.steps, ResultsById(result.stepResults), result.outputs);
  }

  lemma {:induction false} SameReferences(a: seq<StepRun>, b: seq<StepRun>)
    requires |a| == |b| && forall i | 0 <= i < |a| :: a[i].answer == b[i].answer
    ensures CollectReferences(a) == CollectReferences(b)
  {
    if a != [] {
      SameReferences(a[..|a| - 1], b[..|b| - 1]);
    }
  }

  lemma SameAnswers(work: Work, s: GraphState, plan: Planning.Plan, a: seq<StepRun>, b: seq<StepRun>)
    requires PossibleRuns(work, s, plan, a) && PossibleRuns(work, s, plan, b)
    requires forall i | 0 <= i < |plan.steps| :: a[i].status == Completed <==> b[i].status == Completed
    ensures CollectReferences(a) == CollectReferences(b)
  {
    forall i | 0 <= i < |a| ensures a[i].answer == b[i].answer {
      assert PossibleAnswer(StepHandler(work, s)(plan.steps[i]), a[i]);
      assert PossibleAnswer(StepHandler(work, s)(plan.steps[i]), b[i]);
    }
    SameReferences(a, b);
  }

  lemma {:induction false} SameCompletedSteps(steps: seq<Planning.Step>, a: seq<StepRun>, b: seq<StepRun>)
    requires |steps| == |a| == |b|
    requires forall i | 0 <= i < |steps| :: a[i].status == Completed <==> b[i].status == Completed
    ensures CompletedSteps(steps, a) == CompletedSteps(steps, b)
  {
    if steps != [] {
      SameCompletedSteps(steps[..|steps| - 1], a[..|steps| - 1], b[..|steps| - 1]);
    }
  }

  /** The runs an execution hands over: its pool is drained and has one run per step. */
  ghost predicate Executed(
    work: Work, s: GraphState, plan: Planning.Plan, workers: nat, events: seq<PoolEvent>, runs: seq<StepRun>
  ) {
    var pool := RunSchedule(plan, workers, StepHandler(work, s), events);
    && pool.Some? && Drained(plan, pool.value) && |runs| == |plan.steps|
    && forall i | 0 <= i < |runs| :: i in pool.value.done && runs[i] == pool.value.done[i]
  }

  predicate AttemptsAllowed(plan: Planning.Plan) {
    forall x | x in plan.steps :: x.retryPolicy.maxAttempts >= 1
  }

  /** Every drained pool has a run for every step to hand over. */
  lemma DrainedPoolIsComplete(
    work: Work, s: GraphState, plan: Planning.Plan, workers: nat, events: seq<PoolEvent>
  ) returns (runs: seq<StepRun>)
    requires var pool := RunSchedule(plan, workers, StepHandler(work, s), events);
             pool.Some? && Drained(plan, pool.value)
    ensures Executed(work, s, plan, workers, events, runs)
  {
    EveryScheduleKeepsInv(plan, workers, StepHandler(work, s), events);
    var pool := RunSchedule(plan, workers, StepHandler(work, s), events).value;
    assert forall i: nat | i < |plan.steps| :: i in pool.done;
    runs := RunsInPlanOrder(plan, pool);
  }

  /** Under every schedule a completed step holds its own handler's answer. */
  lemma ExecutedRunsArePossible(
    work: Work, s: GraphState, plan: Planning.Plan, workers: nat, events: seq<PoolEvent>, runs: seq<StepRun>
  )
    requires AttemptsAllowed(plan) && Executed(work, s, plan, workers, events, runs)
    ensures PossibleRuns(work, s, plan, runs)
  {
    var handler := StepHandler(work, s);
    EveryScheduleKeepsInv(plan, workers, handler, events);
    forall i | 0 <= i < |runs| ensures PossibleAnswer(handler(plan.steps[i]), runs[i]) {
      PossibleRunAnswers(plan.steps[i].retryPolicy, handler(plan.steps[i]), runs[i]);
    }
  }

  lemma PossibleRunAnswers(policy: Planning.RetryPolicy, handled: Handled, r: StepRun)
    requires policy.maxAttempts >= 1 && PossibleRun(policy, handled, r)
    ensures PossibleAnswer(handled, r)
  {
    if r != CANCELLED_RUN {
      var script :| r == RunAttempts(policy, handled, script, 0, []);
      AttemptsAreBounded(policy, handled, script, 0, []);
    }
  }

  /** Schedule independence: two complete executions of a plan, with whatever numbers of workers, orders
      of completion, retries and failures, read the same as soon as the same steps completed; and the
      executed routes are the completed subsequence of the plan. */
  lemma ScheduleDoesNotMatter(
    work: Work, s: GraphState, plan: Planning.Plan,
    workersA: nat, eventsA: seq<PoolEvent>, runsA: seq<StepRun>,
    workersB: nat, eventsB: seq<PoolEvent>, runsB: seq<StepRun>
  )
    requires Planning.WellFormedPlan(plan) && Registered(plan) && AttemptsAllowed(plan)
    requires Executed(work, s, plan, workersA, eventsA, runsA) && Executed(work, s, plan, workersB, eventsB, runsB)
    requires forall i | 0 <= i < |plan.steps| :: runsA[i].status == Completed <==> runsB[i].status == Completed
    ensures var a, b := ParallelRead(s, plan, runsA), ParallelRead(s, plan, runsB);
            && a.Ok? && b.Ok? && SameReading(a.value, b.value)
            && a.value.executed == Planning.Recipients(CompletedSteps(plan.steps, runsA))
  {
    ExecutedRunsArePossible(work, s, plan, workersA, eventsA, runsA);
    ExecutedRunsArePossible(work, s, plan, workersB, eventsB, runsB);
    SameCompletedSteps(plan.steps, runsA, runsB);
    ParallelReadInClosedForm(work, s, plan, runsA);
    ParallelReadInClosedForm(work, s, plan, runsB);
    SameAnswers(work, s, plan, runsA, runsB);
    FanInEvidence(s, plan, runsA);
    FanInEvidence(s, plan, runsB);
  }

  /** Nor does the order in which results are listed, as long as their step ids are unique: only the
      list of error codes follows it. */
  lemma ResultOrderDoesNotMatter(s: GraphState, plan: Planning.Plan, a: PlanResult, b: PlanResult)
    requires b == a.(stepResults := b.stepResults) && multiset(a.stepResults) == multiset(b.stepResults)
    requires forall i, j | 0 <= i < j < |a.stepResults| :: a.stepResults[i].stepId != a.stepResults[j].stepId
    requires forall i, j | 0 <= i < j < |b.stepResults| :: b.stepResults[i].stepId != b.stepResults[j].stepId
    ensures match Merge(s, plan, a)
            case Err(e) => Merge(s, plan, b) == Err(e)
            case Ok(m) => Merge(s, plan, b).Ok? && Merge(s, plan, b).value.(errorCodes := m.errorCodes) == m
  {
    ResultsByIdOrder(a.stepResults, b.stepResults);
    var byId := ResultsById(a.stepResults);
    if Merge(s, plan, a).Ok? {
      var ea, eb := EmptyMerge(s, plan, a), EmptyMerge(s, plan, b);
      ErrorCodesAside(ea, ErrorCodes(b.stepResults), plan.steps, byId, a.outputs);
    }
  }

  lemma {:induction false} ErrorCodesAside(
    m: Merged, codes: seq<string>, steps: seq<Planning.Step>, byId: map<string, StepResult>, outputs: map<string, StepOutput>
  )
    requires forall x | x in steps :: x.stepId in byId
    ensures MergeSteps(m.(errorCodes := codes), steps, byId, outputs)
         == MergeSteps(m, steps, byId, outputs).(errorCodes := codes)
    ensures MergeSteps(m, steps, byId, outputs).errorCodes == m.errorCodes
  {
    if steps != [] {
      ErrorCodesAside(m, codes, steps[..|steps| - 1], byId, outputs);
    }
  }

  lemma ResultsByIdIn(a: seq<StepResult>, b: seq<StepResult>, id: string)
    requires multiset(a) == multiset(b)
    requires forall i, j | 0 <= i < j < |a| :: a[i].stepId != a[j].stepId
    requires forall i, j | 0 <= i < j < |b| :: b[i].stepId != b[j].stepId
    ensures id in ResultsById(a) ==> id in ResultsById(b) && ResultsById(b)[id] == ResultsById(a)[id]
  {
    if id in ResultsById(a) {
      var i :| 0 <= i < |a| && a[i].stepId == id;
      ResultsByIdAt(a, i);
      assert a[i] in multiset(b);
      var j :| 0 <= j < |b| && b[j] == a[i];
      ResultsByIdAt(b, j);
    }
  }

  lemma ResultsByIdOrder(a: seq<StepResult>, b: seq<StepResult>)
    requires multiset(a) == multiset(b)
    requires forall i, j | 0 <= i < j < |a| :: a[i].stepId != a[j].stepId
    requires forall i, j | 0 <= i < j < |b| :: b[i].stepId != b[j].stepId
    ensures ResultsById(a) == ResultsById(b)
  {
    forall id ensures id in ResultsById(a) <==> id in ResultsById(b) {
      ResultsByIdIn(a, b, id);
      ResultsByIdIn(b, a, id);
    }
    forall id | id in ResultsById(a) ensures ResultsById(a)[id] == ResultsById(b)[id] {
      ResultsByIdIn(a, b, id);
    }
  }
}

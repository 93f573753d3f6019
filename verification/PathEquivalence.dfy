/** The sequential dispatcher in closed form, and the refinement theorem: a parallel reading is the
    sequential reading of the steps that completed. */
module PathEquivalence {
  import opened Sequences
  import opened Text
  import Planning
  import opened ReadPipeline
  import opened PlanExecutor
  import opened PipelineRefinement

  // ---------- the dispatcher loop in closed form ----------

  /** The dispatcher never hands step metadata to a specialist. */
  function Bare(steps: seq<Planning.Step>): (bs: seq<Planning.Step>)
    ensures |bs| == |steps| && forall i | 0 <= i < |bs| :: bs[i] == steps[i].(metadata := map[])
  {
    seq(|steps|, i requires 0 <= i < |steps| => steps[i].(metadata := map[]))
  }

  function UsagesOf(work: Work, request: Request, steps: seq<Planning.Step>): seq<Usage> {
    if steps == [] then []
    else UsagesOf(work, request, steps[..|steps| - 1]) + [EffectOf(work, request, steps[|steps| - 1]).usage]
  }

  function LastEvidence(
    work: Work, request: Request, steps: seq<Planning.Step>, before: Option<seq<Reference>>
  ): Option<seq<Reference>> {
    if steps == [] then before
    else if steps[|steps| - 1].recipient == "rag_agent" then Some(EffectOf(work, request, steps[|steps| - 1]).evidence)
    else LastEvidence(work, request, steps[..|steps| - 1], before)
  }

  /** A state that has executed exactly the given steps, starting from base. */
  ghost predicate HasExecuted(work: Work, base: GraphState, t: GraphState, c: seq<Planning.Step>) {
    && t.request == base.request && t.routes == base.routes && t.stepMetadata == map[]
    && t.executed == Planning.Recipients(c)
    && t.toolCalls == base.toolCalls + Tools(work, base.request, c)
    && t.summaries == base.summaries + Summaries(work, base.request, c)
    && t.safetyFlags == base.safetyFlags + Flags(work, base.request, c)
    && t.usage == base.usage + UsagesOf(work, base.request, c)
    && t.evidence == LastEvidence(work, base.request, c, base.evidence)
    && Project(t.trace) == Project(base.trace) + Records(work, base.request, c)
  }

  /** One round of the cycle: select a route and run its specialist. */
  function Round(work: Work, s: GraphState, route: string, stepId: string, trace: seq<TraceItem>): GraphState {
    var selected := s.(current := Some(route), planStepId := Some(stepId), trace := trace);
    ApplyPatch(selected, SpecialistNode(work, route, selected))
  }

  /** What one round leaves of a state, in terms of the step's effect. */
  function AfterRound(t: GraphState, step: Planning.Step, effect: Effect, trace: seq<TraceItem>): GraphState
    requires step.recipient in SUMMARY_KEYS
  {
    t.(current := None, planStepId := Some(step.stepId), executed := t.executed + [step.recipient],
       toolCalls := t.toolCalls + effect.tools, usage := t.usage + [effect.usage],
       summaries := t.summaries + map[SUMMARY_KEYS[step.recipient] := effect.summary],
       safetyFlags := t.safetyFlags + (if step.recipient == "rag_agent" then effect.flags else []),
       evidence := if step.recipient == "rag_agent" then Some(effect.evidence) else t.evidence,
       trace := AppendAgentStep(trace, step.recipient, effect.event, effect.detail))
  }

  lemma RoundPatch(work: Work, t: GraphState, step: Planning.Step, trace: seq<TraceItem>)
    requires step.recipient in SUMMARY_KEYS && step.metadata == map[] && t.stepMetadata == map[]
    ensures Round(work, t, step.recipient, step.stepId, trace)
         == AfterRound(t, step, EffectOf(work, t.request, step), trace)
  {
    assert t.safetyFlags + [] == t.safetyFlags;
  }

  lemma FoldsGrow(work: Work, request: Request, front: seq<Planning.Step>, step: Planning.Step)
    ensures var c, effect := front + [step], EffectOf(work, request, step);
            && UsagesOf(work, request, c) == UsagesOf(work, request, front) + [effect.usage]
            && (forall before :: LastEvidence(work, request, c, before) ==
                  if step.recipient == "rag_agent" then Some(effect.evidence)
                  else LastEvidence(work, request, front, before))
  {
    assert (front + [step])[..|front|] == front;
  }

  lemma RegroupMaps<K, V>(a: map<K, V>, b: map<K, V>, c: map<K, V>)
    ensures (a + b) + c == a + (b + c)
  {
  }

  lemma RoundExecutes(
    work: Work, base: GraphState, t: GraphState, front: seq<Planning.Step>, step: Planning.Step, trace: seq<TraceItem>
  )
    requires HasExecuted(work, base, t, front) && step.recipient in SUMMARY_KEYS
    requires Project(trace) == Project(t.trace)
    ensures HasExecuted(work, base, AfterRound(t, step, EffectOf(work, base.request, step), trace), front + [step])
  {
    var request, effect := base.request, EffectOf(work, base.request, step);
    StepsGrow(work, request, front, step);
    FoldsGrow(work, request, front, step);
    SpecialistTrace(trace, step.recipient, effect);
    Regroup(base.toolCalls, Tools(work, request, front), effect.tools);
    Regroup(base.usage, UsagesOf(work, request, front), [effect.usage]);
    RegroupMaps(base.summaries, Summaries(work, request, front), map[SUMMARY_KEYS[step.recipient] := effect.summary]);
    Regroup(base.safetyFlags, Flags(work, request, front), if step.recipient == "rag_agent" then effect.flags else []);
    Regroup(Project(base.trace), Records(work, request, front), [Entry(StepRecord(work, request, step))]);
  }

  lemma SpecialistTrace(trace: seq<TraceItem>, recipient: string, effect: Effect)
    requires recipient in SUMMARY_KEYS
    ensures Project(AppendAgentStep(trace, recipient, effect.event, effect.detail))
         == Project(trace) + [Entry(SpecialistRecord(recipient, effect))]
  {
    NotTheDispatcher(|trace| + 1, recipient, effect);
    ProjectAppend(trace, Entry(NumberedFields(|trace| + 1, recipient, effect)));
  }

  lemma {:induction false} FirstUnexecutedAfter(routes: seq<string>, i: nat, j: nat)
    requires Planning.Distinct(routes) && j <= i <= |routes|
    ensures FirstUnexecuted(routes[j..], routes[..i]) == if i < |routes| then Some(routes[i]) else None
    decreases i - j
  {
    if j < i {
      assert routes[j..][0] == routes[j] == routes[..i][j];
      assert routes[j..][1..] == routes[j + 1..];
      FirstUnexecutedAfter(routes, i, j + 1);
    } else if i < |routes| {
      assert routes[j..][0] == routes[i];
      assert routes[i] !in routes[..i];
    }
  }

  lemma {:induction false} StepIdForRecipient(steps: seq<Planning.Step>, i: nat)
    requires i < |steps| && Planning.Distinct(Planning.Recipients(steps))
    ensures StepIdFor(steps, steps[i].recipient) == Some(steps[i].stepId)
  {
    if i > 0 {
      assert steps[0].recipient != steps[i].recipient by {
        assert Planning.Recipients(steps)[0] != Planning.Recipients(steps)[i];
      }
      var rest := steps[1..];
      forall a, b | 0 <= a < b < |rest| ensures Planning.Recipients(rest)[a] != Planning.Recipients(rest)[b] {
        assert Planning.Recipients(steps)[a + 1] != Planning.Recipients(steps)[b + 1];
      }
      StepIdForRecipient(rest, i - 1);
    }
  }

  /** The steps a sequential reading can execute: some of the plan's, by distinct recipients. */
  ghost predicate Executable(plan: Planning.Plan, c: seq<Planning.Step>) {
    && Planning.Distinct(Planning.Recipients(c))
    && forall i | 0 <= i < |c| :: c[i].recipient in SUMMARY_KEYS && StepIdFor(plan.steps, c[i].recipient) == Some(c[i].stepId)
  }

  lemma LoopUnfolds(work: Work, plan: Planning.Plan, t: GraphState, route: string, stepId: string)
    requires FirstUnexecuted(t.routes, t.executed) == Some(route) && StepIdFor(plan.steps, route) == Some(stepId)
    ensures DispatchLoop(work, plan, t)
         == DispatchLoop(work, plan, Round(work, t, route, stepId, Dispatch(plan, t).trace))
  {
    assert Dispatch(plan, t)
        == t.(current := Some(route), planStepId := Some(stepId), trace := Dispatch(plan, t).trace);
  }

  /** One round of the loop executes the selected step and leaves the loop's result as it was. */
  lemma LoopRound(
    work: Work, plan: Planning.Plan, base: GraphState, t: GraphState, front: seq<Planning.Step>, step: Planning.Step
  ) returns (after: GraphState)
    requires HasExecuted(work, base, t, front) && step.recipient in SUMMARY_KEYS && step.metadata == map[]
    requires FirstUnexecuted(t.routes, t.executed) == Some(step.recipient)
    requires StepIdFor(plan.steps, step.recipient) == Some(step.stepId)
    ensures HasExecuted(work, base, after, front + [step])
    ensures DispatchLoop(work, plan, t) == DispatchLoop(work, plan, after)
  {
    var trace := Dispatch(plan, t).trace;
    DispatchKeepsProjection(plan, t);
    LoopUnfolds(work, plan, t, step.recipient, step.stepId);
    RoundPatch(work, t, step, trace);
    RoundExecutes(work, base, t, front, step, trace);
    after := AfterRound(t, step, EffectOf(work, base.request, step), trace);
  }

  lemma LoopEnds(work: Work, plan: Planning.Plan, base: GraphState, t: GraphState, c: seq<Planning.Step>)
    requires HasExecuted(work, base, t, c) && FirstUnexecuted(t.routes, t.executed).None?
    ensures HasExecuted(work, base, DispatchLoop(work, plan, t), c)
  {
    DispatchKeepsProjection(plan, t);
    assert DispatchLoop(work, plan, t) == Dispatch(plan, t);
  }

  /** A state on the loop's way that has executed the first k steps. */
  ghost predicate OnTheWay(
    work: Work, plan: Planning.Plan, base: GraphState, steps: seq<Planning.Step>, k: nat, t: GraphState
  ) {
    && k <= |steps| && HasExecuted(work, base, t, steps[..k])
    && DispatchLoop(work, plan, t) == DispatchLoop(work, plan, base)
  }

  ghost function Passes(work: Work, plan: Planning.Plan, base: GraphState, steps: seq<Planning.Step>): nat -> bool {
    (k: nat) => exists t :: OnTheWay(work, plan, base, steps, k, t)
  }

  lemma NextRound(work: Work, plan: Planning.Plan, base: GraphState, steps: seq<Planning.Step>, k: nat)
    requires k < |steps| && Executable(plan, steps) && base.routes == Planning.Recipients(steps)
    requires forall x | x in steps :: x.metadata == map[]
    ensures Passes(work, plan, base, steps)(k) ==> Passes(work, plan, base, steps)(k + 1)
  {
    if t :| OnTheWay(work, plan, base, steps, k, t) {
      TakeOneMore(steps, k);
      NextIs(plan, t, steps, k);
      assert steps[k] in steps;
      var after := LoopRound(work, plan, base, t, steps[..k], steps[k]);
      assert OnTheWay(work, plan, base, steps, k + 1, after);
    }
  }

  lemma StartsWithNothing(work: Work, plan: Planning.Plan, base: GraphState, steps: seq<Planning.Step>)
    requires HasExecuted(work, base, base, [])
    ensures Passes(work, plan, base, steps)(0)
  {
    assert steps[..0] == [];
    assert OnTheWay(work, plan, base, steps, 0, base);
  }

  lemma EndsWithAll(work: Work, plan: Planning.Plan, base: GraphState, steps: seq<Planning.Step>)
    requires Executable(plan, steps) && base.routes == Planning.Recipients(steps)
    requires Passes(work, plan, base, steps)(|steps|)
    ensures HasExecuted(work, base, DispatchLoop(work, plan, base), steps)
  {
    var t :| OnTheWay(work, plan, base, steps, |steps|, t);
    TakeAll(steps);
    NextIs(plan, t, steps, |steps|);
    LoopEnds(work, plan, base, t, steps);
  }

  lemma LoopPasses(work: Work, plan: Planning.Plan, base: GraphState, steps: seq<Planning.Step>)
    requires Executable(plan, steps) && base.routes == Planning.Recipients(steps)
    requires forall x | x in steps :: x.metadata == map[]
    requires Passes(work, plan, base, steps)(0)
    ensures Passes(work, plan, base, steps)(|steps|)
  {
    var passes := Passes(work, plan, base, steps);
    forall k: nat | k < |steps| ensures passes(k) ==> passes(k + 1) {
      NextRound(work, plan, base, steps, k);
    }
    UpTo(passes, |steps|);
  }

  /** From a state that has executed nothing, the loop executes all the steps of its routes. */
  lemma LoopExecutesAll(work: Work, plan: Planning.Plan, base: GraphState, steps: seq<Planning.Step>)
    requires Executable(plan, steps) && base.routes == Planning.Recipients(steps)
    requires forall x | x in steps :: x.metadata == map[]
    requires HasExecuted(work, base, base, [])
    ensures HasExecuted(work, base, DispatchLoop(work, plan, base), steps)
  {
    StartsWithNothing(work, plan, base, steps);
    LoopPasses(work, plan, base, steps);
    EndsWithAll(work, plan, base, steps);
  }

  lemma NextIs(plan: Planning.Plan, t: GraphState, steps: seq<Planning.Step>, k: nat)
    requires k <= |steps| && Executable(plan, steps) && t.routes == Planning.Recipients(steps)
    requires t.executed == Planning.Recipients(steps[..k])
    ensures FirstUnexecuted(t.routes, t.executed) == if k == |steps| then None else Some(steps[k].recipient)
  {
    var routes := Planning.Recipients(steps);
    assert t.executed == routes[..k];
    assert routes[0..] == routes;
    FirstUnexecutedAfter(routes, k, 0);
  }

  lemma DispatchKeepsProjection(plan: Planning.Plan, t: GraphState)
    ensures Project(Dispatch(plan, t).trace) == Project(t.trace)
  {
    var trace := Dispatch(plan, t).trace;
    assert trace == t.trace + [trace[|t.trace|]];
    ProjectAppend(t.trace, trace[|t.trace|]);
    assert Project(t.trace) + [] == Project(t.trace);
  }

  // ---------- the refinement ----------

  /** The sequential reading of some of the plan's steps. */
  function SequentialRead(work: Work, s: GraphState, plan: Planning.Plan, c: seq<Planning.Step>): GraphState {
    DispatchLoop(work, plan, s.(routes := Planning.Recipients(c)))
  }

  /** Graph state as the supervisor leaves it: nothing executed, nothing accumulated. */
  predicate BeforeReading(s: GraphState) {
    s.executed == [] && s.toolCalls == [] && s.usage == [] && s.stepMetadata == map[] && s.evidence.None?
  }

  lemma CompletedStepsAreExecutable(plan: Planning.Plan, runs: seq<StepRun>)
    requires |runs| == |plan.steps| && Registered(plan) && Planning.Distinct(Planning.Recipients(plan.steps))
    ensures Executable(plan, CompletedSteps(plan.steps, runs))
  {
    var c := CompletedSteps(plan.steps, runs);
    CompletedAreDistinct(plan.steps, runs);
    forall i | 0 <= i < |c| ensures StepIdFor(plan.steps, c[i].recipient) == Some(c[i].stepId) {
      assert c[i] in c;
      var j :| 0 <= j < |plan.steps| && plan.steps[j] == c[i];
      StepIdForRecipient(plan.steps, j);
    }
  }

  lemma {:induction false} CompletedAreDistinct(steps: seq<Planning.Step>, runs: seq<StepRun>)
    requires |steps| == |runs| && Planning.Distinct(Planning.Recipients(steps))
    ensures Planning.Distinct(Planning.Recipients(CompletedSteps(steps, runs)))
  {
    if steps != [] {
      var n := |steps| - 1;
      forall i, j | 0 <= i < j < n ensures Planning.Recipients(steps[..n])[i] != Planning.Recipients(steps[..n])[j] {
        assert Planning.Recipients(steps)[i] != Planning.Recipients(steps)[j];
      }
      CompletedAreDistinct(steps[..n], runs[..n]);
      var front := CompletedSteps(steps[..n], runs[..n]);
      forall i | 0 <= i < |front| ensures front[i].recipient != steps[n].recipient {
        assert front[i] in steps[..n];
        var k :| 0 <= k < n && steps[k] == front[i];
        assert Planning.Recipients(steps)[k] != Planning.Recipients(steps)[n];
      }
    }
  }

  /** In closed form, the sequential reading of the steps that completed. */
  lemma SequentialReadInClosedForm(work: Work, s: GraphState, plan: Planning.Plan, c: seq<Planning.Step>)
    requires Executable(plan, c) && BeforeReading(s)
    ensures HasExecuted(work, s.(routes := Planning.Recipients(c)), SequentialRead(work, s, plan, c), Bare(c))
  {
    var base := s.(routes := Planning.Recipients(c));
    assert Project(base.trace) + [] == Project(base.trace);
    assert base.safetyFlags + [] == base.safetyFlags;
    assert Planning.Recipients(Bare(c)) == Planning.Recipients(c);
    assert base.summaries + map[] == base.summaries;
    LoopExecutesAll(work, plan, base, Bare(c));
  }

  /** The step's specialist is asked the message itself. */
  predicate AsksMessage(step: Planning.Step, request: Request) {
    Query(step.recipient, step.metadata, request) == LastMessage(request)
  }

  lemma LastOfBare(work: Work, request: Request, c: seq<Planning.Step>)
    requires c != [] && forall x | x in c :: AsksMessage(x, request)
    ensures var n := |c| - 1;
            && |Bare(c)| == |c| && Bare(c)[..n] == Bare(c[..n]) && Bare(c)[n].recipient == c[n].recipient
            && EffectOf(work, request, Bare(c)[n]) == EffectOf(work, request, c[n])
            && StepRecord(work, request, Bare(c)[n]) == StepRecord(work, request, c[n])
  {
    assert AsksMessage(c[|c| - 1], request);
  }

  lemma {:induction false} SameToolsAndFlags(work: Work, request: Request, c: seq<Planning.Step>)
    requires forall x | x in c :: AsksMessage(x, request)
    ensures Tools(work, request, Bare(c)) == Tools(work, request, c)
    ensures Flags(work, request, Bare(c)) == Flags(work, request, c)
  {
    if c != [] {
      SameToolsAndFlags(work, request, c[..|c| - 1]);
      LastOfBare(work, request, c);
    }
  }

  lemma {:induction false} SameSummaries(work: Work, request: Request, c: seq<Planning.Step>)
    requires forall x | x in c :: AsksMessage(x, request)
    ensures Summaries(work, request, Bare(c)) == Summaries(work, request, c)
  {
    if c != [] {
      SameSummaries(work, request, c[..|c| - 1]);
      LastOfBare(work, request, c);
    }
  }

  lemma {:induction false} SameRecords(work: Work, request: Request, c: seq<Planning.Step>)
    requires forall x | x in c :: AsksMessage(x, request)
    ensures Records(work, request, Bare(c)) == Records(work, request, c)
  {
    if c != [] {
      SameRecords(work, request, c[..|c| - 1]);
      LastOfBare(work, request, c);
    }
  }

  /** Without a query focus the two paths set the specialists the same tasks. */
  lemma SameContributions(work: Work, request: Request, c: seq<Planning.Step>)
    requires forall x | x in c :: AsksMessage(x, request)
    ensures Tools(work, request, Bare(c)) == Tools(work, request, c)
    ensures Flags(work, request, Bare(c)) == Flags(work, request, c)
    ensures Summaries(work, request, Bare(c)) == Summaries(work, request, c)
    ensures Records(work, request, Bare(c)) == Records(work, request, c)
  {
    SameToolsAndFlags(work, request, c);
    SameSummaries(work, request, c);
    SameRecords(work, request, c);
  }

  lemma {:induction false} SameUsagesAndEvidence(work: Work, request: Request, c: seq<Planning.Step>)
    requires forall x | x in c :: AsksMessage(x, request)
    ensures UsagesOf(work, request, Bare(c)) == UsagesOf(work, request, c)
    ensures LastEvidence(work, request, Bare(c), None) == LastEvidence(work, request, c, None)
  {
    if c != [] {
      SameUsagesAndEvidence(work, request, c[..|c| - 1]);
      LastOfBare(work, request, c);
    }
  }

  /** Agreement of a parallel and a sequential reading, flags aside. */
  predicate SameOutcome(s: GraphState, parallel: Merged, sequential: GraphState) {
    && parallel.executed == sequential.executed
    && parallel.toolCalls == sequential.toolCalls
    && s.summaries + parallel.summaries == sequential.summaries
    && Project(parallel.trace) == Project(sequential.trace)
  }

  /** Refinement: for every deterministic work of the specialists, every schedule and every pattern of
      failures, the fan-in equals the sequential dispatcher's reading of the completed steps in executed
      routes, tool calls, summaries and projected trace, provided no completed step carries a focus. The
      safety flags agree exactly when the flags raised are new: the dispatcher path appends them
      without looking, the fan-in only once. */
  lemma ParallelRefinesSequential(work: Work, s: GraphState, plan: Planning.Plan, runs: seq<StepRun>)
    requires Planning.WellFormedPlan(plan) && Registered(plan) && Planning.Distinct(Planning.Recipients(plan.steps))
    requires PossibleRuns(work, s, plan, runs) && BeforeReading(s)
    requires forall x | x in CompletedSteps(plan.steps, runs) :: AsksMessage(x, s.request)
    ensures var c := CompletedSteps(plan.steps, runs);
            var parallel, sequential := ParallelRead(s, plan, runs), SequentialRead(work, s, plan, c);
            && parallel.Ok? && SameOutcome(s, parallel.value, sequential)
            && ((parallel.value.safetyFlags == sequential.safetyFlags) == AllNew(s.safetyFlags, Flags(work, s.request, c)))
  {
    var c := CompletedSteps(plan.steps, runs);
    ParallelReadInClosedForm(work, s, plan, runs);
    CompletedStepsAreExecutable(plan, runs);
    SequentialReadInClosedForm(work, s, plan, c);
    SameContributions(work, s.request, c);
    AppendUniqueIsAppend(s.safetyFlags, Flags(work, s.request, c));
    var parallel, sequential := ParallelRead(s, plan, runs).value, SequentialRead(work, s, plan, c);
    assert Planning.Recipients(Bare(c)) == Planning.Recipients(c);
    assert [] + Tools(work, s.request, c) == Tools(work, s.request, c);
  }

  // ---------- usage and evidence ----------

  /** The step answers at its first attempt. */
  ghost predicate AnswersAtOnce(work: Work, s: GraphState, step: Planning.Step, run: StepRun) {
    var handled := StepHandler(work, s)(step);
    run == StepRun(Completed, Some(handled), Some(AggregateUsage([handled.usage])), 1, None)
  }

  /** It is what a first attempt that answers leads to, whatever the retry policy. */
  lemma FirstAnswerIsARun(work: Work, s: GraphState, step: Planning.Step, script: Script)
    requires script.attempt(1).Answers?
    ensures AnswersAtOnce(work, s, step, RunAttempts(step.retryPolicy, StepHandler(work, s)(step), script, 0, []))
  {
  }

  /** Every step answers at its first attempt or, refused or cancelled, has used nothing: no attempt
      that was paid for went wrong. */
  ghost predicate NoneWasted(work: Work, s: GraphState, plan: Planning.Plan, runs: seq<StepRun>) {
    && |runs| == |plan.steps|
    && forall i | 0 <= i < |runs| :: NotWasted(work, s, plan.steps[i], runs[i])
  }

  ghost predicate NotWasted(work: Work, s: GraphState, step: Planning.Step, run: StepRun) {
    || AnswersAtOnce(work, s, step, run)
    || (run.status != Completed && run.answer.None? && run.usage.None?)
  }

  function Resolved(u: Usage): Usage { u.(totalTokens := KnownTotal(u)) }

  function ResolveAll(us: seq<Usage>): (r: seq<Usage>)
    ensures |r| == |us| && forall i | 0 <= i < |r| :: r[i] == Resolved(us[i])
  {
    seq(|us|, i requires 0 <= i < |us| => Resolved(us[i]))
  }

  lemma UsageOfAnswer(work: Work, s: GraphState, step: Planning.Step, run: StepRun)
    requires NotWasted(work, s, step, run)
    ensures run.usage == if run.status == Completed then Some(Resolved(EffectOf(work, s.request, step).usage)) else None
  {
  }

  lemma ResolveAllConcat(us: seq<Usage>, u: Usage)
    ensures ResolveAll(us + [u]) == ResolveAll(us) + [Resolved(u)]
  {
  }

  lemma {:induction false} FanInUsages(
    work: Work, s: GraphState, steps: seq<Planning.Step>, runs: seq<StepRun>, byId: map<string, StepResult>
  )
    requires |steps| == |runs| && forall i | 0 <= i < |runs| :: NotWasted(work, s, steps[i], runs[i])
    requires forall i | 0 <= i < |runs| :: steps[i].stepId in byId && byId[steps[i].stepId].usage == runs[i].usage
    requires forall x | x in steps :: x.stepId in byId
    ensures Usages(steps, byId) == ResolveAll(UsagesOf(work, s.request, CompletedSteps(steps, runs)))
  {
    if steps != [] {
      var n := |steps| - 1;
      var front := CompletedSteps(steps[..n], runs[..n]);
      FanInUsages(work, s, steps[..n], runs[..n], byId);
      UsageOfAnswer(work, s, steps[n], runs[n]);
      FoldsGrow(work, s.request, front, steps[n]);
      ResolveAllConcat(UsagesOf(work, s.request, front), EffectOf(work, s.request, steps[n]).usage);
      assert front + [] == front;
    }
  }

  lemma NoneWastedIsPossible(work: Work, s: GraphState, plan: Planning.Plan, runs: seq<StepRun>)
    requires NoneWasted(work, s, plan, runs)
    ensures PossibleRuns(work, s, plan, runs)
  {
    forall i | 0 <= i < |runs| ensures PossibleAnswer(StepHandler(work, s)(plan.steps[i]), runs[i]) {
      assert NotWasted(work, s, plan.steps[i], runs[i]);
    }
  }

  lemma FanInUsageIs(work: Work, s: GraphState, plan: Planning.Plan, runs: seq<StepRun>)
    requires Planning.WellFormedPlan(plan) && NoneWasted(work, s, plan, runs)
    requires ParallelRead(s, plan, runs).Ok?
    ensures ParallelRead(s, plan, runs).value.usage
         == ResolveAll(UsagesOf(work, s.request, CompletedSteps(plan.steps, runs)))
  {
    NoneWastedIsPossible(work, s, plan, runs);
    AggregateAgrees(work, s, plan, runs);
    var result := AggregatePlanResult(plan, runs);
    var byId := ResultsById(result.stepResults);
    forall i | 0 <= i < |runs| ensures plan.steps[i].stepId in byId && byId[plan.steps[i].stepId].usage == runs[i].usage {
      assert AgreesAt(work, s, plan.steps[i], runs[i], byId, result.outputs);
    }
    FanInUsages(work, s, plan.steps, runs, byId);
    MergeKeepsUsage(EmptyMerge(s, plan, result), plan.steps, byId, result.outputs);
  }

  lemma ResolvedIsIdentity(us: seq<Usage>)
    ensures ResolveAll(us) == us <==> forall u | u in us :: u == Resolved(u)
  {
    if ResolveAll(us) == us {
      forall u | u in us ensures u == Resolved(u) {
        var i :| 0 <= i < |us| && us[i] == u;
        assert ResolveAll(us)[i] == Resolved(us[i]);
      }
    }
  }

  /** When no attempt was wasted, the fan-in's usage is the dispatcher's on the completed steps with each
      unknown total that is known from its parts filled in; so the two agree exactly when no usage has
      such a total. */
  lemma UsageAgreement(work: Work, s: GraphState, plan: Planning.Plan, runs: seq<StepRun>)
    requires Planning.WellFormedPlan(plan) && Registered(plan) && Planning.Distinct(Planning.Recipients(plan.steps))
    requires NoneWasted(work, s, plan, runs) && BeforeReading(s)
    requires forall x | x in CompletedSteps(plan.steps, runs) :: AsksMessage(x, s.request)
    ensures var parallel := ParallelRead(s, plan, runs);
            var sequential := SequentialRead(work, s, plan, CompletedSteps(plan.steps, runs));
            && parallel.Ok?
            && parallel.value.usage == ResolveAll(sequential.usage)
            && ((parallel.value.usage == sequential.usage) == forall u | u in sequential.usage :: u == Resolved(u))
  {
    var c := CompletedSteps(plan.steps, runs);
    NoneWastedIsPossible(work, s, plan, runs);
    ParallelReadInClosedForm(work, s, plan, runs);
    FanInUsageIs(work, s, plan, runs);
    CompletedStepsAreExecutable(plan, runs);
    SequentialReadInClosedForm(work, s, plan, c);
    SameUsagesAndEvidence(work, s.request, c);
    var usages := UsagesOf(work, s.request, c);
    assert [] + usages == usages;
    ResolvedIsIdentity(usages);
  }

  lemma RunEvidence(work: Work, s: GraphState, step: Planning.Step, run: StepRun)
    requires PossibleAnswer(StepHandler(work, s)(step), run) && run.status == Completed
    ensures run.answer.value.evidence
         == if step.recipient == "rag_agent" then EffectOf(work, s.request, step).evidence else []
  {
  }

  lemma DistinctFront(steps: seq<Planning.Step>)
    requires steps != [] && Planning.Distinct(Planning.Recipients(steps))
    ensures var n := |steps| - 1;
            && Planning.Distinct(Planning.Recipients(steps[..n]))
            && forall x | x in steps[..n] :: x.recipient != steps[n].recipient
  {
    var n := |steps| - 1;
    forall i, j | 0 <= i < j < n ensures Planning.Recipients(steps[..n])[i] != Planning.Recipients(steps[..n])[j] {
      assert Planning.Recipients(steps)[i] != Planning.Recipients(steps)[j];
    }
    forall x | x in steps[..n] ensures x.recipient != steps[n].recipient {
      var k :| 0 <= k < n && steps[k] == x;
      assert Planning.Recipients(steps)[k] != Planning.Recipients(steps)[n];
    }
  }

  lemma {:induction false} NoRagNoEvidence(work: Work, request: Request, steps: seq<Planning.Step>)
    requires forall x | x in steps :: x.recipient != "rag_agent"
    ensures LastEvidence(work, request, steps, None).None?
  {
    if steps != [] {
      NoRagNoEvidence(work, request, steps[..|steps| - 1]);
    }
  }

  lemma {:induction false} CollectedEvidence(work: Work, s: GraphState, steps: seq<Planning.Step>, runs: seq<StepRun>)
    requires |steps| == |runs| && Planning.Distinct(Planning.Recipients(steps))
    requires forall i | 0 <= i < |runs| :: PossibleAnswer(StepHandler(work, s)(steps[i]), runs[i])
    ensures CollectReferences(runs)
         == AddReferences([], LastEvidence(work, s.request, CompletedSteps(steps, runs), None).GetOr([]))
  {
    if steps != [] {
      var n := |steps| - 1;
      var front := CompletedSteps(steps[..n], runs[..n]);
      DistinctFront(steps);
      CollectedEvidence(work, s, steps[..n], runs[..n]);
      if runs[n].status == Completed {
        RunEvidence(work, s, steps[n], runs[n]);
        FoldsGrow(work, s.request, front, steps[n]);
        if steps[n].recipient == "rag_agent" {
          NoRagNoEvidence(work, s.request, front);
        }
      } else {
        assert front + [] == front;
      }
    }
  }

  /** Under every schedule and pattern of failures, the evidence of the fan-in is the dispatcher's on the
      completed steps, each reference once. */
  lemma EvidenceAgreement(work: Work, s: GraphState, plan: Planning.Plan, runs: seq<StepRun>)
    requires Planning.WellFormedPlan(plan) && Registered(plan) && Planning.Distinct(Planning.Recipients(plan.steps))
    requires PossibleRuns(work, s, plan, runs) && BeforeReading(s)
    requires forall x | x in CompletedSteps(plan.steps, runs) :: AsksMessage(x, s.request)
    ensures var parallel := ParallelRead(s, plan, runs);
            var sequential := SequentialRead(work, s, plan, CompletedSteps(plan.steps, runs));
            parallel.Ok? && parallel.value.evidence == AddReferences([], sequential.evidence.GetOr([]))
  {
    var c := CompletedSteps(plan.steps, runs);
    ParallelReadInClosedForm(work, s, plan, runs);
    FanInEvidence(s, plan, runs);
    CompletedStepsAreExecutable(plan, runs);
    SequentialReadInClosedForm(work, s, plan, c);
    SameUsagesAndEvidence(work, s.request, c);
    CollectedEvidence(work, s, plan.steps, runs);
  }

  // ---------- positions in the trace ----------

  ghost predicate Positioned(trace: seq<TraceItem>) {
    forall i | 0 <= i < |trace| :: At(trace[i], i + 1)
  }

  predicate At(item: TraceItem, position: int) {
    item.Entry? && "index" in item.fields && item.fields["index"] == Num(position)
  }

  lemma AppendKeepsPositions(trace: seq<TraceItem>, node: string, event: string, detail: Record)
    requires Positioned(trace)
    ensures Positioned(AppendAgentStep(trace, node, event, detail))
  {
    var after := AppendAgentStep(trace, node, event, detail);
    forall i | 0 <= i < |after| ensures At(after[i], i + 1) {
      if i < |trace| {
        assert At(trace[i], i + 1);
      }
    }
  }

  /** The dispatcher loop keeps every record's index at its position, from 1 and without gaps. */
  lemma {:induction false} LoopKeepsPositions(work: Work, plan: Planning.Plan, s: GraphState)
    requires Positioned(s.trace)
    ensures Positioned(DispatchLoop(work, plan, s).trace)
    decreases Unexecuted(s)
  {
    var selected := Dispatch(plan, s);
    DispatchKeepsPositions(plan, s);
    if selected.current.Some? {
      var route := selected.current.value;
      var effect := work(TaskOf(route, selected.planStepId, selected.stepMetadata, selected.request));
      AppendKeepsPositions(selected.trace, route, effect.event, effect.detail);
      var next := ApplyPatch(selected, SpecialistNode(work, route, selected));
      assert route in Unexecuted(s) && route !in Unexecuted(next);
      LoopKeepsPositions(work, plan, next);
    }
  }

  lemma DispatchKeepsPositions(plan: Planning.Plan, s: GraphState)
    requires Positioned(s.trace)
    ensures Positioned(Dispatch(plan, s).trace)
  {
    match FirstUnexecuted(s.routes, s.executed)
    case Some(route) =>
      AppendKeepsPositions(s.trace, "route_dispatcher", "selected_route",
        map["selected_route" := Txt(route), "executed_routes" := Txts(s.executed)]);
    case None =>
      AppendKeepsPositions(s.trace, "route_dispatcher", "selected_decision_agent",
        map["executed_routes" := Txts(s.executed)]);
  }

  lemma {:induction false} AppendTraceKeepsPositions(trace: seq<TraceItem>, items: seq<TraceItem>, stepId: string)
    requires Positioned(trace)
    ensures Positioned(AppendTrace(trace, items, stepId))
    decreases |items|
  {
    if items != [] && items[0].Entry? {
      var next := trace + [Renumbered(trace, items[0].fields, stepId)];
      forall i | 0 <= i < |next| ensures At(next[i], i + 1) {
        if i < |trace| {
          assert At(trace[i], i + 1);
        }
      }
      AppendTraceKeepsPositions(next, items[1..], stepId);
    } else if items != [] {
      AppendTraceKeepsPositions(trace, items[1..], stepId);
    }
  }

  /** So does the fan-in, whatever traces the outputs carry. */
  lemma {:induction false} MergeKeepsPositions(
    m: Merged, steps: seq<Planning.Step>, byId: map<string, StepResult>, outputs: map<string, StepOutput>
  )
    requires (forall x | x in steps :: x.stepId in byId) && Positioned(m.trace)
    ensures Positioned(MergeSteps(m, steps, byId, outputs).trace)
  {
    if steps != [] {
      var step, front := steps[|steps| - 1], steps[..|steps| - 1];
      MergeKeepsPositions(m, front, byId, outputs);
      var out := if step.stepId in outputs then outputs[step.stepId] else NO_OUTPUT;
      AppendTraceKeepsPositions(MergeSteps(m, front, byId, outputs).trace, out.trace, step.stepId);
    }
  }

  // ---------- where the paths differ ----------

  /** Specialists whose tool call tells whether they were asked the message or something else. */
  function Probe(message: string): Work {
    (t: Task) =>
      Effect("", [if t.query == message then "message" else "focus"], [], "completed", map[],
             Usage(None, None, None, None, 0, 0), [])
  }

  function RunAtOnce(work: Work, s: GraphState, step: Planning.Step): (run: StepRun)
    ensures AnswersAtOnce(work, s, step, run)
  {
    var handled := StepHandler(work, s)(step);
    StepRun(Completed, Some(handled), Some(AggregateUsage([handled.usage])), 1, None)
  }

  function RunsAtOnce(work: Work, s: GraphState, plan: Planning.Plan): (runs: seq<StepRun>)
    ensures |runs| == |plan.steps| && forall i | 0 <= i < |runs| :: AnswersAtOnce(work, s, plan.steps[i], runs[i])
  {
    seq(|plan.steps|, i requires 0 <= i < |plan.steps| => RunAtOnce(work, s, plan.steps[i]))
  }

  /** Every step completes, after however many attempts. */
  ghost predicate AllComplete(work: Work, s: GraphState, plan: Planning.Plan, runs: seq<StepRun>) {
    PossibleRuns(work, s, plan, runs) && forall i | 0 <= i < |runs| :: runs[i].status == Completed
  }

  lemma {:induction false} AllCompleted(steps: seq<Planning.Step>, runs: seq<StepRun>)
    requires |steps| == |runs| && forall i | 0 <= i < |runs| :: runs[i].status == Completed
    ensures CompletedSteps(steps, runs) == steps
  {
    if steps != [] {
      var n := |steps| - 1;
      AllCompleted(steps[..n], runs[..n]);
      assert steps[..n] + [steps[n]] == steps;
    }
  }

  lemma AtOnceIsComplete(work: Work, s: GraphState, plan: Planning.Plan)
    ensures AllComplete(work, s, plan, RunsAtOnce(work, s, plan))
  {
    var runs := RunsAtOnce(work, s, plan);
    forall i | 0 <= i < |runs| ensures PossibleAnswer(StepHandler(work, s)(plan.steps[i]), runs[i]) && runs[i].status == Completed {
      assert AnswersAtOnce(work, s, plan.steps[i], runs[i]);
    }
  }

  lemma ToolCallsOfBothPaths(work: Work, s: GraphState, plan: Planning.Plan)
    requires Planning.WellFormedPlan(plan) && Registered(plan) && Planning.Distinct(Planning.Recipients(plan.steps))
    requires BeforeReading(s)
    ensures ParallelRead(s, plan, RunsAtOnce(work, s, plan)).Ok?
    ensures ParallelRead(s, plan, RunsAtOnce(work, s, plan)).value.toolCalls == Tools(work, s.request, plan.steps)
    ensures SequentialRead(work, s, plan, plan.steps).toolCalls == Tools(work, s.request, Bare(plan.steps))
  {
    var runs := RunsAtOnce(work, s, plan);
    AtOnceIsComplete(work, s, plan);
    AllCompleted(plan.steps, runs);
    ParallelReadInClosedForm(work, s, plan, runs);
    CompletedStepsAreExecutable(plan, runs);
    SequentialReadInClosedForm(work, s, plan, plan.steps);
    assert [] + Tools(work, s.request, Bare(plan.steps)) == Tools(work, s.request, Bare(plan.steps));
  }

  /** A focus that reaches a specialist is lost on the dispatcher's path: there are specialists that
      make other tool calls because of it. So the absence of such a focus is exactly what equivalence
      for all specialists needs. */
  lemma FocusSeparatesThePaths(s: GraphState, plan: Planning.Plan, k: nat)
    requires Planning.WellFormedPlan(plan) && Registered(plan) && Planning.Distinct(Planning.Recipients(plan.steps))
    requires BeforeReading(s) && k < |plan.steps| && !AsksMessage(plan.steps[k], s.request)
    ensures var work := Probe(LastMessage(s.request));
            var parallel := ParallelRead(s, plan, RunsAtOnce(work, s, plan));
            parallel.Ok? && parallel.value.toolCalls != SequentialRead(work, s, plan, plan.steps).toolCalls
  {
    var work := Probe(LastMessage(s.request));
    ToolCallsOfBothPaths(work, s, plan);
    OneToolEach(work, s.request, plan.steps, k);
    OneToolEach(work, s.request, Bare(plan.steps), k);
  }

  lemma {:induction false} OneToolEach(work: Work, request: Request, steps: seq<Planning.Step>, k: nat)
    requires k < |steps| && forall t: Task :: |work(t).tools| == 1
    ensures |Tools(work, request, steps)| == |steps|
    ensures Tools(work, request, steps)[k] == EffectOf(work, request, steps[k]).tools[0]
  {
    var n := |steps| - 1;
    if k < n {
      OneToolEach(work, request, steps[..n], k);
    } else if n > 0 {
      OneToolEach(work, request, steps[..n], n - 1);
    }
  }

  // ---------- the choice of path ----------

  /** next_execution_path. */
  predicate TakesParallelPath(plan: Planning.Plan) {
    plan.mode == Planning.BoundedParallel
    || exists x | x in plan.steps :: x.retryPolicy.owner == Planning.PlanExecutorRetries
  }

  datatype Observed = Observed(
    executed: seq<string>, toolCalls: seq<string>, summaries: map<string, string>, trace: seq<TraceItem>,
    safetyFlags: seq<string>
  )

  /** What reading a plan leaves for the decision agent, by whichever path the plan takes. */
  function Read(work: Work, s: GraphState, plan: Planning.Plan, runs: seq<StepRun>): Observed
    requires |runs| == |plan.steps| && ParallelRead(s, plan, runs).Ok?
  {
    if TakesParallelPath(plan) then
      var m := ParallelRead(s, plan, runs).value;
      Observed(m.executed, m.toolCalls, s.summaries + m.summaries, Project(m.trace), m.safetyFlags)
    else
      var t := SequentialRead(work, s, plan, plan.steps);
      Observed(t.executed, t.toolCalls, t.summaries, Project(t.trace), t.safetyFlags)
  }

  /** What the steps contribute to the state, written out. */
  function ClosedReading(work: Work, s: GraphState, steps: seq<Planning.Step>, flags: seq<string>): Observed {
    Observed(Planning.Recipients(steps), Tools(work, s.request, steps), s.summaries + Summaries(work, s.request, steps),
             Project(s.trace) + Records(work, s.request, steps), flags)
  }

  /** The flags after a reading: the fan-in adds each new one once, the dispatcher appends them all. */
  function FlagsRead(work: Work, s: GraphState, plan: Planning.Plan): seq<string> {
    var flags := Flags(work, s.request, plan.steps);
    if TakesParallelPath(plan) then AppendUnique(s.safetyFlags, flags) else s.safetyFlags + flags
  }

  lemma ParallelObserved(work: Work, s: GraphState, plan: Planning.Plan, runs: seq<StepRun>)
    requires Planning.WellFormedPlan(plan) && Registered(plan) && AllComplete(work, s, plan, runs) && BeforeReading(s)
    ensures ParallelRead(s, plan, runs).Ok?
    ensures var m := ParallelRead(s, plan, runs).value;
            Observed(m.executed, m.toolCalls, s.summaries + m.summaries, Project(m.trace), m.safetyFlags)
            == ClosedReading(work, s, plan.steps, AppendUnique(s.safetyFlags, Flags(work, s.request, plan.steps)))
  {
    AllCompleted(plan.steps, runs);
    ParallelReadInClosedForm(work, s, plan, runs);
  }

  lemma SequentialObserved(work: Work, s: GraphState, plan: Planning.Plan)
    requires Planning.WellFormedPlan(plan) && Registered(plan) && Planning.Distinct(Planning.Recipients(plan.steps))
    requires BeforeReading(s) && forall x | x in plan.steps :: AsksMessage(x, s.request)
    ensures var t := SequentialRead(work, s, plan, plan.steps);
            Observed(t.executed, t.toolCalls, t.summaries, Project(t.trace), t.safetyFlags)
            == ClosedReading(work, s, plan.steps, s.safetyFlags + Flags(work, s.request, plan.steps))
  {
    var steps := plan.steps;
    PlanIsExecutable(plan);
    SequentialReadInClosedForm(work, s, plan, steps);
    SameContributions(work, s.request, steps);
    assert Planning.Recipients(Bare(steps)) == Planning.Recipients(steps);
    assert [] + Tools(work, s.request, steps) == Tools(work, s.request, steps);
  }

  lemma PlanIsExecutable(plan: Planning.Plan)
    requires Registered(plan) && Planning.Distinct(Planning.Recipients(plan.steps))
    ensures Executable(plan, plan.steps)
  {
    forall i | 0 <= i < |plan.steps| ensures StepIdFor(plan.steps, plan.steps[i].recipient) == Some(plan.steps[i].stepId) {
      StepIdForRecipient(plan.steps, i);
    }
  }

  /** What a reading of a plan is, by either path, once all its steps completed. */
  lemma ReadInClosedForm(work: Work, s: GraphState, plan: Planning.Plan, runs: seq<StepRun>)
    requires Planning.WellFormedPlan(plan) && Registered(plan) && Planning.Distinct(Planning.Recipients(plan.steps))
    requires AllComplete(work, s, plan, runs) && BeforeReading(s)
    requires forall x | x in plan.steps :: AsksMessage(x, s.request)
    ensures ParallelRead(s, plan, runs).Ok?
    ensures Read(work, s, plan, runs) == ClosedReading(work, s, plan.steps, FlagsRead(work, s, plan))
  {
    ParallelObserved(work, s, plan, runs);
    SequentialObserved(work, s, plan);
  }

  lemma CompiledPlanReads(
    work: Work, s: GraphState, routes: seq<string>, reasons: map<string, string>, uuid5: string -> string,
    settings: Planning.Settings, plan: Planning.Plan, runs: seq<StepRun>
  )
    requires Planning.BuildDeterministicPlan(routes, reasons, settings, uuid5) == Ok(plan)
    requires AllComplete(work, s, plan, runs) && BeforeReading(s)
    ensures ParallelRead(s, plan, runs).Ok?
    ensures Read(work, s, plan, runs) == ClosedReading(work, s, plan.steps, FlagsRead(work, s, plan))
  {
    CompiledPlanIsReadable(routes, reasons, uuid5, settings, plan, s.request);
    ReadInClosedForm(work, s, plan, runs);
  }

  lemma CompiledPlansAskTheSame(
    work: Work, s: GraphState, routes: seq<string>, reasons: map<string, string>, uuid5: string -> string,
    a: Planning.Settings, b: Planning.Settings, planA: Planning.Plan, planB: Planning.Plan, flags: seq<string>
  )
    requires Planning.BuildDeterministicPlan(routes, reasons, a, uuid5) == Ok(planA)
    requires Planning.BuildDeterministicPlan(routes, reasons, b, uuid5) == Ok(planB)
    ensures ClosedReading(work, s, planA.steps, flags) == ClosedReading(work, s, planB.steps, flags)
    ensures Flags(work, s.request, planA.steps) == Flags(work, s.request, planB.steps)
    ensures Planning.Recipients(planA.steps) == routes
  {
    CompiledPlanIsReadable(routes, reasons, uuid5, a, planA, s.request);
    CompiledPlanIsReadable(routes, reasons, uuid5, b, planB, s.request);
    SameTasks(work, s.request, planA.steps, planB.steps);
  }

  /** End to end: compiled from the same routes, two plans whose steps all complete read the same whatever
      their settings for parallelism, workers and retries, their schedules and failed attempts. The safety
      flags are the same too exactly when both plans take the same path or the flags raised are new. */
  lemma ExecutionSettingsDoNotMatter(
    work: Work, s: GraphState, routes: seq<string>, reasons: map<string, string>, uuid5: string -> string,
    a: Planning.Settings, b: Planning.Settings, planA: Planning.Plan, planB: Planning.Plan,
    runsA: seq<StepRun>, runsB: seq<StepRun>
  )
    requires Planning.BuildDeterministicPlan(routes, reasons, a, uuid5) == Ok(planA)
    requires Planning.BuildDeterministicPlan(routes, reasons, b, uuid5) == Ok(planB)
    requires AllComplete(work, s, planA, runsA) && AllComplete(work, s, planB, runsB) && BeforeReading(s)
    ensures ParallelRead(s, planA, runsA).Ok? && ParallelRead(s, planB, runsB).Ok?
    ensures var one, two := Read(work, s, planA, runsA), Read(work, s, planB, runsB);
            && one.executed == routes && one.(safetyFlags := two.safetyFlags) == two
            && (one.safetyFlags == two.safetyFlags <==>
                (TakesParallelPath(planA) <==> TakesParallelPath(planB))
                || AllNew(s.safetyFlags, Flags(work, s.request, planA.steps)))
  {
    CompiledPlansAskTheSame(work, s, routes, reasons, uuid5, a, b, planA, planB, FlagsRead(work, s, planB));
    CompiledPlanReads(work, s, routes, reasons, uuid5, a, planA, runsA);
    CompiledPlanReads(work, s, routes, reasons, uuid5, b, planB, runsB);
    AppendUniqueIsAppend(s.safetyFlags, Flags(work, s.request, planA.steps));
  }

  lemma CompiledPlanIsReadable(
    routes: seq<string>, reasons: map<string, string>, uuid5: string -> string,
    settings: Planning.Settings, plan: Planning.Plan, request: Request
  )
    requires Planning.BuildDeterministicPlan(routes, reasons, settings, uuid5) == Ok(plan)
    ensures Planning.WellFormedPlan(plan) && Registered(plan) && Planning.Distinct(routes)
    ensures Planning.Recipients(plan.steps) == routes
    ensures forall i | 0 <= i < |routes| ::
              plan.steps[i].stepId == Planning.StepId(i + 1, routes[i]) && plan.steps[i].recipient == routes[i]
              && AsksMessage(plan.steps[i], request)
  {
    Planning.CompiledPlanIsWellFormed(routes, reasons, settings, uuid5);
  }

  /** Steps with the same ids and recipients, asked the message itself, contribute the same. */
  lemma {:induction false} SameTasks(work: Work, request: Request, a: seq<Planning.Step>, b: seq<Planning.Step>)
    requires |a| == |b|
    requires forall i | 0 <= i < |a| :: a[i].stepId == b[i].stepId && a[i].recipient == b[i].recipient
    requires forall i | 0 <= i < |a| :: AsksMessage(a[i], request) && AsksMessage(b[i], request)
    ensures Tools(work, request, a) == Tools(work, request, b) && Flags(work, request, a) == Flags(work, request, b)
    ensures Summaries(work, request, a) == Summaries(work, request, b)
    ensures Records(work, request, a) == Records(work, request, b)
  {
    if a != [] {
      var n := |a| - 1;
      SameTasks(work, request, a[..n], b[..n]);
      assert AsksMessage(a[n], request) && AsksMessage(b[n], request);
      assert EffectOf(work, request, a[n]) == EffectOf(work, request, b[n]);
    }
  }
}

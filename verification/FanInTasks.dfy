/** What the steps of a parallel reading are asked and what the fan-in leaves of their answers, written out. */
module FanInTasks {
  import opened Sequences
  import opened Text
  import Planning
  import opened ReadPipeline
  import opened PlanExecutor
  import opened PipelineRefinement
  import opened PathEquivalence
  import opened PathTasks

  // ---------- the fan-in ----------

  lemma {:induction false} AppendUniqueHolds(target: seq<string>, values: seq<string>, v: string)
    ensures v in AppendUnique(target, values) <==> v in target || v in values
    decreases |values|
  {
    if values != [] {
      AppendUniqueHolds(if values[0] in target then target else target + [values[0]], values[1..], v);
    }
  }

  /** One more value is added unless it is there already. */
  lemma EachValueOnce(target: seq<string>, values: seq<string>, v: string)
    ensures AppendUnique(target, []) == target
    ensures AppendUnique(target, values + [v])
         == AppendUnique(target, values) + if v in target || v in values then [] else [v]
  {
    AppendUniqueConcat(target, values, [v]);
    AppendUniqueHolds(target, values, v);
    var before := AppendUnique(target, values);
    ConcatNothing(before);
    assert [v][1..] == [];
  }

  predicate IsKnown(refs: seq<Reference>, r: Reference) {
    exists i | 0 <= i < |refs| :: refs[i].refType == r.refType && refs[i].refId == r.refId && refs[i].scope == r.scope
  }

  lemma KnownOfBoth(a: seq<Reference>, b: seq<Reference>, r: Reference)
    ensures IsKnown(a + b, r) <==> IsKnown(a, r) || IsKnown(b, r)
  {
    var all := a + b;
    assert forall i | 0 <= i < |b| :: all[|a| + i] == b[i];
    assert forall i | 0 <= i < |a| :: all[i] == a[i];
  }

  lemma KnownIs(refs: seq<Reference>, r: Reference)
    ensures (exists q | q in refs :: SameReference(q, r)) <==> IsKnown(refs, r)
  {
    if i :| 0 <= i < |refs| && refs[i].refType == r.refType && refs[i].refId == r.refId && refs[i].scope == r.scope {
      assert refs[i] in refs && SameReference(refs[i], r);
    }
  }

  lemma AddOneMore(seen: seq<Reference>, more: seq<Reference>)
    requires more != []
    ensures AddReferences(seen, more)
         == AddReferences(seen + (if IsKnown(seen, more[0]) then [] else [more[0]]), more[1..])
  {
    KnownIs(seen, more[0]);
    ConcatNothing(seen);
  }

  lemma {:induction false} AddLast(seen: seq<Reference>, more: seq<Reference>, r: Reference)
    ensures AddReferences(seen, more + [r])
         == AddReferences(seen, more) + if IsKnown(seen, r) || IsKnown(more, r) then [] else [r]
    decreases |more|
  {
    AddOneMore(seen, more + [r]);
    if more == [] {
      assert (more + [r])[1..] == [];
    } else {
      var first, rest := more[0], more[1..];
      var next := seen + (if IsKnown(seen, first) then [] else [first]);
      assert (more + [r])[1..] == rest + [r];
      AddOneMore(seen, more);
      AddLast(next, rest, r);
      KnownOfBoth(seen, if IsKnown(seen, first) then [] else [first], r);
      KnownOfBoth([first], rest, r);
      assert more == [first] + rest;
    }
  }

  /** One more reference is added unless one of its type, id and scope was there before. */
  lemma EachReferenceOnce(refs: seq<Reference>, r: Reference)
    ensures AddReferences([], []) == []
    ensures AddReferences([], refs + [r]) == AddReferences([], refs) + if IsKnown(refs, r) then [] else [r]
  {
    AddLast([], refs, r);
  }

  /** What the answers leave of the fan-in. */
  ghost predicate Collected(s: GraphState, r: Merged, c: seq<Planning.Step>, effects: seq<Effect>)
    requires |c| == |effects|
  {
    && AreRoutes(r.executed, c) && r.toolCalls == Flat(effects, ToolsIn) && AreSummaries(map[], r.summaries, c, effects)
    && (forall i | 0 <= i < |c| && c[i].recipient == "rag_agent" ::
          r.safetyFlags == AppendUnique(s.safetyFlags, effects[i].flags)
          && r.evidence == AddReferences([], effects[i].evidence))
    && ((forall i | 0 <= i < |c| :: c[i].recipient != "rag_agent") ==> r.safetyFlags == s.safetyFlags && r.evidence == [])
  }

  lemma HeldIsCollected(work: Work, s: GraphState, r: Merged, c: seq<Planning.Step>, effects: seq<Effect>)
    requires HoldsContributions(work, s, r, c) && AreEffects(work, s.request, c, effects)
    requires Planning.Distinct(Planning.Recipients(c))
    requires r.evidence == AddReferences([], LastEvidence(work, s.request, c, None).GetOr([]))
    ensures Collected(s, r, c, effects)
  {
    ListsAre(work, s.request, c, effects);
    HeldSummaries(work, s.request, c, effects);
    HeldFlags(work, s, c, effects, r.safetyFlags, r.evidence);
  }

  lemma HeldSummaries(work: Work, r: Request, c: seq<Planning.Step>, effects: seq<Effect>)
    requires AreEffects(work, r, c, effects) && Planning.Distinct(Planning.Recipients(c))
    ensures AreSummaries(map[], Summaries(work, r, c), c, effects)
  {
    var left := Summaries(work, r, c);
    NothingBefore(left);
    SummariesAre(work, r, c, effects, map[]);
  }

  lemma NothingBefore<K, V>(m: map<K, V>)
    ensures map[] + m == m
  {
  }

  lemma HeldFlags(
    work: Work, s: GraphState, c: seq<Planning.Step>, effects: seq<Effect>, flags: seq<string>, evidence: seq<Reference>
  )
    requires AreEffects(work, s.request, c, effects) && Planning.Distinct(Planning.Recipients(c))
    requires flags == AppendUnique(s.safetyFlags, Flags(work, s.request, c))
    requires evidence == AddReferences([], LastEvidence(work, s.request, c, None).GetOr([]))
    ensures forall i | 0 <= i < |c| && c[i].recipient == "rag_agent" ::
              flags == AppendUnique(s.safetyFlags, effects[i].flags) && evidence == AddReferences([], effects[i].evidence)
    ensures (forall i | 0 <= i < |c| :: c[i].recipient != "rag_agent") ==> flags == s.safetyFlags && evidence == []
  {
    DocumentsLeave(work, s.request, c, effects);
  }

  lemma AnswersAreEffects(
    work: Work, r: Request, c: seq<Planning.Step>, m: string, questions: seq<string>, effects: seq<Effect>
  )
    requires IsCurrent(r.messages, m) && AreAnswers(work, r, c, questions, effects)
    requires forall i | 0 <= i < |c| :: questions[i] == Asked(c[i], m) && c[i].recipient in SUMMARY_KEYS
    ensures AreEffects(work, r, c, effects)
  {
    forall i | 0 <= i < |c| ensures effects[i] == EffectOf(work, r, c[i]) {
      QuestionIs(c[i], r, m);
    }
  }

  lemma CompletedAreRegistered(plan: Planning.Plan, runs: seq<StepRun>)
    requires Registered(plan) && Planning.Distinct(Planning.Recipients(plan.steps)) && |runs| == |plan.steps|
    ensures var c := CompletedSteps(plan.steps, runs);
            Planning.Distinct(Planning.Recipients(c)) && forall i | 0 <= i < |c| :: c[i].recipient in SUMMARY_KEYS
  {
    var c := CompletedSteps(plan.steps, runs);
    CompletedAreDistinct(plan.steps, runs);
    assert forall i | 0 <= i < |c| :: c[i] in c;
  }

  lemma ParallelEvidence(work: Work, s: GraphState, plan: Planning.Plan, runs: seq<StepRun>, r: Merged)
    requires |runs| == |plan.steps| && Planning.Distinct(Planning.Recipients(plan.steps))
    requires PossibleRuns(work, s, plan, runs) && ParallelRead(s, plan, runs) == Ok(r)
    ensures r.evidence
         == AddReferences([], LastEvidence(work, s.request, CompletedSteps(plan.steps, runs), None).GetOr([]))
  {
    FanInEvidence(s, plan, runs);
    CollectedEvidence(work, s, plan.steps, runs);
  }

  /** In parallel the last message is asked too, but a product or document specialist is asked its step's focus
      instead if it has one. The fan-in holds what the answers of the completed steps contribute, in plan order,
      under the same keys, with each flag and reference once. */
  lemma ParallelStepsAskTheirFocus(
    work: Work, s: GraphState, plan: Planning.Plan, runs: seq<StepRun>, m: string, questions: seq<string>, effects: seq<Effect>
  )
    requires Planning.WellFormedPlan(plan) && Registered(plan) && Planning.Distinct(Planning.Recipients(plan.steps))
    requires PossibleRuns(work, s, plan, runs) && IsCurrent(s.request.messages, m)
    requires AreAnswers(work, s.request, CompletedSteps(plan.steps, runs), questions, effects)
    requires forall i | 0 <= i < |questions| :: questions[i] == Asked(CompletedSteps(plan.steps, runs)[i], m)
    ensures ParallelRead(s, plan, runs).Ok?
    ensures Collected(s, ParallelRead(s, plan, runs).value, CompletedSteps(plan.steps, runs), effects)
  {
    var c := CompletedSteps(plan.steps, runs);
    ParallelReadInClosedForm(work, s, plan, runs);
    ParallelEvidence(work, s, plan, runs, ParallelRead(s, plan, runs).value);
    CompletedAreRegistered(plan, runs);
    AnswersAreEffects(work, s.request, c, m, questions, effects);
    HeldIsCollected(work, s, ParallelRead(s, plan, runs).value, c, effects);
  }

  // ---------- the fan-in's trace ----------

  /** A specialist's record in a merged trace also names its plan step. */
  predicate IsMergedRecord(item: TraceItem, position: nat, route: string, stepId: string, effect: Effect) {
    && item.Entry? && item.fields.Keys == {"index", "node", "event", "plan_step_id"} + effect.detail.Keys
    && item.fields["index"] == Num(position) && item.fields["node"] == Txt(route) && item.fields["event"] == Txt(effect.event)
    && item.fields["plan_step_id"] == Txt(stepId)
    && forall key | key in effect.detail && key !in {"index", "node", "event", "plan_step_id"} ::
         item.fields[key] == effect.detail[key]
  }

  lemma RenumberedIs(trace: seq<TraceItem>, fields: Record, route: string, stepId: string, effect: Effect)
    requires IsRecord(Entry(fields), 1, route, effect)
    ensures IsMergedRecord(Renumbered(trace, fields, stepId), |trace| + 1, route, stepId, effect)
  {
    var merged := map["index" := Num(|trace| + 1)] + (fields - {"index"}) + map["plan_step_id" := Txt(stepId)];
    assert merged.Keys == {"index", "plan_step_id"} + fields.Keys;
  }

  lemma StepTraceIs(work: Work, s: GraphState, m: Merged, step: Planning.Step)
    ensures var after := MergeStep(m, step, StepHandler(work, s)(step).output).trace;
            && |after| == |m.trace| + 1 && m.trace <= after
            && IsMergedRecord(after[|m.trace|], |m.trace| + 1, step.recipient, step.stepId, EffectOf(work, s.request, step))
  {
    var effect := EffectOf(work, s.request, step);
    var items := AppendAgentStep([], step.recipient, effect.event, effect.detail);
    RecordIs([], step.recipient, effect);
    assert items[1..] == [];
    RenumberedIs(m.trace, items[0].fields, step.recipient, step.stepId, effect);
    assert AppendTrace(m.trace, items, step.stepId) == m.trace + [Renumbered(m.trace, items[0].fields, step.stepId)];
  }

  /** The records of the given steps after the first n. */
  ghost predicate IsMergedLog(work: Work, r: Request, trace: seq<TraceItem>, n: nat, c: seq<Planning.Step>) {
    && |trace| == n + |c|
    && forall i | 0 <= i < |c| ::
         IsMergedRecord(trace[n + i], n + i + 1, c[i].recipient, c[i].stepId, EffectOf(work, r, c[i]))
  }

  lemma MergedLogGrows(
    work: Work, r: Request, trace: seq<TraceItem>, more: seq<TraceItem>, n: nat, c: seq<Planning.Step>, step: Planning.Step
  )
    requires IsMergedLog(work, r, trace, n, c) && |more| == |trace| + 1 && trace <= more
    requires IsMergedRecord(more[|trace|], |trace| + 1, step.recipient, step.stepId, EffectOf(work, r, step))
    ensures IsMergedLog(work, r, more, n, c + [step])
  {
    forall i | 0 <= i < |c|
      ensures IsMergedRecord(more[n + i], n + i + 1, c[i].recipient, c[i].stepId, EffectOf(work, r, c[i]))
    {
      assert more[n + i] == trace[n + i];
    }
  }

  lemma {:induction false} MergeLogs(
    work: Work, s: GraphState, m: Merged, steps: seq<Planning.Step>, runs: seq<StepRun>,
    byId: map<string, StepResult>, outputs: map<string, StepOutput>
  )
    requires |steps| == |runs| && Agrees(work, s, steps, runs, byId, outputs)
    requires forall x | x in steps :: x.stepId in byId
    ensures var after := MergeSteps(m, steps, byId, outputs).trace;
            m.trace <= after && IsMergedLog(work, s.request, after, |m.trace|, CompletedSteps(steps, runs))
    decreases |steps|
  {
    if steps != [] {
      var n: nat := |steps| - 1;
      assert forall i | 0 <= i < n :: AgreesAt(work, s, steps[i], runs[i], byId, outputs);
      MergeLogs(work, s, m, steps[..n], runs[..n], byId, outputs);
      assert AgreesAt(work, s, steps[n], runs[n], byId, outputs);
      var before := MergeSteps(m, steps[..n], byId, outputs);
      MergeLogsNext(work, s, m, before, CompletedSteps(steps[..n], runs[..n]), steps[n], runs[n], byId, outputs);
    }
  }

  lemma MergeLogsNext(
    work: Work, s: GraphState, m: Merged, before: Merged, front: seq<Planning.Step>, step: Planning.Step, run: StepRun,
    byId: map<string, StepResult>, outputs: map<string, StepOutput>
  )
    requires AgreesAt(work, s, step, run, byId, outputs)
    requires m.trace <= before.trace && IsMergedLog(work, s.request, before.trace, |m.trace|, front)
    ensures var out := if step.stepId in outputs then outputs[step.stepId] else NO_OUTPUT;
            var after := if byId[step.stepId].status != Completed then before.trace else MergeStep(before, step, out).trace;
            m.trace <= after
            && IsMergedLog(work, s.request, after, |m.trace|, front + if run.status == Completed then [step] else [])
  {
    if run.status == Completed {
      var after := MergeStep(before, step, StepHandler(work, s)(step).output).trace;
      StepTraceIs(work, s, before, step);
      MergedLogGrows(work, s.request, before.trace, after, |m.trace|, front, step);
    } else {
      ConcatNothing(front);
    }
  }

  lemma MergedReadLogs(work: Work, s: GraphState, plan: Planning.Plan, runs: seq<StepRun>)
    requires Planning.WellFormedPlan(plan) && PossibleRuns(work, s, plan, runs)
    ensures ParallelRead(s, plan, runs).Ok?
    ensures var trace := ParallelRead(s, plan, runs).value.trace;
            s.trace <= trace && IsMergedLog(work, s.request, trace, |s.trace|, CompletedSteps(plan.steps, runs))
  {
    var result := AggregatePlanResult(plan, runs);
    AggregateAgrees(work, s, plan, runs);
    MergeLogs(work, s, EmptyMerge(s, plan, result), plan.steps, runs, ResultsById(result.stepResults), result.outputs);
  }

  /** One record for each completed step, numbered on from the n-th, with the step's id. */
  predicate AreMergedRecords(trace: seq<TraceItem>, n: nat, c: seq<Planning.Step>, effects: seq<Effect>) {
    && |c| == |effects| && |trace| == n + |c|
    && forall i | 0 <= i < |c| :: IsMergedRecord(trace[n + i], n + i + 1, c[i].recipient, c[i].stepId, effects[i])
  }

  lemma LogOfEffects(
    work: Work, r: Request, trace: seq<TraceItem>, n: nat, c: seq<Planning.Step>, effects: seq<Effect>
  )
    requires IsMergedLog(work, r, trace, n, c) && AreEffects(work, r, c, effects)
    ensures AreMergedRecords(trace, n, c, effects)
  {
  }

  /** The fan-in's trace, record by record. */
  lemma MergedTraceIs(
    work: Work, s: GraphState, plan: Planning.Plan, runs: seq<StepRun>, m: string, questions: seq<string>, effects: seq<Effect>
  )
    requires Planning.WellFormedPlan(plan) && Registered(plan) && Planning.Distinct(Planning.Recipients(plan.steps))
    requires PossibleRuns(work, s, plan, runs) && IsCurrent(s.request.messages, m)
    requires AreAnswers(work, s.request, CompletedSteps(plan.steps, runs), questions, effects)
    requires forall i | 0 <= i < |questions| :: questions[i] == Asked(CompletedSteps(plan.steps, runs)[i], m)
    ensures ParallelRead(s, plan, runs).Ok?
    ensures s.trace <= ParallelRead(s, plan, runs).value.trace
    ensures AreMergedRecords(ParallelRead(s, plan, runs).value.trace, |s.trace|, CompletedSteps(plan.steps, runs), effects)
  {
    var c := CompletedSteps(plan.steps, runs);
    CompletedAreRegistered(plan, runs);
    AnswersAreEffects(work, s.request, c, m, questions, effects);
    MergedReadLogs(work, s, plan, runs);
    LogOfEffects(work, s.request, ParallelRead(s, plan, runs).value.trace, |s.trace|, c, effects);
  }

  // ---------- statuses, usage and errors ----------

  function UsageIfAny(run: StepRun): seq<Usage> { if run.usage.Some? then [run.usage.value] else [] }

  function CodeIfAny(run: StepRun): seq<string> { if run.errorCode.Some? then [run.errorCode.value] else [] }

  lemma {:induction false} UsagesAre(steps: seq<Planning.Step>, runs: seq<StepRun>, byId: map<string, StepResult>)
    requires |steps| == |runs| && forall x | x in steps :: x.stepId in byId
    requires forall i | 0 <= i < |runs| :: byId[steps[i].stepId].usage == runs[i].usage
    ensures Usages(steps, byId) == Flat(runs, UsageIfAny)
    decreases |steps|
  {
    if steps != [] {
      var n: nat := |steps| - 1;
      UsagesAre(steps[..n], runs[..n], byId);
    }
  }

  lemma {:induction false} CodesAre(results: seq<StepResult>, runs: seq<StepRun>)
    requires |results| == |runs| && forall i | 0 <= i < |runs| :: results[i].errorCode == runs[i].errorCode
    ensures ErrorCodes(results) == Flat(runs, CodeIfAny)
    decreases |results|
  {
    if results != [] {
      var n: nat := |results| - 1;
      CodesAre(results[..n], runs[..n]);
    }
  }

  lemma {:induction false} MergeKeepsReports(
    m: Merged, steps: seq<Planning.Step>, byId: map<string, StepResult>, outputs: map<string, StepOutput>
  )
    requires forall x | x in steps :: x.stepId in byId
    ensures var r := MergeSteps(m, steps, byId, outputs);
            r.usage == m.usage && r.statuses == m.statuses && r.errorCodes == m.errorCodes
    decreases |steps|
  {
    if steps != [] {
      MergeKeepsReports(m, steps[..|steps| - 1], byId, outputs);
    }
  }

  lemma ResultOfStep(plan: Planning.Plan, runs: seq<StepRun>, i: nat)
    requires Planning.WellFormedPlan(plan) && |runs| == |plan.steps| && i < |runs|
    ensures var byId := ResultsById(AggregatePlanResult(plan, runs).stepResults);
            && plan.steps[i].stepId in byId
            && byId[plan.steps[i].stepId]
               == StepResult(plan.steps[i].stepId, runs[i].status, runs[i].usage, runs[i].attempts, runs[i].errorCode)
  {
    ResultsByIdAt(AggregatePlanResult(plan, runs).stepResults, i);
  }

  lemma ResultsOfSteps(plan: Planning.Plan, runs: seq<StepRun>)
    requires Planning.WellFormedPlan(plan) && |runs| == |plan.steps|
    ensures var byId := ResultsById(AggregatePlanResult(plan, runs).stepResults);
            forall i | 0 <= i < |runs| ::
              && plan.steps[i].stepId in byId
              && byId[plan.steps[i].stepId].status == runs[i].status && byId[plan.steps[i].stepId].usage == runs[i].usage
              && byId[plan.steps[i].stepId].attempts == runs[i].attempts
  {
    forall i | 0 <= i < |runs|
      ensures var byId := ResultsById(AggregatePlanResult(plan, runs).stepResults);
              && plan.steps[i].stepId in byId
              && byId[plan.steps[i].stepId].status == runs[i].status && byId[plan.steps[i].stepId].usage == runs[i].usage
              && byId[plan.steps[i].stepId].attempts == runs[i].attempts
    {
      ResultOfStep(plan, runs, i);
    }
  }

  predicate AreStatuses(rows: seq<StatusRow>, steps: seq<Planning.Step>, runs: seq<StepRun>) {
    && |rows| == |runs| == |steps|
    && forall i | 0 <= i < |runs| ::
         && rows[i].stepId == steps[i].stepId && rows[i].recipient == steps[i].recipient
         && rows[i].status == runs[i].status && rows[i].attempts == runs[i].attempts
  }

  lemma StatusesAre(steps: seq<Planning.Step>, runs: seq<StepRun>, byId: map<string, StepResult>)
    requires |steps| == |runs| && forall x | x in steps :: x.stepId in byId
    requires forall i | 0 <= i < |runs| ::
               byId[steps[i].stepId].status == runs[i].status && byId[steps[i].stepId].attempts == runs[i].attempts
    ensures AreStatuses(Statuses(steps, byId), steps, runs)
  {
  }

  lemma MergedReports(s: GraphState, plan: Planning.Plan, result: PlanResult)
    requires Merge(s, plan, result).Ok?
    ensures var m, byId := Merge(s, plan, result).value, ResultsById(result.stepResults);
            && (forall x | x in plan.steps :: x.stepId in byId)
            && m.statuses == Statuses(plan.steps, byId) && m.usage == Usages(plan.steps, byId)
            && m.errorCodes == ErrorCodes(result.stepResults)
  {
    MergeKeepsReports(EmptyMerge(s, plan, result), plan.steps, ResultsById(result.stepResults), result.outputs);
  }

  lemma ReportsAre(plan: Planning.Plan, runs: seq<StepRun>)
    requires Planning.WellFormedPlan(plan) && |runs| == |plan.steps|
    ensures var byId := ResultsById(AggregatePlanResult(plan, runs).stepResults);
            && (forall x | x in plan.steps :: x.stepId in byId)
            && AreStatuses(Statuses(plan.steps, byId), plan.steps, runs)
            && Usages(plan.steps, byId) == Flat(runs, UsageIfAny)
  {
    var byId := ResultsById(AggregatePlanResult(plan, runs).stepResults);
    ResultsOfSteps(plan, runs);
    StatusesAre(plan.steps, runs, byId);
    UsagesAre(plan.steps, runs, byId);
  }

  /** The fan-in reports every step of the plan, completed or not: its status and attempts in plan order, and the
      usages and error codes there are. */
  lemma EveryRunIsReported(s: GraphState, plan: Planning.Plan, runs: seq<StepRun>, m: Merged)
    requires Planning.WellFormedPlan(plan) && |runs| == |plan.steps| && ParallelRead(s, plan, runs) == Ok(m)
    ensures AreStatuses(m.statuses, plan.steps, runs)
    ensures m.usage == Flat(runs, UsageIfAny) && m.errorCodes == Flat(runs, CodeIfAny)
  {
    MergedReports(s, plan, AggregatePlanResult(plan, runs));
    ReportsAre(plan, runs);
    CodesAre(AggregatePlanResult(plan, runs).stepResults, runs);
  }

  /** The fan-in refuses the result of another plan, then results that are not those of the plan's steps, then an
      output of no step, and nothing else. */
  lemma RefusedResultsAre(s: GraphState, plan: Planning.Plan, result: PlanResult)
    ensures var r := Merge(s, plan, result);
            if result.planId != plan.planId then r == Err(PlanIdentityMismatch)
            else if (exists i | 0 <= i < |result.stepResults| :: !IsPlanned(plan, result.stepResults[i].stepId))
                    || (exists i | 0 <= i < |plan.steps| :: !HasResult(result, plan.steps[i].stepId)) then
              r == Err(StepsMismatch)
            else if exists id | id in result.outputs :: !IsPlanned(plan, id) then r == Err(UnknownOutput)
            else r.Ok?
  {
    var byId := ResultsById(result.stepResults);
    forall id ensures id in StepIds(plan.steps) <==> IsPlanned(plan, id) {
      if i :| 0 <= i < |plan.steps| && plan.steps[i].stepId == id {
        assert plan.steps[i] in plan.steps;
      }
    }
    forall id ensures id in byId <==> HasResult(result, id) {
    }
    if (forall i | 0 <= i < |result.stepResults| :: IsPlanned(plan, result.stepResults[i].stepId))
       && (forall i | 0 <= i < |plan.steps| :: HasResult(result, plan.steps[i].stepId)) {
      assert byId.Keys == StepIds(plan.steps);
    }
  }

  predicate IsPlanned(plan: Planning.Plan, id: string) {
    exists i | 0 <= i < |plan.steps| :: plan.steps[i].stepId == id
  }

  predicate HasResult(result: PlanResult, id: string) {
    exists i | 0 <= i < |result.stepResults| :: result.stepResults[i].stepId == id
  }

  // ---------- one step's view, and the choice of path ----------

  /** A parallel step sees nothing that another step may have left: only the request and the flags raised before. */
  lemma StepsAreIsolated(work: Work, s: GraphState, t: GraphState, step: Planning.Step)
    requires s.request == t.request && s.safetyFlags == t.safetyFlags
    ensures IsolatedState(s, step) == IsolatedState(t, step)
    ensures IsolatedState(s, step).current == Some(step.recipient)
    ensures StepHandler(work, s)(step) == StepHandler(work, t)(step)
  {
  }

  /** A compiled plan is read in parallel exactly if that is enabled for two routes or more, or if a retry policy of
      the executor is set for any route. */
  lemma CompiledPathIs(
    routes: seq<string>, reasons: map<string, string>, settings: Planning.Settings, uuid5: string -> string, plan: Planning.Plan
  )
    requires Planning.BuildDeterministicPlan(routes, reasons, settings, uuid5) == Ok(plan)
    ensures TakesParallelPath(plan) <==>
            || (settings.parallelEnabled && |routes| >= 2)
            || (routes != [] && settings.retryPolicy.Some? && settings.retryPolicy.value.owner == Planning.PlanExecutorRetries)
  {
    if routes != [] {
      assert plan.steps[0] in plan.steps;
    }
  }
}

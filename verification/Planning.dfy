/** Read plans: the deterministic compilation of routes into steps, and the planner that lets an
    untrusted provider propose edits to a compiled plan. */
module Planning {
  import opened Text

  const ROUTE_INTENTS := map[
    "product_agent" := "product_read", "rag_agent" := "document_retrieval", "preference_agent" := "preference_read"
  ]
  const MAX_QUERY_FOCUS := 240

  /** A metadata value: None, a string, or anything else. */
  datatype MetaValue = Null | Str(s: string) | Other(json: string)

  type Metadata = map<string, MetaValue>

  datatype RetryOwner = RetriesDisabled | PlanExecutorRetries

  datatype RetryPolicy = RetryPolicy(owner: RetryOwner, maxAttempts: nat, retryableCodes: set<string>)

  const NO_RETRIES := RetryPolicy(RetriesDisabled, 1, {})

  datatype Step = Step(
    stepId: string, recipient: string, intent: string, dependsOn: seq<string>, parallelEligible: bool,
    retryPolicy: RetryPolicy, metadata: Metadata
  )

  datatype ExecutionMode = Sequential | BoundedParallel

  datatype Plan = Plan(
    planId: string, runId: Option<string>, plannerType: string, mode: ExecutionMode, maxParallelism: int,
    steps: seq<Step>, metadata: Metadata
  )

  // ---------- compiling routes ----------

  datatype PlanError = UnregisteredRoute | RepeatedRoute

  datatype Settings = Settings(
    runId: Option<string>, parallelEnabled: bool, maxParallelism: int, retryPolicy: Option<RetryPolicy>
  )

  function JoinRoutes(routes: seq<string>): string {
    if routes == [] then "" else if |routes| == 1 then routes[0] else routes[0] + "|" + JoinRoutes(routes[1..])
  }

  predicate Distinct(names: seq<string>) {
    forall i, j | 0 <= i < j < |names| :: names[i] != names[j]
  }

  function StepId(index: nat, route: string): string {
    "read-" + (Decimal(index) + ("-" + route))
  }

  function CompileSteps(routes: seq<string>, reasons: map<string, string>, policy: RetryPolicy): (steps: seq<Step>)
    requires forall r | r in routes :: r in ROUTE_INTENTS
    ensures |steps| == |routes|
    ensures forall i | 0 <= i < |routes| ::
              steps[i] == Step(StepId(i + 1, routes[i]), routes[i], ROUTE_INTENTS[routes[i]], [], true, policy,
                map["routing_reason" := if routes[i] in reasons then Str(reasons[routes[i]]) else Null])
  {
    if routes == [] then []
    else
      var n := |routes| - 1;
      CompileSteps(routes[..n], reasons, policy) + [
        Step(StepId(n + 1, routes[n]), routes[n], ROUTE_INTENTS[routes[n]], [], true, policy,
             map["routing_reason" := if routes[n] in reasons then Str(reasons[routes[n]]) else Null])]
  }

  function Min(a: int, b: int): int { if a < b then a else b }

  /** build_deterministic_agent_plan; uuid5 derives the id of a plan without a run. */
  function BuildDeterministicPlan(
    routes: seq<string>, reasons: map<string, string>, settings: Settings, uuid5: string -> string
  ): Result<Plan, PlanError> {
    if exists r | r in routes :: r !in ROUTE_INTENTS then Err(UnregisteredRoute)
    else if !Distinct(routes) then Err(RepeatedRoute)
    else
      var runId := settings.runId.GetOr("");
      var joined := JoinRoutes(routes);
      var identity := if runId != "" then runId else if joined != "" then joined else "empty-read-plan";
      var parallel := settings.parallelEnabled && |routes| > 1;
      Ok(Plan(
        if runId != "" then runId + ":read-plan" else uuid5(identity), settings.runId, "deterministic_route_plan",
        if parallel then BoundedParallel else Sequential,
        if parallel then Min(if settings.maxParallelism > 1 then settings.maxParallelism else 1, |routes|) else 1,
        CompileSteps(routes, reasons, settings.retryPolicy.GetOr(NO_RETRIES)),
        map["route_order" := Other(joined), "parallel_execution_enabled" := Other(if parallel then "true" else "false")]))
  }

  /** What AgentExecutionPlan's own validator demands of a plan without dependencies. */
  ghost predicate WellFormedPlan(plan: Plan) {
    && plan.maxParallelism >= 1
    && (plan.mode == Sequential ==> plan.maxParallelism == 1)
    && (forall i, j | 0 <= i < j < |plan.steps| :: plan.steps[i].stepId != plan.steps[j].stepId)
    && forall s | s in plan.steps :: s.dependsOn == []
  }

  function Recipients(steps: seq<Step>): (rs: seq<string>)
    ensures |rs| == |steps| && forall i | 0 <= i < |rs| :: rs[i] == steps[i].recipient
  {
    seq(|steps|, i requires 0 <= i < |steps| => steps[i].recipient)
  }

  lemma LeadingDigits(a: string, x: string, b: string, y: string)
    requires AllDigits(a) && AllDigits(b) && a + ("-" + x) == b + ("-" + y)
    ensures a == b
  {
    var s := a + ("-" + x);
    assert s[|a|] == '-' && s[|b|] == '-';
    assert forall i | 0 <= i < |a| :: s[i] == a[i] && IsDigit(s[i]);
    assert forall i | 0 <= i < |b| :: s[i] == b[i] && IsDigit(s[i]);
    assert |a| == |b|;
    assert a == s[..|a|] == b;
  }

  /** Step ids of different positions differ, whatever the routes. */
  lemma StepIdsDiffer(m: nat, n: nat, route: string, other: string)
    requires m != n
    ensures StepId(m, route) != StepId(n, other)
  {
    if StepId(m, route) == StepId(n, other) {
      assert StepId(m, route)[5..] == Decimal(m) + ("-" + route);
      assert StepId(n, other)[5..] == Decimal(n) + ("-" + other);
      LeadingDigits(Decimal(m), route, Decimal(n), other);
      DecimalInjective(m, n);
    }
  }

  /** Compilation succeeds exactly on distinct registered routes; the plan then satisfies the plan
      validator, has one step per route in route order, and never more workers than steps. */
  lemma CompiledPlanIsWellFormed(
    routes: seq<string>, reasons: map<string, string>, settings: Settings, uuid5: string -> string
  )
    ensures var r := BuildDeterministicPlan(routes, reasons, settings, uuid5);
            && (r.Ok? <==> (forall x | x in routes :: x in ROUTE_INTENTS) && Distinct(routes))
            && (r.Ok? ==>
                  && WellFormedPlan(r.value)
                  && Recipients(r.value.steps) == routes
                  && (r.value.mode == BoundedParallel ==> r.value.maxParallelism <= |routes|))
  {
    var r := BuildDeterministicPlan(routes, reasons, settings, uuid5);
    if r.Ok? {
      var steps := r.value.steps;
      forall i, j | 0 <= i < j < |steps| ensures steps[i].stepId != steps[j].stepId {
        StepIdsDiffer(i + 1, j + 1, routes[i], routes[j]);
      }
      assert Recipients(steps) == routes;
    }
  }

  // ---------- the compiled plan, written out ----------

  /** Joining two lists of routes puts a bar between them. */
  lemma {:induction false} JoinConcat(a: seq<string>, b: seq<string>)
    requires a != [] && b != []
    ensures JoinRoutes(a + b) == JoinRoutes(a) + "|" + JoinRoutes(b)
    decreases |a|
  {
    assert (a + b)[1..] == a[1..] + b;
    if |a| == 1 {
      assert a[1..] + b == b;
    } else {
      JoinConcat(a[1..], b);
      assert a[0] + "|" + (JoinRoutes(a[1..]) + "|" + JoinRoutes(b)) == a[0] + "|" + JoinRoutes(a[1..]) + "|" + JoinRoutes(b);
    }
  }

  function IntentOf(route: string): string {
    match route
    case "product_agent" => "product_read"
    case "rag_agent" => "document_retrieval"
    case _ => "preference_read"
  }

  predicate IsReadRoute(route: string) {
    route in {"product_agent", "rag_agent", "preference_agent"}
  }

  lemma RoutesAreReadRoutes(route: string)
    ensures route in ROUTE_INTENTS <==> IsReadRoute(route)
    ensures IsReadRoute(route) ==> ROUTE_INTENTS[route] == IntentOf(route)
  {
  }

  /** Step i reads the i-th route, under a number from one, with the routing reason it has and the policy that is
      set, or else a single attempt. */
  predicate IsStepFor(step: Step, i: nat, route: string, reasons: map<string, string>, policy: Option<RetryPolicy>) {
    && step.stepId == "read-" + (Decimal(i + 1) + ("-" + route)) && step.recipient == route && step.intent == IntentOf(route)
    && step.dependsOn == [] && step.parallelEligible
    && step.retryPolicy == (if policy.Some? then policy.value else RetryPolicy(RetriesDisabled, 1, {}))
    && step.metadata == map["routing_reason" := if route in reasons then Str(reasons[route]) else Null]
  }

  /** Unknown routes are refused, then repeated ones. A compiled plan is parallel exactly if that is enabled and
      there are two routes or more; it then has as many workers as are set, but at least one and no more than
      routes. It carries the run's id, or one derived from its routes. */
  lemma CompiledPlanIs(routes: seq<string>, reasons: map<string, string>, settings: Settings, uuid5: string -> string)
    ensures var r := BuildDeterministicPlan(routes, reasons, settings, uuid5);
            if exists i | 0 <= i < |routes| :: !IsReadRoute(routes[i]) then r == Err(UnregisteredRoute)
            else if exists i, j | 0 <= i < j < |routes| :: routes[i] == routes[j] then r == Err(RepeatedRoute)
            else
              && r.Ok? && r.value.plannerType == "deterministic_route_plan" && r.value.runId == settings.runId
              && r.value.planId == (if settings.runId.Some? && settings.runId != Some("") then settings.runId.value + ":read-plan"
                                    else if routes == [] then uuid5("empty-read-plan")
                                    else uuid5(JoinRoutes(routes)))
              && (r.value.mode == BoundedParallel <==> settings.parallelEnabled && |routes| >= 2)
              && (r.value.mode == Sequential ==> r.value.maxParallelism == 1)
              && (r.value.mode == BoundedParallel ==>
                    && 1 <= r.value.maxParallelism <= |routes|
                    && (1 <= settings.maxParallelism <= |routes| ==> r.value.maxParallelism == settings.maxParallelism)
                    && (settings.maxParallelism > |routes| ==> r.value.maxParallelism == |routes|)
                    && (settings.maxParallelism < 1 ==> r.value.maxParallelism == 1))
              && |r.value.steps| == |routes|
              && r.value.metadata == map["route_order" := Other(JoinRoutes(routes)), "parallel_execution_enabled" :=
                                         Other(if r.value.mode == BoundedParallel then "true" else "false")]
  {
    forall route ensures route in ROUTE_INTENTS <==> IsReadRoute(route) {
      RoutesAreReadRoutes(route);
    }
    if forall i | 0 <= i < |routes| :: IsReadRoute(routes[i]) {
      JoinIsNotEmpty(routes);
    }
  }

  lemma CompiledStepsAre(routes: seq<string>, reasons: map<string, string>, settings: Settings, uuid5: string -> string)
    ensures var r := BuildDeterministicPlan(routes, reasons, settings, uuid5);
            r.Ok? ==>
              && |r.value.steps| == |routes|
              && forall i | 0 <= i < |routes| :: IsStepFor(r.value.steps[i], i, routes[i], reasons, settings.retryPolicy)
  {
    forall i | 0 <= i < |routes| && routes[i] in ROUTE_INTENTS ensures ROUTE_INTENTS[routes[i]] == IntentOf(routes[i]) {
      RoutesAreReadRoutes(routes[i]);
    }
  }

  lemma JoinIsNotEmpty(routes: seq<string>)
    requires forall i | 0 <= i < |routes| :: routes[i] != ""
    ensures JoinRoutes(routes) == "" <==> routes == []
  {
  }

  // ---------- the untrusted provider ----------

  /** What calling the provider leads to: an exception or an output that is no plan, or a plan. */
  datatype ProviderAnswer = RaisedOrMalformed | Proposal(plan: Plan)

  /** The parts of a step a proposal must reproduce. */
  function Contract(s: Step): (string, string, string, seq<string>, bool, RetryPolicy) {
    (s.stepId, s.recipient, s.intent, s.dependsOn, s.parallelEligible, s.retryPolicy)
  }

  predicate SameContracts(a: seq<Step>, b: seq<Step>) {
    |a| == |b| && forall i | 0 <= i < |a| :: Contract(a[i]) == Contract(b[i])
  }

  predicate FocusWithinPolicy(v: MetaValue) {
    v.Null? || (v.Str? && !IsBlank(v.s) && |v.s| <= MAX_QUERY_FOCUS)
  }

  function MetadataReason(steps: seq<Step>): Option<string> {
    if steps == [] then None
    else if !(steps[0].metadata.Keys <= {"routing_reason", "query_focus"}) then Some("step_metadata_outside_policy")
    else if "query_focus" in steps[0].metadata && !FocusWithinPolicy(steps[0].metadata["query_focus"]) then
      Some("query_focus_outside_policy")
    else MetadataReason(steps[1..])
  }

  function InvalidReason(proposal: Plan, baseline: Plan): Option<string> {
    if proposal.runId != baseline.runId then Some("run_identity_mismatch")
    else if proposal.mode != baseline.mode then Some("execution_mode_outside_policy")
    else if proposal.maxParallelism != baseline.maxParallelism then Some("parallelism_outside_policy")
    else if Recipients(proposal.steps) != Recipients(baseline.steps) then Some("routes_outside_supervisor_decision")
    else if !SameContracts(proposal.steps, baseline.steps) then Some("step_contract_outside_policy")
    else MetadataReason(proposal.steps)
  }

  datatype Provider = Provider(providerType: Option<string>, modelName: Option<string>)

  function OptionMeta(o: Option<string>): MetaValue {
    match o case None => Null case Some(s) => Str(s)
  }

  function Fallback(p: Provider, baseline: Plan, reason: string): Plan {
    baseline.(plannerType := "provider_fallback",
              metadata := baseline.metadata + map[
                "planner_provider" := OptionMeta(p.providerType), "planner_model" := OptionMeta(p.modelName),
                "planner_fallback_reason" := Str(reason), "fallback_planner_type" := Str(baseline.plannerType)])
  }

  /** The metadata proposed for a step id; the last step carrying the id counts. */
  function ProposedMetadata(steps: seq<Step>, stepId: string): Metadata {
    if steps == [] then map[]
    else if steps[|steps| - 1].stepId == stepId then steps[|steps| - 1].metadata
    else ProposedMetadata(steps[..|steps| - 1], stepId)
  }

  function MergeSteps(baseline: seq<Step>, proposal: seq<Step>): (merged: seq<Step>)
    ensures |merged| == |baseline|
    ensures forall i | 0 <= i < |merged| ::
              merged[i] == baseline[i].(metadata := baseline[i].metadata + ProposedMetadata(proposal, baseline[i].stepId))
  {
    seq(|baseline|, i requires 0 <= i < |baseline| =>
      baseline[i].(metadata := baseline[i].metadata + ProposedMetadata(proposal, baseline[i].stepId)))
  }

  /** ValidatedProviderPlanner.build_plan on a compiled baseline; answer is None without a provider. */
  function ReviewPlan(p: Provider, baseline: Plan, answer: Option<ProviderAnswer>): Plan {
    if baseline.steps == [] then
      baseline.(metadata := baseline.metadata + map["planner_provider_skipped" := Str("no_read_routes")])
    else
      match answer
      case None => Fallback(p, baseline, "provider_not_configured")
      case Some(RaisedOrMalformed) => Fallback(p, baseline, "provider_error_or_invalid_contract")
      case Some(Proposal(proposal)) =>
        match InvalidReason(proposal, baseline)
        case Some(reason) => Fallback(p, baseline, reason)
        case None =>
          baseline.(plannerType := "validated_provider_plan",
                    steps := MergeSteps(baseline.steps, proposal.steps),
                    metadata := baseline.metadata + map[
                      "planner_provider" := OptionMeta(p.providerType), "planner_model" := OptionMeta(p.modelName),
                      "provider_validated" := Other("true")])
  }

  function Lookup(m: Metadata, key: string): Option<MetaValue> {
    if key in m then Some(m[key]) else None
  }

  /** What a provider may do to one step: nothing outside the two metadata keys, and only a policy
      compliant focus. */
  ghost predicate OnlyFocusChanged(before: Step, after: Step) {
    && after.(metadata := before.metadata) == before
    && (forall key | key != "routing_reason" && key != "query_focus" ::
          Lookup(after.metadata, key) == Lookup(before.metadata, key))
    && var focus := Lookup(after.metadata, "query_focus");
       focus == Lookup(before.metadata, "query_focus") || (focus.Some? && IsShortFocus(focus.value))
  }

  /** No focus, or a text that is not blank and not longer than 240 characters. */
  predicate IsShortFocus(v: MetaValue) {
    v == Null || (v.Str? && (exists i | 0 <= i < |v.s| :: !IsSpace(v.s[i])) && |v.s| <= 240)
  }

  lemma {:induction false} ProposedWithinPolicy(steps: seq<Step>, stepId: string)
    requires MetadataReason(steps).None?
    ensures var m := ProposedMetadata(steps, stepId);
            && m.Keys <= {"routing_reason", "query_focus"}
            && ("query_focus" in m ==> FocusWithinPolicy(m["query_focus"]))
  {
    if steps != [] {
      var last := steps[|steps| - 1];
      MetadataReasonAt(steps, |steps| - 1);
      if last.stepId != stepId {
        MetadataReasonPrefix(steps);
        ProposedWithinPolicy(steps[..|steps| - 1], stepId);
      }
    }
  }

  lemma {:induction false} MetadataReasonAt(steps: seq<Step>, i: nat)
    requires MetadataReason(steps).None? && i < |steps|
    ensures steps[i].metadata.Keys <= {"routing_reason", "query_focus"}
    ensures "query_focus" in steps[i].metadata ==> FocusWithinPolicy(steps[i].metadata["query_focus"])
  {
    if i > 0 {
      MetadataReasonAt(steps[1..], i - 1);
    }
  }

  lemma {:induction false} MetadataReasonPrefix(steps: seq<Step>)
    requires MetadataReason(steps).None? && steps != []
    ensures MetadataReason(steps[..|steps| - 1]).None?
  {
    if |steps| > 1 {
      MetadataReasonPrefix(steps[1..]);
      assert steps[1..][..|steps| - 2] == steps[..|steps| - 1][1..];
    }
  }

  lemma MergedStepsChangeOnlyFocus(baseline: seq<Step>, proposal: seq<Step>)
    requires MetadataReason(proposal).None?
    ensures forall i | 0 <= i < |baseline| :: OnlyFocusChanged(baseline[i], MergeSteps(baseline, proposal)[i])
  {
    forall i | 0 <= i < |baseline| ensures OnlyFocusChanged(baseline[i], MergeSteps(baseline, proposal)[i]) {
      ProposedWithinPolicy(proposal, baseline[i].stepId);
    }
  }

  /** Provider non-interference: whatever the provider answers, identity, mode, parallelism and every
      step's contract are the baseline's, in order; only routing_reason and a policy compliant
      query_focus can differ. */
  lemma ProviderCannotInterfere(p: Provider, baseline: Plan, answer: Option<ProviderAnswer>)
    ensures var plan := ReviewPlan(p, baseline, answer);
            && plan.planId == baseline.planId && plan.runId == baseline.runId
            && plan.mode == baseline.mode && plan.maxParallelism == baseline.maxParallelism
            && |plan.steps| == |baseline.steps|
            && forall i | 0 <= i < |plan.steps| :: OnlyFocusChanged(baseline.steps[i], plan.steps[i])
  {
    if answer.Some? && answer.value.Proposal? && InvalidReason(answer.value.plan, baseline).None? {
      MergedStepsChangeOnlyFocus(baseline.steps, answer.value.plan.steps);
    }
  }

  /** A proposal is honoured exactly when it repeats the baseline's identity, limits and step contracts
      and every step's metadata is within policy; then each step gets the metadata proposed for it. */
  lemma HonouredProposals(p: Provider, baseline: Plan, proposal: Plan)
    requires WellFormedPlan(baseline) && baseline.steps != []
    ensures var plan := ReviewPlan(p, baseline, Some(Proposal(proposal)));
            var compliant :=
              && proposal.runId == baseline.runId && proposal.mode == baseline.mode
              && proposal.maxParallelism == baseline.maxParallelism
              && |proposal.steps| == |baseline.steps|
              && (forall i | 0 <= i < |proposal.steps| ::
                    proposal.steps[i].(metadata := baseline.steps[i].metadata) == baseline.steps[i])
              && forall i | 0 <= i < |proposal.steps| :: StepIsCompliant(proposal.steps[i]);
            if compliant then
              && plan.plannerType == "validated_provider_plan"
              && forall i | 0 <= i < |plan.steps| ::
                   plan.steps[i].metadata == baseline.steps[i].metadata + proposal.steps[i].metadata
            else plan.plannerType == "provider_fallback" && plan.steps == baseline.steps
  {
    SameContractsAre(proposal.steps, baseline.steps);
    MetadataReasonIs(proposal.steps);
    if SameContracts(proposal.steps, baseline.steps) {
      assert Recipients(proposal.steps) == Recipients(baseline.steps) by {
        forall i | 0 <= i < |proposal.steps| ensures proposal.steps[i].recipient == baseline.steps[i].recipient {
          assert Contract(proposal.steps[i]) == Contract(baseline.steps[i]);
        }
      }
      forall i | 0 <= i < |baseline.steps|
        ensures ProposedMetadata(proposal.steps, baseline.steps[i].stepId) == proposal.steps[i].metadata
      {
        ProposedAt(proposal.steps, baseline.steps, i);
      }
    }
  }

  lemma {:induction false} ProposedAt(proposal: seq<Step>, baseline: seq<Step>, i: nat)
    requires |proposal| <= |baseline| && i < |proposal|
    requires forall j | 0 <= j < |proposal| :: Contract(proposal[j]) == Contract(baseline[j])
    requires forall j, k | 0 <= j < k < |baseline| :: baseline[j].stepId != baseline[k].stepId
    ensures ProposedMetadata(proposal, baseline[i].stepId) == proposal[i].metadata
  {
    var n := |proposal| - 1;
    assert Contract(proposal[n]) == Contract(baseline[n]);
    if i < n {
      ProposedAt(proposal[..n], baseline, i);
    }
  }

  lemma ShortFocusIs(v: MetaValue)
    ensures FocusWithinPolicy(v) <==> IsShortFocus(v)
  {
  }

  /** Why the provider is not followed: the first of these that holds of its answer. */
  predicate IsRefused(baseline: Plan, answer: Option<ProviderAnswer>, reason: string) {
    match answer
    case None => reason == "provider_not_configured"
    case Some(RaisedOrMalformed) => reason == "provider_error_or_invalid_contract"
    case Some(Proposal(p)) =>
      if p.runId != baseline.runId then reason == "run_identity_mismatch"
      else if p.mode != baseline.mode then reason == "execution_mode_outside_policy"
      else if p.maxParallelism != baseline.maxParallelism then reason == "parallelism_outside_policy"
      else if |p.steps| != |baseline.steps| || exists i | 0 <= i < |p.steps| :: p.steps[i].recipient != baseline.steps[i].recipient
      then reason == "routes_outside_supervisor_decision"
      else if exists i | 0 <= i < |p.steps| :: p.steps[i].(metadata := baseline.steps[i].metadata) != baseline.steps[i]
      then reason == "step_contract_outside_policy"
      else
        exists i | 0 <= i < |p.steps| ::
          StepIsRefused(p.steps[i], reason) && forall j | 0 <= j < i :: StepIsCompliant(p.steps[j])
  }

  predicate StepIsCompliant(s: Step) {
    && s.metadata.Keys <= {"routing_reason", "query_focus"}
    && ("query_focus" in s.metadata ==> IsShortFocus(s.metadata["query_focus"]))
  }

  predicate StepIsRefused(s: Step, reason: string) {
    if s.metadata.Keys <= {"routing_reason", "query_focus"} then
      "query_focus" in s.metadata && !IsShortFocus(s.metadata["query_focus"]) && reason == "query_focus_outside_policy"
    else reason == "step_metadata_outside_policy"
  }

  function OrNull(o: Option<string>): MetaValue {
    if o.Some? then Str(o.value) else Null
  }

  /** Without routes nothing is asked of the provider. Otherwise its name and model are recorded with the verdict:
      a fallback to the compiled plan with its reason, or the validated proposal. */
  lemma ReviewIsRecorded(p: Provider, baseline: Plan, answer: Option<ProviderAnswer>)
    ensures var plan := ReviewPlan(p, baseline, answer);
            if baseline.steps == [] then
              plan == baseline.(metadata := baseline.metadata + map["planner_provider_skipped" := Str("no_read_routes")])
            else if plan.plannerType == "provider_fallback" then
              && "planner_fallback_reason" in plan.metadata && plan.metadata["planner_fallback_reason"].Str?
              && IsRefused(baseline, answer, plan.metadata["planner_fallback_reason"].s)
              && plan.metadata == baseline.metadata + map[
                   "planner_provider" := OrNull(p.providerType), "planner_model" := OrNull(p.modelName),
                   "planner_fallback_reason" := plan.metadata["planner_fallback_reason"],
                   "fallback_planner_type" := Str(baseline.plannerType)]
            else
              && plan.plannerType == "validated_provider_plan"
              && plan.metadata == baseline.metadata + map[
                   "planner_provider" := OrNull(p.providerType), "planner_model" := OrNull(p.modelName),
                   "provider_validated" := Other("true")]
  {
    if baseline.steps != [] && answer.Some? && answer.value.Proposal? {
      RefusalIs(baseline, answer.value.plan);
    }
  }

  lemma RefusalIs(baseline: Plan, proposal: Plan)
    ensures match InvalidReason(proposal, baseline)
            case None => true
            case Some(reason) => IsRefused(baseline, Some(Proposal(proposal)), reason)
  {
    var a, b := proposal.steps, baseline.steps;
    if |a| == |b| {
      assert Recipients(a) == Recipients(b) <==> forall i | 0 <= i < |a| :: a[i].recipient == b[i].recipient by {
        assert forall i | 0 <= i < |a| :: Recipients(a)[i] == a[i].recipient && Recipients(b)[i] == b[i].recipient;
      }
      SameContractsAre(a, b);
    }
    MetadataReasonIs(a);
  }

  lemma SameContractsAre(a: seq<Step>, b: seq<Step>)
    ensures SameContracts(a, b) <==> |a| == |b| && forall i | 0 <= i < |a| :: a[i].(metadata := b[i].metadata) == b[i]
  {
    if |a| == |b| {
      forall i | 0 <= i < |a| ensures Contract(a[i]) == Contract(b[i]) <==> a[i].(metadata := b[i].metadata) == b[i] {
      }
    }
  }

  lemma {:induction false} MetadataReasonIs(steps: seq<Step>)
    ensures if MetadataReason(steps).None? then forall i | 0 <= i < |steps| :: StepIsCompliant(steps[i])
            else exists i | 0 <= i < |steps| ::
                   StepIsRefused(steps[i], MetadataReason(steps).value) && forall j | 0 <= j < i :: StepIsCompliant(steps[j])
    decreases |steps|
  {
    if steps != [] {
      var first, rest := steps[0], steps[1..];
      MetadataReasonIs(rest);
      if "query_focus" in first.metadata {
        ShortFocusIs(first.metadata["query_focus"]);
      }
      if StepIsCompliant(first) && MetadataReason(rest).Some? {
        var i :| 0 <= i < |rest| && StepIsRefused(rest[i], MetadataReason(rest).value)
                 && forall j | 0 <= j < i :: StepIsCompliant(rest[j]);
        assert forall j | 0 <= j < i + 1 :: StepIsCompliant(steps[j]) by {
          assert forall j | 0 < j < i + 1 :: steps[j] == rest[j - 1];
        }
        assert steps[i + 1] == rest[i];
      }
    }
  }
}

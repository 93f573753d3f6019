/** The bounded executor of read plans: one step with its retries, a pool of workers over the steps of
    a plan under any schedule, and the ordered result of a plan. */
module PlanExecutor {
  import opened Sequences
  import opened Text
  import Planning
  import opened ReadPipeline

  // ---------- usage accounting ----------

  function AddKnown(a: Option<nat>, b: Option<nat>): Option<nat> {
    if a.Some? && b.Some? then Some(a.value + b.value) else None
  }

  /** The total of one sample: its own, or input plus output when both are known. */
  function KnownTotal(u: Usage): Option<nat> {
    if u.totalTokens.Some? then u.totalTokens else AddKnown(u.inputTokens, u.outputTokens)
  }

  function AddUsage(a: Usage, b: Usage): Usage {
    Usage(AddKnown(a.inputTokens, b.inputTokens), AddKnown(a.outputTokens, b.outputTokens),
          AddKnown(KnownTotal(a), KnownTotal(b)),
          if a.cost.Some? && b.cost.Some? then Some(a.cost.value + b.cost.value) else None,
          a.toolCalls + b.toolCalls, a.steps + b.steps)
  }

  /** aggregate_run_usage of at least one sample: sums, unknown as soon as one sample is unknown. */
  function AggregateUsage(samples: seq<Usage>): Usage
    requires samples != []
  {
    var last := samples[|samples| - 1];
    if |samples| == 1 then last.(totalTokens := KnownTotal(last))
    else AddUsage(AggregateUsage(samples[..|samples| - 1]), last)
  }

  // ---------- one step ----------

  /** What one attempt of the handler leads to. Answers stands for a returned completed result. */
  datatype Attempt =
    | Answers
    | TransportFailure(usage: Usage, retriable: bool, failureCode: string, errorCode: string)
    | Refuses(errorCode: string)

  /** The environment of a step: its attempts, and whether the run is cancelled before a retry. */
  datatype Script = Script(attempt: nat -> Attempt, cancelled: nat -> bool)

  /** A specialist's output with what the handler takes from it for the typed result. */
  datatype Handled = Handled(output: StepOutput, usage: Usage, evidence: seq<Reference>)

  datatype StepRun = StepRun(
    status: StepStatus, answer: Option<Handled>, usage: Option<Usage>, attempts: nat, errorCode: Option<string>
  )

  function UsageOf(samples: seq<Usage>): Option<Usage> {
    if samples == [] then None else Some(AggregateUsage(samples))
  }

  predicate RetryAllowed(policy: Planning.RetryPolicy, a: Attempt, attempts: nat) {
    a.TransportFailure? && policy.owner == Planning.PlanExecutorRetries && a.retriable
    && a.failureCode in policy.retryableCodes && attempts < policy.maxAttempts
  }

  /** _run_step from the given number of attempts made, with the usage samples they left. */
  function RunAttempts(
    policy: Planning.RetryPolicy, handled: Handled, script: Script, made: nat, samples: seq<Usage>
  ): StepRun
    decreases policy.maxAttempts - made
  {
    var n := made + 1;
    var a := script.attempt(n);
    match a
    case Answers => StepRun(Completed, Some(handled), UsageOf(samples + [handled.usage]), n, None)
    case Refuses(code) => StepRun(Failed, None, UsageOf(samples), n, Some(code))
    case TransportFailure(usage, _, _, code) =>
      if !RetryAllowed(policy, a, n) then StepRun(Failed, None, UsageOf(samples + [usage]), n, Some(code))
      else if script.cancelled(n) then
        StepRun(Cancelled, None, UsageOf(samples + [usage]), n, Some("plan.step_cancelled"))
      else RunAttempts(policy, handled, script, n, samples + [usage])
  }

  method RunStep(policy: Planning.RetryPolicy, handled: Handled, script: Script) returns (r: StepRun)
    ensures r == RunAttempts(policy, handled, script, 0, [])
    ensures 1 <= r.attempts && (forall j | 1 <= j < r.attempts :: Followed(policy, script, j))
    ensures !Followed(policy, script, r.attempts) && EndsAt(policy, handled, script, r.attempts, r)
  {
    AttemptsFrom(policy, handled, script, 0, []);
    var attempts, samples := 0, [];
    while true
      invariant attempts == 0 || attempts < policy.maxAttempts
      invariant RunAttempts(policy, handled, script, 0, []) == RunAttempts(policy, handled, script, attempts, samples)
      decreases policy.maxAttempts - attempts
    {
      attempts := attempts + 1;
      var a := script.attempt(attempts);
      match a {
        case Answers =>
          samples := samples + [handled.usage];
          return StepRun(Completed, Some(handled), UsageOf(samples), attempts, None);
        case Refuses(code) =>
          return StepRun(Failed, None, UsageOf(samples), attempts, Some(code));
        case TransportFailure(usage, _, _, code) =>
          samples := samples + [usage];
          if !RetryAllowed(policy, a, attempts) {
            return StepRun(Failed, None, UsageOf(samples), attempts, Some(code));
          }
          if script.cancelled(attempts) {
            return StepRun(Cancelled, None, UsageOf(samples), attempts, Some("plan.step_cancelled"));
          }
      }
    }
  }

  /** However its attempts go, a step that completes returns the one answer its handler gives, after at
      most the allowed attempts, and only a plan-owned policy ever makes a second one. */
  lemma {:induction false} AttemptsAreBounded(
    policy: Planning.RetryPolicy, handled: Handled, script: Script, made: nat, samples: seq<Usage>
  )
    requires policy.maxAttempts >= 1 && made < policy.maxAttempts
    ensures var r := RunAttempts(policy, handled, script, made, samples);
            && made < r.attempts <= policy.maxAttempts
            && (r.status == Completed <==> r.answer.Some?)
            && (r.status == Completed ==> r.answer == Some(handled) && script.attempt(r.attempts).Answers?
                                          && r.usage.Some? && r.errorCode.None?)
            && (r.status != Completed ==> r.errorCode.Some?)
            && (policy.owner != Planning.PlanExecutorRetries ==> r.attempts == made + 1)
            && forall i | made < i < r.attempts :: RetryAllowed(policy, script.attempt(i), i) && !script.cancelled(i)
    decreases policy.maxAttempts - made
  {
    var a := script.attempt(made + 1);
    if RetryAllowed(policy, a, made + 1) && !script.cancelled(made + 1) {
      AttemptsAreBounded(policy, handled, script, made + 1, samples + [a.usage]);
    }
  }

  /** Attempt i is followed by another one: it was a transport failure that may be retried, with a code the
      policy lists, under a policy the executor owns, before the last attempt allowed, and not cancelled. */
  predicate Followed(policy: Planning.RetryPolicy, script: Script, i: nat) {
    match script.attempt(i)
    case TransportFailure(_, retriable, failureCode, _) =>
      && policy.owner == Planning.PlanExecutorRetries && retriable && failureCode in policy.retryableCodes
      && i < policy.maxAttempts && !script.cancelled(i)
    case _ => false
  }

  /** What a step ends with at attempt n. */
  predicate EndsAt(policy: Planning.RetryPolicy, handled: Handled, script: Script, n: nat, r: StepRun) {
    match script.attempt(n)
    case Answers => r.status == Completed && r.answer == Some(handled) && r.errorCode == None
    case Refuses(code) => r.status == Failed && r.answer == None && r.errorCode == Some(code)
    case TransportFailure(_, retriable, failureCode, code) =>
      r.answer == None
      && if policy.owner == Planning.PlanExecutorRetries && retriable && failureCode in policy.retryableCodes
            && n < policy.maxAttempts && script.cancelled(n)
         then r.status == Cancelled && r.errorCode == Some("plan.step_cancelled")
         else r.status == Failed && r.errorCode == Some(code)
  }

  lemma {:induction false} AttemptsFrom(policy: Planning.RetryPolicy, handled: Handled, script: Script, made: nat, samples: seq<Usage>)
    ensures var r := RunAttempts(policy, handled, script, made, samples);
            && made < r.attempts && (forall i | made < i < r.attempts :: Followed(policy, script, i))
            && !Followed(policy, script, r.attempts) && EndsAt(policy, handled, script, r.attempts, r)
    decreases policy.maxAttempts - made
  {
    var n: nat := made + 1;
    if Followed(policy, script, n) {
      AttemptsFrom(policy, handled, script, n, samples + [script.attempt(n).usage]);
    }
  }

  /** Attempt i + 1 is made exactly when each attempt up to i is to be followed by another; and the first
      one that is not decides how the step ends. */
  lemma AttemptsAreExact(policy: Planning.RetryPolicy, handled: Handled, script: Script, i: nat)
    ensures var r := RunAttempts(policy, handled, script, 0, []);
            && (i < r.attempts <==> forall j | 1 <= j <= i :: Followed(policy, script, j))
            && 1 <= r.attempts && EndsAt(policy, handled, script, r.attempts, r)
  {
    AttemptsFrom(policy, handled, script, 0, []);
    var r := RunAttempts(policy, handled, script, 0, []);
    if r.attempts <= i {
      assert !Followed(policy, script, r.attempts);
    }
  }

  /** The usage of each of the first n attempts that reports one, in order. */
  function Reported(handled: Handled, script: Script, n: nat): seq<Usage> {
    if n == 0 then []
    else
      Reported(handled, script, n - 1)
      + match script.attempt(n)
        case Answers => [handled.usage]
        case TransportFailure(usage, _, _, _) => [usage]
        case Refuses(_) => []
  }

  lemma {:induction false} UsageFrom(policy: Planning.RetryPolicy, handled: Handled, script: Script, made: nat, samples: seq<Usage>)
    requires samples == Reported(handled, script, made)
    ensures var r := RunAttempts(policy, handled, script, made, samples);
            r.usage == UsageOf(Reported(handled, script, r.attempts))
    decreases policy.maxAttempts - made
  {
    var n: nat := made + 1;
    assert samples + [] == samples;
    if Followed(policy, script, n) {
      UsageFrom(policy, handled, script, n, samples + [script.attempt(n).usage]);
    }
  }

  /** A step uses what all its attempts report. */
  lemma UsageIsReported(policy: Planning.RetryPolicy, handled: Handled, script: Script)
    ensures var r := RunAttempts(policy, handled, script, 0, []);
            r.usage == UsageOf(Reported(handled, script, r.attempts))
  {
    UsageFrom(policy, handled, script, 0, []);
  }

  // ---------- aggregated usage ----------

  /** The sum of counts all of which are known. */
  function SumIfKnown(counts: seq<Option<nat>>): Option<nat> {
    if exists i | 0 <= i < |counts| :: counts[i].None? then None
    else Some(Sum(counts, (c: Option<nat>) => c.GetOr(0)))
  }

  lemma OneMoreCount(counts: seq<Option<nat>>, c: Option<nat>)
    ensures SumIfKnown(counts + [c])
         == if SumIfKnown(counts).Some? && c.Some? then Some(SumIfKnown(counts).value + c.value) else None
  {
    var all := counts + [c];
    assert all[..|counts|] == counts && all[|counts|] == c;
    assert forall i | 0 <= i < |counts| :: all[i] == counts[i];
  }

  lemma OneCount(c: Option<nat>)
    ensures SumIfKnown([c]) == c
  {
    OneMoreCount([], c);
    assert [] + [c] == [c];
  }

  lemma LastCount(counts: seq<Option<nat>>)
    requires counts != []
    ensures var front, c := counts[..|counts| - 1], counts[|counts| - 1];
            SumIfKnown(counts) == if SumIfKnown(front).Some? && c.Some? then Some(SumIfKnown(front).value + c.value) else None
  {
    OneMoreCount(counts[..|counts| - 1], counts[|counts| - 1]);
    assert counts[..|counts| - 1] + [counts[|counts| - 1]] == counts;
  }

  /** The counts of the samples; a sample without a total counts as its input plus its output tokens. */
  predicate CountsOf(us: seq<Usage>, inputs: seq<Option<nat>>, outputs: seq<Option<nat>>, totals: seq<Option<nat>>) {
    && |us| == |inputs| == |outputs| == |totals|
    && forall i | 0 <= i < |us| ::
         && inputs[i] == us[i].inputTokens && outputs[i] == us[i].outputTokens
         && totals[i] == if us[i].totalTokens.Some? then us[i].totalTokens
                         else if inputs[i].Some? && outputs[i].Some? then Some(inputs[i].value + outputs[i].value)
                         else None
  }

  lemma {:induction false} AggregateTokens(us: seq<Usage>, inputs: seq<Option<nat>>, outputs: seq<Option<nat>>)
    requires us != [] && |us| == |inputs| == |outputs|
    requires forall i | 0 <= i < |us| :: inputs[i] == us[i].inputTokens && outputs[i] == us[i].outputTokens
    ensures var a := AggregateUsage(us); a.inputTokens == SumIfKnown(inputs) && a.outputTokens == SumIfKnown(outputs)
  {
    var n: nat := |us| - 1;
    if n == 0 {
      assert inputs == [inputs[0]] && outputs == [outputs[0]];
      OneCount(inputs[0]);
      OneCount(outputs[0]);
    } else {
      AggregateTokens(us[..n], inputs[..n], outputs[..n]);
      LastCount(inputs);
      LastCount(outputs);
    }
  }

  lemma {:induction false} AggregateTotals(us: seq<Usage>, totals: seq<Option<nat>>)
    requires us != [] && |us| == |totals| && forall i | 0 <= i < |us| :: totals[i] == KnownTotal(us[i])
    ensures AggregateUsage(us).totalTokens == SumIfKnown(totals) == KnownTotal(AggregateUsage(us))
  {
    var n: nat := |us| - 1;
    if n == 0 {
      assert totals == [totals[0]];
      OneCount(totals[0]);
    } else {
      AggregateTotals(us[..n], totals[..n]);
      LastCount(totals);
      TotalOfSum(AggregateUsage(us[..n]), us[n]);
    }
  }

  lemma TotalOfSum(a: Usage, b: Usage)
    ensures KnownTotal(AddUsage(a, b)) == AddUsage(a, b).totalTokens == AddKnown(KnownTotal(a), KnownTotal(b))
  {
  }

  /** Aggregated tokens are sums over the samples, unknown as soon as one sample does not know its count. */
  lemma AggregateIs(us: seq<Usage>, inputs: seq<Option<nat>>, outputs: seq<Option<nat>>, totals: seq<Option<nat>>)
    requires us != [] && CountsOf(us, inputs, outputs, totals)
    ensures var a := AggregateUsage(us);
            a.inputTokens == SumIfKnown(inputs) && a.outputTokens == SumIfKnown(outputs) && a.totalTokens == SumIfKnown(totals)
  {
    AggregateTokens(us, inputs, outputs);
    AggregateTotals(us, totals);
  }

  function SumOfCosts(us: seq<Usage>): real {
    if us == [] then 0.0 else SumOfCosts(us[..|us| - 1]) + us[|us| - 1].cost.GetOr(0.0)
  }

  /** Tool calls and steps are added up; the cost is, if every sample knows its own. */
  lemma {:induction false} AggregateCounts(us: seq<Usage>, calls: Usage -> nat, steps: Usage -> nat)
    requires us != [] && forall u: Usage :: calls(u) == u.toolCalls && steps(u) == u.steps
    ensures var a := AggregateUsage(us);
            && a.toolCalls == Sum(us, calls) && a.steps == Sum(us, steps)
            && (a.cost.Some? <==> forall i | 0 <= i < |us| :: us[i].cost.Some?)
            && (a.cost.Some? ==> a.cost.value == SumOfCosts(us))
  {
    var n: nat := |us| - 1;
    if n == 0 {
      assert us[..0] == [];
    } else {
      AggregateCounts(us[..n], calls, steps);
    }
  }

  // ---------- a pool of workers ----------

  /** Steps are taken in plan order by at most `workers` workers at a time and finish in any order. */
  datatype Pool = Pool(next: nat, running: set<nat>, done: map<nat, StepRun>)

  const IDLE_POOL := Pool(0, {}, map[])

  /** Start takes the next step, which a cancelled run does not execute; Finish ends a running step. */
  datatype PoolEvent = Start(cancelled: bool) | Finish(step: nat, script: Script)

  const CANCELLED_RUN := StepRun(Cancelled, None, None, 0, Some("plan.step_cancelled"))

  type Handler = Planning.Step -> Handled

  predicate Enabled(plan: Planning.Plan, workers: nat, pool: Pool, e: PoolEvent) {
    match e
    case Start(_) => pool.next < |plan.steps| && |pool.running| < workers
    case Finish(i, _) => i in pool.running && i < |plan.steps|
  }

  function Advance(plan: Planning.Plan, handler: Handler, pool: Pool, e: PoolEvent): Pool
    requires e.Finish? ==> e.step < |plan.steps|
  {
    match e
    case Start(cancelled) =>
      if cancelled then pool.(next := pool.next + 1, done := pool.done[pool.next := CANCELLED_RUN])
      else pool.(next := pool.next + 1, running := pool.running + {pool.next})
    case Finish(i, script) =>
      pool.(running := pool.running - {i},
            done := pool.done[i := RunAttempts(plan.steps[i].retryPolicy, handler(plan.steps[i]), script, 0, [])])
  }

  /** The pool after a schedule; None when the schedule asks for something that is not possible. */
  function RunSchedule(plan: Planning.Plan, workers: nat, handler: Handler, events: seq<PoolEvent>): Option<Pool> {
    if events == [] then Some(IDLE_POOL)
    else
      var before, e := RunSchedule(plan, workers, handler, events[..|events| - 1]), events[|events| - 1];
      if before.Some? && Enabled(plan, workers, before.value, e)
      then Some(Advance(plan, handler, before.value, e))
      else None
  }

  predicate Drained(plan: Planning.Plan, pool: Pool) {
    pool.next == |plan.steps| && pool.running == {}
  }

  /** A run of a step that its handler and some environment can produce. */
  ghost predicate PossibleRun(policy: Planning.RetryPolicy, handled: Handled, r: StepRun) {
    r == CANCELLED_RUN || exists script :: r == RunAttempts(policy, handled, script, 0, [])
  }

  ghost predicate PoolInv(plan: Planning.Plan, workers: nat, handler: Handler, pool: Pool) {
    && pool.next <= |plan.steps|
    && |pool.running| <= workers
    && pool.running !! pool.done.Keys
    && (forall i: nat :: i in pool.running || i in pool.done <==> i < pool.next)
    && forall i | i in pool.done :: i < |plan.steps|
         && PossibleRun(plan.steps[i].retryPolicy, handler(plan.steps[i]), pool.done[i])
  }

  lemma AdvanceKeepsInv(plan: Planning.Plan, workers: nat, handler: Handler, pool: Pool, e: PoolEvent)
    requires PoolInv(plan, workers, handler, pool) && Enabled(plan, workers, pool, e)
    ensures PoolInv(plan, workers, handler, Advance(plan, handler, pool, e))
  {
    var after := Advance(plan, handler, pool, e);
    forall i | i in after.done
      ensures i < |plan.steps| && PossibleRun(plan.steps[i].retryPolicy, handler(plan.steps[i]), after.done[i])
    {
      if e.Finish? && e.step == i {
        assert after.done[i] == RunAttempts(plan.steps[i].retryPolicy, handler(plan.steps[i]), e.script, 0, []);
      }
    }
  }

  /** Under every schedule: never more workers than allowed, every step started in plan order, none run
      twice, and every finished step holds a run its own handler and attempts could produce. */
  lemma {:induction false} EveryScheduleKeepsInv(
    plan: Planning.Plan, workers: nat, handler: Handler, events: seq<PoolEvent>
  )
    ensures var pool := RunSchedule(plan, workers, handler, events);
            pool.Some? ==> PoolInv(plan, workers, handler, pool.value)
    decreases |events|
  {
    if events != [] {
      var before, e := RunSchedule(plan, workers, handler, events[..|events| - 1]), events[|events| - 1];
      EveryScheduleKeepsInv(plan, workers, handler, events[..|events| - 1]);
      if before.Some? && Enabled(plan, workers, before.value, e) {
        AdvanceKeepsInv(plan, workers, handler, before.value, e);
      }
    }
  }

  /** With at least one worker a pool that is not drained can always go on, and every event brings it
      closer to the end: there are no deadlocks and no endless schedules. */
  lemma PoolMakesProgress(plan: Planning.Plan, workers: nat, handler: Handler, pool: Pool, script: Script)
    requires PoolInv(plan, workers, handler, pool) && workers >= 1
    ensures !Drained(plan, pool) ==>
              exists e :: Enabled(plan, workers, pool, e)
    ensures forall e | Enabled(plan, workers, pool, e) ::
              Remaining(plan, Advance(plan, handler, pool, e)) < Remaining(plan, pool)
  {
    if !Drained(plan, pool) {
      if pool.running == {} {
        assert Enabled(plan, workers, pool, Start(false));
      } else {
        var i :| i in pool.running;
        assert Enabled(plan, workers, pool, Finish(i, script));
      }
    }
    forall e | Enabled(plan, workers, pool, e)
      ensures Remaining(plan, Advance(plan, handler, pool, e)) < Remaining(plan, pool)
    {
      if e.Start? && !e.cancelled {
        assert pool.next !in pool.running;
      }
    }
  }

  function Starts(events: seq<PoolEvent>): nat {
    Sum(events, (e: PoolEvent) => if e.Start? then 1 else 0)
  }

  /** Event j starts step i: i steps were started before. */
  predicate IsStartOf(events: seq<PoolEvent>, j: nat, i: nat) {
    j < |events| && events[j].Start? && Starts(events[..j]) == i
  }

  /** The run of step i is that of its own events: it was cancelled when it was to be started, or it ended after
      the attempts of its script. */
  ghost predicate ComesFrom(plan: Planning.Plan, handler: Handler, events: seq<PoolEvent>, i: nat, run: StepRun)
    requires i < |plan.steps|
  {
    || (run == StepRun(Cancelled, None, None, 0, Some("plan.step_cancelled"))
        && exists j: nat :: IsStartOf(events, j, i) && events[j].cancelled)
    || (exists j: nat, k: nat, script ::
          && j < k < |events| && IsStartOf(events, j, i) && !events[j].cancelled && events[k] == Finish(i, script)
          && run == RunAttempts(plan.steps[i].retryPolicy, handler(plan.steps[i]), script, 0, []))
  }

  ghost predicate Accounted(plan: Planning.Plan, handler: Handler, events: seq<PoolEvent>, pool: Pool) {
    && pool.next == Starts(events) <= |plan.steps|
    && (forall i | i in pool.done :: i < |plan.steps| && ComesFrom(plan, handler, events, i, pool.done[i]))
    && forall i | i in pool.running :: exists j: nat :: IsStartOf(events, j, i) && !events[j].cancelled
  }

  lemma StartsNext(events: seq<PoolEvent>, e: PoolEvent)
    ensures Starts(events + [e]) == Starts(events) + if e.Start? then 1 else 0
    ensures forall j: nat, i: nat | j < |events| :: IsStartOf(events + [e], j, i) <==> IsStartOf(events, j, i)
  {
    assert (events + [e])[..|events|] == events;
    forall j: nat, i: nat | j < |events| ensures IsStartOf(events + [e], j, i) <==> IsStartOf(events, j, i) {
      assert (events + [e])[..j] == events[..j];
    }
  }

  lemma StillComesFrom(
    plan: Planning.Plan, handler: Handler, events: seq<PoolEvent>, e: PoolEvent, i: nat, run: StepRun
  )
    requires i < |plan.steps| && ComesFrom(plan, handler, events, i, run)
    ensures ComesFrom(plan, handler, events + [e], i, run)
  {
    var all := events + [e];
    StartsNext(events, e);
    if j: nat :| IsStartOf(events, j, i) && events[j].cancelled && run == StepRun(Cancelled, None, None, 0, Some("plan.step_cancelled")) {
      assert IsStartOf(all, j, i) && all[j].cancelled;
    } else {
      var j: nat, k: nat, script :|
        && j < k < |events| && IsStartOf(events, j, i) && !events[j].cancelled && events[k] == Finish(i, script)
        && run == RunAttempts(plan.steps[i].retryPolicy, handler(plan.steps[i]), script, 0, []);
      assert IsStartOf(all, j, i) && !all[j].cancelled && all[k] == Finish(i, script);
    }
  }

  lemma StartedBefore(events: seq<PoolEvent>, e: PoolEvent, i: nat)
    requires exists j: nat :: IsStartOf(events, j, i) && !events[j].cancelled
    ensures exists j: nat :: IsStartOf(events + [e], j, i) && !(events + [e])[j].cancelled
  {
    StartsNext(events, e);
    var j: nat :| IsStartOf(events, j, i) && !events[j].cancelled;
    assert IsStartOf(events + [e], j, i) && !(events + [e])[j].cancelled;
  }

  lemma StartAccounts(plan: Planning.Plan, handler: Handler, events: seq<PoolEvent>, pool: Pool, e: PoolEvent)
    requires Accounted(plan, handler, events, pool) && e.Start? && pool.next < |plan.steps|
    ensures Accounted(plan, handler, events + [e], Advance(plan, handler, pool, e))
  {
    var all, after := events + [e], Advance(plan, handler, pool, e);
    StartsNext(events, e);
    assert all[..|events|] == events && all[|events|] == e;
    assert IsStartOf(all, |events|, pool.next);
    forall i | i in after.done ensures i < |plan.steps| && ComesFrom(plan, handler, all, i, after.done[i]) {
      if i in pool.done && (!e.cancelled || i != pool.next) {
        StillComesFrom(plan, handler, events, e, i, pool.done[i]);
      }
    }
    forall i | i in after.running ensures exists j: nat :: IsStartOf(all, j, i) && !all[j].cancelled {
      if i in pool.running {
        StartedBefore(events, e, i);
      }
    }
  }

  lemma FinishAccounts(plan: Planning.Plan, handler: Handler, events: seq<PoolEvent>, pool: Pool, e: PoolEvent)
    requires Accounted(plan, handler, events, pool) && e.Finish? && e.step in pool.running && e.step < |plan.steps|
    ensures Accounted(plan, handler, events + [e], Advance(plan, handler, pool, e))
  {
    var all, after := events + [e], Advance(plan, handler, pool, e);
    StartsNext(events, e);
    forall i | i in after.running ensures exists j: nat :: IsStartOf(all, j, i) && !all[j].cancelled {
      StartedBefore(events, e, i);
    }
    forall i | i in after.done ensures i < |plan.steps| && ComesFrom(plan, handler, all, i, after.done[i]) {
      if i == e.step {
        var j: nat :| IsStartOf(events, j, i) && !events[j].cancelled;
        assert IsStartOf(all, j, i) && !all[j].cancelled && all[|events|] == Finish(i, e.script);
      } else {
        StillComesFrom(plan, handler, events, e, i, pool.done[i]);
      }
    }
  }

  /** Under every schedule a finished step's run comes from its own events: it is a cancelled run without an
      attempt exactly if it was cancelled when its turn came, and else what one script of attempts leads to. */
  lemma {:induction false} RunsComeFromEvents(plan: Planning.Plan, workers: nat, handler: Handler, events: seq<PoolEvent>)
    ensures var pool := RunSchedule(plan, workers, handler, events);
            pool.Some? ==> Accounted(plan, handler, events, pool.value)
    decreases |events|
  {
    if events != [] {
      var front, e := events[..|events| - 1], events[|events| - 1];
      RunsComeFromEvents(plan, workers, handler, front);
      var before := RunSchedule(plan, workers, handler, front);
      assert events == front + [e];
      if before.Some? && Enabled(plan, workers, before.value, e) {
        if e.Start? {
          StartAccounts(plan, handler, front, before.value, e);
        } else {
          FinishAccounts(plan, handler, front, before.value, e);
        }
      }
    }
  }

  function Remaining(plan: Planning.Plan, pool: Pool): int {
    2 * (|plan.steps| - pool.next) + |pool.running|
  }

  /** A drained pool has one run per step; executor.map hands them over in plan order. */
  function RunsInPlanOrder(plan: Planning.Plan, pool: Pool): (runs: seq<StepRun>)
    requires forall i | 0 <= i < |plan.steps| :: i in pool.done
    ensures |runs| == |plan.steps| && forall i | 0 <= i < |runs| :: runs[i] == pool.done[i]
  {
    seq(|plan.steps|, i requires 0 <= i < |plan.steps| => pool.done[i])
  }

  // ---------- the result of a plan ----------

  predicate SameReference(a: Reference, b: Reference) {
    a.refType == b.refType && a.refId == b.refId && a.scope == b.scope
  }

  /** Appends the references whose identity has not been seen yet. */
  function AddReferences(seen: seq<Reference>, more: seq<Reference>): seq<Reference>
    decreases |more|
  {
    if more == [] then seen
    else
      AddReferences(if exists r | r in seen :: SameReference(r, more[0]) then seen else seen + [more[0]], more[1..])
  }

  function CollectReferences(runs: seq<StepRun>): seq<Reference> {
    if runs == [] then []
    else
      var before, last := CollectReferences(runs[..|runs| - 1]), runs[|runs| - 1];
      if last.answer.Some? then AddReferences(before, last.answer.value.evidence) else before
  }

  function StepResults(steps: seq<Planning.Step>, runs: seq<StepRun>): (rs: seq<StepResult>)
    requires |steps| == |runs|
    ensures |rs| == |steps|
    ensures forall i | 0 <= i < |rs| ::
              rs[i] == StepResult(steps[i].stepId, runs[i].status, runs[i].usage, runs[i].attempts, runs[i].errorCode)
  {
    seq(|steps|, i requires 0 <= i < |steps| && |steps| == |runs| =>
      StepResult(steps[i].stepId, runs[i].status, runs[i].usage, runs[i].attempts, runs[i].errorCode))
  }

  function Outputs(steps: seq<Planning.Step>, runs: seq<StepRun>): map<string, StepOutput>
    requires |steps| == |runs|
  {
    if steps == [] then map[]
    else
      var n := |steps| - 1;
      var before := Outputs(steps[..n], runs[..n]);
      if runs[n].status == Completed && runs[n].answer.Some?
      then before[steps[n].stepId := runs[n].answer.value.output]
      else before
  }

  /** _aggregate_plan_result. */
  function AggregatePlanResult(plan: Planning.Plan, runs: seq<StepRun>): PlanResult
    requires |runs| == |plan.steps|
  {
    PlanResult(plan.planId, StepResults(plan.steps, runs), Outputs(plan.steps, runs), CollectReferences(runs))
  }
}

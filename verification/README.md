# ShopMind: a verified model

This project models six parts of ShopMind, a shopping assistant whose read requests are answered by several
specialist agents over a shared graph state, and proves properties of each over all inputs, runs and schedules.

* **The read pipeline** (`Planning`, `ReadPipeline`, `PlanExecutor`, `PipelineRefinement`, `PathEquivalence`,
  `PathTasks`, `FanInTasks`). Routes are compiled into a plan, an untrusted provider may propose edits to it, and the
  steps are run either by a dispatcher that loops over the graph state or by a bounded pool of workers over isolated
  states whose results are merged in plan order. The specialists' work is an arbitrary function of the task they are
  set. The two paths are related by a refinement theorem, and the pool by theorems over every schedule; what is asked
  and what is left is written out.
* **The shopping session** (`ShoppingSession`, `SessionTurn`, `SessionHistory`, `SessionStore`). Each turn merges the
  request, the remembered session, explicit clears and stored preferences, and leaves a new session. The incremental
  state is proved equal to a closed-form replay of the whole history, also under concurrent runs against the
  version-checked store. Message parsing and the ranking itself are arbitrary functions.
* **The event stream** (`EventStream`, `EventFrames`, `EventErrors`, `EventText`, `Text`). The reference client's
  line-by-line reader of server-sent events is a class with the client's mutable accumulators; it is proved equal to a
  definition that reads whole frames, and the text the server writes to be read back exactly where it is.
* **Catalog seeding and validation** (`CatalogSeed`, `SeedLaws`, `SeedGuarantees`, `SeedCounts`, `SeedFlush`,
  `SeedKeys`, `SeedContents`, `SeedCollisions`, `CatalogValidation`, `ValidationLaws`, `ValidationGuarantees`,
  `ValidationIssues`, `ValidationOrder`). Keyed upserts with ownership rules, in a session that flushes before lookups
  and in one that does not, and the nested loops of the validator.
* **The write handoff** (`CandidateContexts`, `WriteHandoff`, `HandoffTurns`, `HandoffRuns`). A two-turn protocol over
  a store of candidate lists that expire and are pruned.
* **Evaluation** (`RetrievalMetrics`, `QualityMetrics`, `RegressionGate`, `GateLaws`, `MetricLabels`, `EventSummary`).
  Ranked retrieval metrics, nearest-rank percentiles, the regression gate, and event metrics.

`Sequences` holds facts about sequences of any type. Code that changes things step by step is imperative Dafny
(classes `EventStream.StreamParser`, `CatalogSeed.CatalogSession`, `CatalogSeed.SeedReport`,
`SeedFlush.UnflushedSession`, `CandidateContexts.ContextStore`, and methods with loops), proved against functions
whose properties the lemmas state.

## What the proofs found

The model follows the code in each of these; the member named states exactly when the expectation holds.

* A payload containing U+0085, U+2028 or U+2029 is serialized as it is (app/runtime/streaming.py:96-100), but the
  client's line splitting breaks at these characters, so the client yields the events before that one and then fails:
  `EventText.ServerStreamReadsBack` (when a stream is read back), `EventText.BrokenStreamYieldsItsStart`.
* A `query_focus` proposed by the provider reaches a specialist only on the parallel path; on the dispatcher path
  it is ignored: `PathEquivalence.FocusSeparatesThePaths`.
* The dispatcher path appends safety flags without looking, the fan-in only once:
  `PathEquivalence.ParallelRefinesSequential`, `PathEquivalence.ExecutionSettingsDoNotMatter`. The fan-in fills in
  token totals that a step left out: `PathEquivalence.UsageAgreement`.
* A new upper budget limit below the remembered lower one is not resolved in favour of the newer statement; the
  turn is rejected: `SessionHistory.LoweredMaximumIsRejected`, `SessionHistory.BudgetRejection`.
* The provenance label "preference" can stand at a value that the user named earlier, exactly when a later turn's
  preferences mention the field; the label "user" is exact: `SessionHistory.PreferenceLabelCoversUserValue`,
  `SessionHistory.UserLabelIsExact`. A field that only older prose gave stays without a label:
  `SessionHistory.UnlabelledExactly`.
* The application's database session does not flush before lookups (app/db/session.py:18), so a seed that repeats
  an attribute code its category does not have yet, or a SKU without inventory and with no new product or SKU in
  between, fails instead of being counted as skipped: `SeedCollisions.CollidesExactly`. Until it fails the run agrees
  with a flushing one: `SeedFlush.UnflushedSeedsAlike`.
* The number of attribute definitions shown for a category is that of its first readable file
  (`ValidationOrder.AttributesAreOfFirst`), so it depends on the order of the files unless they all list equally many:
  `ValidationOrder.AttributeCountIgnoresOrderExactly`.
* A new candidate list can be dropped by its own save while the reply reports it stored, but only when 100 live lists
  are there and none precedes it: `HandoffRuns.StoredListIsThere`. With a clock that does not go back they must all
  have been created at the same instant: `HandoffRuns.NewListLostOnlyOnTies`. A list that is saved again is never
  dropped by its own save: `CandidateContexts.ResavedSurvives`.
* With an optional suite in the catalog no evaluated candidate passes the gate: `GateLaws.EvaluatedSuitesMatch`.

## Model

| member | source | states |
|---|---|---|
| `EventStream.StreamParser.FinishEvent` | examples/shopmind_reference_client.py:293-309 | Finishing the pending fields yields an event only if event, id and data are all there and agree, resets the accumulators, and changes nothing else |
| `EventStream.StreamParser.ReadLine` | examples/shopmind_reference_client.py:311-339 | One line of the loop: byte bound first, blank line finishes the event and checks the count and the increasing sequence, comments only count, anything without a colon is an error |
| `EventStream.StreamParser.ParseSse` | examples/shopmind_reference_client.py:285-349 | The whole generator yields exactly the events and the error of the specification, whatever was yielded before an error |
| `EventStream.StreamParser.ReadEnd` | examples/shopmind_reference_client.py:341-349 | At the end of input a complete pending event is still yielded, within the same bounds |
| `EventStream.ReadingIsBounded` | examples/shopmind_reference_client.py:285-349 | For every input, accepted or failing, the yielded sequences strictly increase from the last one and the count never exceeds the limit |
| `EventStream.ResumableAtBlankLine` | examples/shopmind_reference_client.py:311-349 | Reading a concatenation is reading up to a blank line and then the rest from the carried count and last sequence alone |
| `EventStream.CommentInsertion` | examples/shopmind_reference_client.py:311-329 | A comment line inserted anywhere changes neither events nor error, unless it pushes the event it falls into over the byte bound |
| `EventStream.ReadBounded` | examples/shopmind_reference_client.py:275-283 | The body is the concatenation of all chunks if that is within the bound, and an error exactly if it is not |
| `EventFrames.ReaderReadsFrames` | examples/shopmind_reference_client.py:285-349 | On every input the line-by-line reader agrees with an independent definition that cuts the input at blank lines and reads each frame as a whole |
| `EventFrames.FrameIsEvent` | examples/shopmind_reference_client.py:293-339 | A frame is read as an event if and only if it is within 262144 bytes, every line has a colon, its last event line names the type of the decoded data and its last id line is that event's own sequence |
| `EventFrames.FrameIsEmpty` | examples/shopmind_reference_client.py:293-339 | A frame is passed over if and only if it is within the bound, every line has a colon and it sets none of the three fields |
| `EventFrames.BytesOfLine` | examples/shopmind_reference_client.py:311-316 | The bytes counted for a line are those of its encoding as section 3 of RFC 3629 defines it |
| `EventErrors.ErrorIs` | examples/shopmind_reference_client.py:285-349 | On every input the error that ends the reading is that of the first frame with one: too large, no colon, a field missing or contradicted, a payload or id that is none, or an event outside the bounds |
| `EventFrames.ParsingUndoesPrinting` | examples/shopmind_reference_client.py:285-349 | Reading the canonical event/id/data lines of an event list gives back that list if and only if the sequences are positive and strictly increasing, not too many, and no frame too large |
| `EventText.TextSplitsIntoFrames` | app/runtime/streaming.py:96-100 | The encoded text splits into the lines that were meant if and only if no event type and no payload contains a line-breaking character |
| `EventText.SplitIs` | examples/shopmind_reference_client.py:285-292 | Text is split at the ten line-breaking characters, a carriage return with its newline once, the last line with or without a break |
| `EventText.ServerStreamReadsBack` | app/runtime/streaming.py:96-100 | Server encoder to client reader, end to end: the client reads back exactly what was sent if and only if the bounds hold and no event type and no payload holds a line-breaking character, for a decoder that rejects a payload cut inside a string literal |
| `EventText.BrokenStreamYieldsItsStart` | app/runtime/streaming.py:96-100 | Of any stream the client yields exactly the events before the first that is broken, too large, out of order or one too many, and then an error |
| `EventText.BrokenPayloadIsRejected` | app/runtime/streaming.py:96-100 | An event whose payload holds such a character, wherever it stands and whatever follows, yields nothing and ends the stream with an error |
| `Text.ParseIntOfDecimal` | examples/shopmind_reference_client.py:303 | Reading a printed event id gives back the number |
| `Text.ParseIntIs` | examples/shopmind_reference_client.py:303 | An integer is read between blanks from a sign, if there is one, and digits with single underscores between them; any other text is none |
| `ShoppingSession.FindLatestSessionState` | agents/shopmind_multi_agent/recommendation_nodes.py:92-103 | The loop over the context returns a valid state of the category that no later item has one after, and none only if no item holds one |
| `ShoppingSession.LatestStateExactly` | agents/shopmind_multi_agent/recommendation_nodes.py:92-103 | A state is the latest if and only if some item holds it as a valid state of the category and no later item holds a valid one; there is none if and only if no item holds one |
| `ShoppingSession.MergeProse` | agents/shopmind_multi_agent/recommendation_nodes.py:271-279 | Earlier prose is folded in order, later statements winning per attribute |
| `ShoppingSession.DropCleared` | agents/shopmind_multi_agent/recommendation_nodes.py:280-282 | Exactly the cleared fields are dropped from the inherited attributes |
| `ShoppingSession.MergeRequest` | agents/shopmind_multi_agent/recommendation_nodes.py:236-305 | The merge of request, remembered state, clears and preferences, with its provenance |
| `ShoppingSession.MergesExactly` | agents/shopmind_multi_agent/recommendation_nodes.py:226-262 | A turn builds on prose or a state before it exactly when there is some and the user asked for the category of the thread or named none |
| `ShoppingSession.MergeExclusions` | agents/shopmind_multi_agent/recommendation_nodes.py:310-322 | Remembered exclusions first, then the named candidate, without repeats |
| `ShoppingSession.DeterministicRanking` | agents/shopmind_multi_agent/recommendation_nodes.py:226-388 | The node leaves the session that the turn's specification gives, or its error; the session's version is one past that of the latest valid state of its category in the context |
| `SessionTurn.LaterProseWins` | agents/shopmind_multi_agent/recommendation_nodes.py:262-279 | Of earlier messages the last that names an attribute, a limit or a currency decides it |
| `SessionTurn.TurnRead` | agents/shopmind_multi_agent/recommendation_nodes.py:226-262 | A turn is read from the message, in the category asked for, the latest state and the older prose in order |
| `SessionTurn.AcceptedExactly` | app/recommendation/session_state.py:22-44 | A turn is accepted exactly when its merged limits are not inverted, at most three SKUs are shown and at most twenty excluded; otherwise the first that fails is the error |
| `SessionTurn.TurnLeaves` | agents/shopmind_multi_agent/recommendation_nodes.py:305-388 | An accepted turn leaves the merged request's limits, currency and attributes, the next version, the exclusions, and as candidates the ranked SKUs of the pool without the excluded ones |
| `SessionHistory.IncrementalIsClosedForm` | agents/shopmind_multi_agent/recommendation_nodes.py:258-305 | Carrying a value from turn to turn equals its closed form: the last value named after the last drop, else the first one offered after it, else what the prose gave |
| `SessionHistory.StoredAttributeIsReplay` | agents/shopmind_multi_agent/recommendation_nodes.py:258-351 | Over every history each stored attribute is the closed-form replay of all turns |
| `SessionHistory.StoredBudgetIsReplay` | agents/shopmind_multi_agent/recommendation_nodes.py:259-294 | Over every history both budget limits are the closed-form replay of all turns |
| `SessionHistory.StoredCurrencyIsReplay` | agents/shopmind_multi_agent/recommendation_nodes.py:259-294 | So is the remembered currency |
| `SessionHistory.StoredLabelIsReplay` | agents/shopmind_multi_agent/recommendation_nodes.py:352-371 | Over every history each provenance label is a closed-form replay too |
| `SessionHistory.UserLabelIsExact` | agents/shopmind_multi_agent/recommendation_nodes.py:352-371 | A field is labelled "user" exactly when some turn's user named it and since then nothing cleared it and no preference mentioned it |
| `SessionHistory.UserLabelIsSound` | agents/shopmind_multi_agent/recommendation_nodes.py:267-371 | A field labelled "user" holds the value of the latest user turn that names it, with no later clear |
| `SessionHistory.PreferenceLabelIsExact` | agents/shopmind_multi_agent/recommendation_nodes.py:352-371 | A field is labelled "preference" exactly when a turn's preferences mention it without the user naming it, and nothing named or dropped it since |
| `SessionHistory.StoredValueOrigin` | agents/shopmind_multi_agent/recommendation_nodes.py:258-351 | A stored value is the user's latest if some turn since the last drop names the field; otherwise what older prose said, if nothing was ever dropped; otherwise the first preference since the last drop |
| `SessionHistory.PreferenceLabelCoversUserValue` | agents/shopmind_multi_agent/recommendation_nodes.py:297-371 | Over every history: after the latest turn that named a field, with nothing dropped since, the value is that turn's, and the label is "preference" if and only if a later turn's preferences mention the field, else "user" |
| `SessionHistory.LabelsCoverAttributes` | agents/shopmind_multi_agent/recommendation_nodes.py:352-371 | Labelled fields are always stored, and all stored fields are labelled if and only if every field that older prose gave and no turn dropped has been named or preferred by some turn |
| `SessionHistory.UnlabelledExactly` | agents/shopmind_multi_agent/recommendation_nodes.py:352-371 | A stored field has no label exactly when it is only what older prose said |
| `SessionHistory.ExclusionsArePermanent` | agents/shopmind_multi_agent/recommendation_nodes.py:310-382 | Over every history the exclusions keep their order, never repeat and only grow at the end, an excluded SKU is never shown again, and the version counts the turns |
| `SessionHistory.ExclusionNamesShownCandidate` | agents/shopmind_multi_agent/recommendation_nodes.py:310-323 | An ordinal excludes exactly the SKU shown at that position of the live list |
| `SessionHistory.LoweredMaximumIsRejected` | app/recommendation/session_state.py:37-44 | A new maximum below the remembered minimum rejects the turn |
| `SessionHistory.BudgetRejection` | app/recommendation/session_state.py:37-44 | A turn is rejected for its budget exactly when the merged limits are inverted |
| `SessionStore.EveryRunIsAHistory` | app/repositories/runtime_shopping_state.py:54-128 | For every interleaving of reads, checks and writes the stored states form one history, versions rising by one, no update lost |
| `SessionStore.StoredStateIsReplay` | app/repositories/runtime_shopping_state.py:54-128 | So what is stored under concurrency is the closed-form replay of the turns that were written |
| `SessionStore.UninterruptedRunCommits` | app/repositories/runtime_shopping_state.py:89-128 | A run that ranked from the stored state and is not interrupted commits its result |
| `SessionStore.OutdatedRunIsRefused` | app/repositories/runtime_shopping_state.py:82-95 | A run that ranked from anything but the stored state is refused and leaves the store as it is |
| `SessionStore.VersionChecksAre` | app/repositories/runtime_shopping_state.py:82-95 | One past the stored version is written, the stored state itself is a repeated write, another state of that version is stale, and every other version conflicts |
| `Planning.CompiledPlanIsWellFormed` | agents/shopmind_multi_agent/planning.py:127-183 | Compilation succeeds exactly on distinct registered routes; the plan then passes the plan validator, with one step per route in order and no more workers than steps |
| `Planning.CompiledPlanIs` | agents/shopmind_multi_agent/planning.py:127-183 | Unknown routes are refused, then repeated ones; a plan is parallel exactly if that is enabled for two routes or more, with the set number of workers between one and the number of routes, under the run's id or one derived from its routes |
| `Planning.CompiledStepsAre` | agents/shopmind_multi_agent/planning.py:154-183 | Step i reads route i under a number from one, with the route's intent and reason and the set retry policy, else one attempt |
| `Planning.StepIdsDiffer` | agents/shopmind_multi_agent/planning.py:167-169 | Step ids of different positions differ whatever the routes are called |
| `Planning.ProviderCannotInterfere` | agents/shopmind_multi_agent/planning.py:229-319 | Whatever the provider answers or raises, identity, mode, parallelism and every step's contract are the baseline's; only the routing reason and a focus within policy can change |
| `Planning.HonouredProposals` | agents/shopmind_multi_agent/planning.py:322-368 | A proposal is honoured exactly when it repeats the baseline's contracts within policy, and otherwise the baseline's steps are returned unchanged |
| `Planning.ReviewIsRecorded` | agents/shopmind_multi_agent/planning.py:229-368 | The first rule an answer breaks is recorded as the reason of the fallback, with the provider's name and model; without routes the provider is not asked |
| `ReadPipeline.RouteDispatcher` | agents/shopmind_multi_agent/graph.py:108-144 | The dispatcher picks the first route not yet executed, in route order, and otherwise clears the current one |
| `ReadPipeline.RunDispatcher` | agents/shopmind_multi_agent/graph.py:557-569 | The dispatcher loop terminates, the unexecuted routes shrinking, in the state of its specification, which `PathTasks` writes out |
| `ReadPipeline.AppendUniqueTo` | agents/shopmind_multi_agent/parallel_state.py:56-59 | Values are appended in order, each at most once and none already there |
| `ReadPipeline.AppendTraceTo` | agents/shopmind_multi_agent/parallel_state.py:126-137 | Trace entries are copied with their position and step id, and entries that are not records are skipped |
| `ReadPipeline.MergeParallelStepResults` | agents/shopmind_multi_agent/parallel_state.py:62-139 | The merge in plan order, with each of its identity errors |
| `PlanExecutor.RunStep` | app/runtime/plan_executor.py:97-428 | The attempt loop: another attempt follows exactly a retriable transport failure with a listed code, under a policy of the executor, before the last attempt and not cancelled; the first other attempt settles status, answer and error |
| `PlanExecutor.AttemptsAreExact` | app/runtime/plan_executor.py:184-232 | Attempt i + 1 is made if and only if every attempt up to i was a retriable transport failure with a code of the policy, under a policy of the executor, below its maximum and not cancelled; the first that is not settles the outcome |
| `PlanExecutor.UsageIsReported` | app/runtime/plan_executor.py:97-428 | A step uses what all its attempts report, answered or failed |
| `PlanExecutor.AggregateIs` | app/runtime/contracts.py:483-517 | Aggregated tokens are sums over the samples, unknown as soon as one is; a missing total counts as input plus output |
| `PlanExecutor.AggregateCounts` | app/runtime/contracts.py:483-517 | Tool calls and steps are sums, and so is the cost if every sample has one |
| `PlanExecutor.AttemptsAreBounded` | app/runtime/plan_executor.py:97-428 | Every run makes at least one attempt, never more than the policy's maximum, and a completed one carries the handler's answer |
| `PlanExecutor.EveryScheduleKeepsInv` | app/runtime/plan_executor.py:613-656 | Under every schedule no step runs twice, the pool never exceeds its workers and every finished step holds a possible run of its own |
| `PlanExecutor.RunsComeFromEvents` | app/runtime/plan_executor.py:464-500 | Under every schedule a finished step's run is the cancelled one without an attempt if it was cancelled when its turn came, and else what one script of its own attempts leads to |
| `PlanExecutor.PoolMakesProgress` | app/runtime/plan_executor.py:613-656 | The pool never deadlocks and every event brings it closer to the end |
| `PipelineRefinement.AppendUniqueIsAppend` | agents/shopmind_multi_agent/parallel_state.py:56-59 | Appending uniquely is plain appending exactly when all values are new and distinct |
| `PipelineRefinement.ParallelReadInClosedForm` | agents/shopmind_multi_agent/graph.py:161-276 | The fan-in of every possible execution holds exactly what the completed steps contribute, in plan order |
| `PipelineRefinement.DrainedPoolIsComplete` | app/runtime/plan_executor.py:509-550 | Every finished schedule has one run per step to hand over, in plan order |
| `PipelineRefinement.ExecutedRunsArePossible` | app/runtime/plan_executor.py:613-656 | Under every schedule a completed step holds its own handler's answer |
| `PipelineRefinement.ScheduleDoesNotMatter` | agents/shopmind_multi_agent/parallel_state.py:62-139 | Two executions with any workers, orders, retries and failures merge alike as soon as the same steps completed, and the executed routes are the completed subsequence of the plan |
| `PipelineRefinement.ResultOrderDoesNotMatter` | agents/shopmind_multi_agent/parallel_state.py:72-77 | The order in which results are listed changes only the list of error codes |
| `PathEquivalence.SequentialReadInClosedForm` | agents/shopmind_multi_agent/graph.py:108-144 | The dispatcher loop runs each route once in route order and leaves exactly what their steps contribute |
| `PathTasks.DispatcherAsksTheMessage` | agents/shopmind_multi_agent/product_adapter.py:81-130 | Every step the dispatcher executes sets its specialist the task of the last message, with the step's id and the request's user and thread; the answers leave tool calls, usage, the summaries under their three keys, and the document specialist's flags and evidence |
| `PathTasks.DispatcherTraceIs` | agents/shopmind_multi_agent/graph.py:108-144 | The dispatcher's trace record by record: each selection after the routes executed before it, each specialist's record, and the hand-over at the end |
| `PathTasks.DispatchIs` | agents/shopmind_multi_agent/graph.py:108-144 | From any state the first route not executed is selected under the id of its first plan step, with a record of the routes executed before it; when none is left, the decision agent is |
| `FanInTasks.ParallelStepsAskTheirFocus` | agents/shopmind_multi_agent/parallel_state.py:30-53 | In parallel a focus that is a text and not empty replaces the last message for the product and the document specialist only; the fan-in holds the answers of the completed steps under the same keys |
| `FanInTasks.MergedTraceIs` | agents/shopmind_multi_agent/parallel_state.py:126-137 | The fan-in's trace: one record for each completed step, numbered on, with its step id |
| `FanInTasks.EveryRunIsReported` | agents/shopmind_multi_agent/parallel_state.py:85-124 | Every step's status and attempts in plan order, and the usages and error codes there are |
| `FanInTasks.RefusedResultsAre` | agents/shopmind_multi_agent/parallel_state.py:62-84 | The result of another plan is refused, then results that are not exactly those of the plan's steps, then an output of no step, and nothing else |
| `FanInTasks.EachReferenceOnce` | app/runtime/plan_executor.py:509-550 | A reference is collected unless one of its type, id and scope was there before |
| `FanInTasks.EachValueOnce` | agents/shopmind_multi_agent/parallel_state.py:56-59 | A value is appended unless it was there before |
| `PathEquivalence.ParallelRefinesSequential` | agents/shopmind_multi_agent/graph.py:108-276 | For every specialist work, schedule and failure pattern the fan-in equals the dispatcher's reading of the completed steps in routes, tool calls, summaries and trace; the safety flags agree if and only if the raised flags are new and distinct |
| `PathEquivalence.UsageAgreement` | app/runtime/contracts.py:483-517 | When no attempt that used anything failed, the fan-in's usage is the dispatcher's on the completed steps with known totals filled in, so they agree if and only if no usage lacks such a total |
| `PathEquivalence.EvidenceAgreement` | app/runtime/plan_executor.py:509-550 | Under every schedule and failure pattern the fan-in's evidence is the dispatcher's on the completed steps, each reference once |
| `PathEquivalence.LoopKeepsPositions` | agents/shopmind_multi_agent/observability.py:16-33 | Every trace the dispatcher loop builds is numbered from one without gaps |
| `PathEquivalence.MergeKeepsPositions` | agents/shopmind_multi_agent/parallel_state.py:126-137 | So is every trace the merge builds |
| `PathEquivalence.FocusSeparatesThePaths` | agents/shopmind_multi_agent/product_adapter.py:81-130 | If a focus asks any specialist something other than the message, there is a specialist for which the two paths differ |
| `PathEquivalence.ExecutionSettingsDoNotMatter` | agents/shopmind_multi_agent/graph.py:151-158 | Plans compiled from the same routes, all of whose steps complete, read the same whatever their parallelism, workers, retries, schedules and failed attempts; the flags too if and only if both take the same path or the flags raised are new |
| `FanInTasks.CompiledPathIs` | agents/shopmind_multi_agent/graph.py:151-158 | A compiled plan is read in parallel exactly if that is enabled for two routes or more or a retry policy of the executor is set for any route |
| `CatalogSeed.CatalogSession.Put` | scripts/seed_shopmind_catalog.py:41-46 | One keyed upsert: insert, replace if owned and asked to, else skip, counting exactly one of the three |
| `CatalogSeed.CatalogSession.SeedCatalog` | scripts/seed_shopmind_catalog.py:57-101 | One file leaves the catalog and report of the specification; a dry run reports the same and leaves the catalog as it was |
| `SeedLaws.FilesAreRows` | scripts/seed_shopmind_catalog.py:57-137 | A run presents a fixed list of rows, keyed by the ids of the catalog it leads to, although it looks ids up as it goes |
| `SeedGuarantees.SeedingIsIdempotent` | scripts/seed_shopmind_catalog.py:41-101 | In either mode, with repeated codes too, running the same files again leaves the catalog exactly as it was |
| `SeedGuarantees.ForeignRowsAreSafe` | scripts/seed_shopmind_catalog.py:41-95 | No row is deleted or renumbered; a row no presented source owns keeps all values, and so does inventory that was there |
| `SeedGuarantees.ModesConverge` | scripts/seed_shopmind_catalog.py:41-101 | An insert-only run followed by a replacing run leads where the replacing run alone leads |
| `SeedContents.NewInventoryHolds` | scripts/seed_shopmind_catalog.py:92-96 | In either mode a SKU without inventory before the run has on hand what the first product presenting it says, nothing reserved, and version 0 |
| `SeedContents.ProductHolds` | scripts/seed_shopmind_catalog.py:76-84 | A new product holds the columns of the first file presenting it, after a replacing run those its own source presents last, with the marks of that file and the id of its category in the final catalog |
| `SeedContents.SkuHolds` | scripts/seed_shopmind_catalog.py:85-91 | So does a SKU, with the id of its product in the final catalog |
| `SeedContents.CategoryHolds` | scripts/seed_shopmind_catalog.py:57-67 | So does a category |
| `SeedContents.AttributeIsInserted` | scripts/seed_shopmind_catalog.py:68-74 | A new attribute holds the columns of the first file presenting it for its category, with that category's id |
| `SeedContents.AttributeIsReplaced` | scripts/seed_shopmind_catalog.py:68-74 | After a replacing run an attribute holds what its own source presents last for its category |
| `SeedCounts.EveryRowIsCounted` | scripts/seed_shopmind_catalog.py:25-101 | Per kind, inserted, updated and skipped rows add up to the rows the seed presents |
| `SeedCounts.ReportedInsertionsAreGrowth` | scripts/seed_shopmind_catalog.py:57-101 | Reported insertions are, kind by kind, the rows the tables gained |
| `SeedCounts.SecondRunInsertsNothing` | scripts/seed_shopmind_catalog.py:57-101 | After a run in either mode, another run in either mode inserts nothing |
| `SeedCounts.AddTallies` | scripts/seed_shopmind_catalog.py:125-129 | The loop adds the counts of every kind |
| `SeedCounts.RunSeed` | scripts/seed_shopmind_catalog.py:109-137 | A run over several files leaves the catalog of the files in order, or the old one if dry, and totals its files' counts |
| `SeedCounts.TotalsOfRun` | scripts/seed_shopmind_catalog.py:117-130 | The totals of a real run are the counts of all its rows together |
| `SeedCounts.EveryRowOfARunIsCounted` | scripts/seed_shopmind_catalog.py:117-130 | The totals of any run, dry or real, add up to the rows presented |
| `SeedFlush.UnflushedSeedsAlike` | app/db/session.py:18 | In a session whose lookups see flushed rows only, a run of which no flush fails leaves and reports what a flushing run does, with nothing pending |
| `SeedFlush.UnflushedSession.SeedCatalog` | scripts/seed_shopmind_catalog.py:57-101 | One file on such a session, with its four flushes, leaves the flushed rows, the pending rows and the report of the specification, or fails where it does |
| `SeedKeys.AttributeIsThere` | scripts/seed_shopmind_catalog.py:68-75 | After a run a category has an attribute if and only if it had it before or a file of that category lists it |
| `SeedKeys.InventoryIsThere` | scripts/seed_shopmind_catalog.py:92-96 | After a run a SKU has an inventory row if and only if it had one before or a file lists the SKU |
| `SeedCollisions.CollidesExactly` | scripts/seed_shopmind_catalog.py:57-101 | On every catalog that meets its primary and foreign keys, a run over several files fails if and only if one of them repeats an attribute code whose attribute is not there, or a SKU code whose inventory is not there while every product and SKU in between is; what is there is told from the catalog before the run and the files before |
| `CatalogValidation.CheckCode` | scripts/validate_shopmind_catalog.py:89-102 | A code is missing, repeated or remembered, exactly one of the three |
| `CatalogValidation.CountProduct` | scripts/validate_shopmind_catalog.py:88-150 | The stock, document and product counters and the prices of one product |
| `CatalogValidation.ValidateCatalogFiles` | scripts/validate_shopmind_catalog.py:36-165 | The nested loops over files and products leave the report of the specification |
| `ValidationLaws.IssuesInClosedForm` | scripts/validate_shopmind_catalog.py:61-165 | The number of issues of every code: repeats are codes less distinct codes, anything else is what the files are to blame for one by one |
| `ValidationGuarantees.ValidExactly` | scripts/validate_shopmind_catalog.py:61-165 | A report is valid if and only if every file is clean on its own and no category, product, legacy or SKU code is repeated in any file |
| `ValidationIssues.IssuesAreFaults` | scripts/validate_shopmind_catalog.py:57-150 | An issue is reported, with its path and its text, if and only if one of the files has that fault at that place |
| `ValidationIssues.CountsAre` | scripts/validate_shopmind_catalog.py:151-165 | The report counts distinct product codes, SKU codes and category names, and is valid without an issue |
| `ValidationOrder.EveryCodeIsAccountedFor` | scripts/validate_shopmind_catalog.py:89-125 | For each kind of code, distinct, repeated and missing codes add up to the products visited |
| `ValidationOrder.BucketsAreSums` | scripts/validate_shopmind_catalog.py:74-150 | Each counter of a category's bucket is the sum over the products of that category's files |
| `ValidationOrder.StockIsAccountedFor` | scripts/validate_shopmind_catalog.py:136-142 | Per category, products in stock, out of stock and without usable stock add up to its products and SKUs |
| `ValidationOrder.OrderDoesNotMatter` | scripts/validate_shopmind_catalog.py:36-165 | The order of the files changes neither the verdict, nor the counts, nor the number of issues of any code |
| `ValidationOrder.BucketsDoNotDependOnOrder` | scripts/validate_shopmind_catalog.py:74-150 | Nor any product, SKU, stock or document counter of a category |
| `ValidationOrder.PriceRangeIs` | scripts/validate_shopmind_catalog.py:150-155 | The price range of a category is attained by SKUs of its readable files and holds the prices of all of them |
| `ValidationOrder.PriceRangeDoesNotDependOnOrder` | scripts/validate_shopmind_catalog.py:150-155 | Nor the price range of a category |
| `ValidationOrder.AttributesAreOfFirst` | scripts/validate_shopmind_catalog.py:74-77 | The attribute count of a category is that of its first readable file |
| `ValidationOrder.AttributeCountIgnoresOrderExactly` | scripts/validate_shopmind_catalog.py:74-77 | Every order of the files shows the same attribute count for a category if and only if its readable files list equally many definitions |
| `CandidateContexts.ContextStore.Prune` | app/repositories/candidate_contexts.py:40-70 | Deletes expired rows and then the oldest beyond the limit, and counts them |
| `CandidateContexts.ContextStore.Save` | app/repositories/candidate_contexts.py:73-118 | Creates or replaces the list of the stripped user and thread, keeping its creation time, then prunes |
| `CandidateContexts.ContextStore.Get` | app/repositories/candidate_contexts.py:121-146 | Returns a live list and deletes an expired one |
| `CandidateContexts.ContextStore.Clear` | app/repositories/candidate_contexts.py:149-169 | Removes exactly that list and reports whether it was there |
| `CandidateContexts.PrunedIsPruned` | app/repositories/candidate_contexts.py:40-70 | Pruning leaves no expired row, at most the limit, and among the live rows the newest |
| `CandidateContexts.OnlyPruned` | app/repositories/candidate_contexts.py:40-70 | That determines what is left |
| `CandidateContexts.SurvivesPruning` | app/repositories/candidate_contexts.py:40-70 | A live row survives pruning if and only if enough live rows are older |
| `CandidateContexts.ResavedSurvives` | app/repositories/candidate_contexts.py:73-118 | In a store within its limit a list saved again survives its own save, and only expired rows are pruned |
| `CandidateContexts.NewSurvivesExactly` | app/repositories/candidate_contexts.py:73-118 | A new list survives its own save if and only if the live rows are below the limit or one of them precedes it by creation time and scope |
| `WriteHandoff.ExtractQuantity` | agents/shopmind_multi_agent/write_handoff.py:124-138 | The first positive match of the patterns in order, then the Chinese digit, then one |
| `WriteHandoff.ResolveCandidateSelection` | agents/shopmind_multi_agent/write_handoff.py:267-298 | No selection, no live list, out of range, or the entry selected with its quantity |
| `WriteHandoff.StoreCandidateContext` | agents/shopmind_multi_agent/write_handoff.py:150-199 | Stores a non-empty candidate list for a scope that is there, or says why not |
| `WriteHandoff.InvokeWriteHandoff` | agents/shopmind_multi_agent/write_handoff.py:504-698 | Every branch of a turn: its reply, what the tool is called with, and the store afterwards |
| `HandoffTurns.NamedProductTurn` | agents/shopmind_multi_agent/write_handoff.py:504-640 | A turn that names a product calls the cart tool with it and with the quantity its message gives, and leaves the lists alone |
| `HandoffTurns.SelectingTurn` | agents/shopmind_multi_agent/write_handoff.py:267-298 | A turn that selects from a live list calls the tool with the entry at that place and its own quantity, or the stored one if its own is one; a place that is not there is refused |
| `HandoffTurns.AskingTurn` | agents/shopmind_multi_agent/write_handoff.py:535-593 | A turn that neither names a product nor finds a list asks which one is meant and stores what it found |
| `HandoffTurns.OtherTurns` | agents/shopmind_multi_agent/write_handoff.py:426-530 | Without a user nothing is done; a preference leaves the lists alone and needs confirmation exactly if the tool prepared it under an id |
| `HandoffRuns.RowAfterTurn` | agents/shopmind_multi_agent/write_handoff.py:504-698 | A list there after a turn is the list before it, unless the turn stored this very list |
| `HandoffRuns.RowLost` | agents/shopmind_multi_agent/write_handoff.py:504-698 | A list is lost only by a successful selection, by expiry at a lookup, or when another scope stores a list, as expired or because the live rows reached the limit |
| `HandoffRuns.StoreStaysWithinLimit` | agents/shopmind_multi_agent/write_handoff.py:41-41 | In every run the store holds at most 100 lists |
| `HandoffRuns.StoredListIsThere` | agents/shopmind_multi_agent/write_handoff.py:150-199 | After a turn that reported a list stored, it is there if and only if the scope had a list already, the live lists were below the limit, or one of them precedes it |
| `HandoffRuns.NewListLostOnlyOnTies` | app/repositories/candidate_contexts.py:40-70 | With a clock that does not go back, a list reported stored is dropped by its own save only if all 100 lists in the store were created at that very instant and none precedes it |
| `HandoffRuns.ConfirmationCarriesPendingId` | agents/shopmind_multi_agent/write_handoff.py:426-698 | Confirmation is required if and only if a called tool prepared an action, and then always carries its pending id |
| `HandoffRuns.FailedSelectionsAreRetryable` | agents/shopmind_multi_agent/write_handoff.py:593-664 | A selection that is out of range or prepared nothing leaves the store as it was, and after any later turns that did not replace or remove the list, selecting from it in time prepares exactly the chosen product and quantity |
| `HandoffRuns.SelectionNamesStoredProduct` | agents/shopmind_multi_agent/write_handoff.py:267-298 | In every run an action prepared from a selection names exactly that entry of the last list stored for the user and thread, still live and not used in between |
| `HandoffRuns.EachListIsUsedOnce` | agents/shopmind_multi_agent/write_handoff.py:678-684 | Two actions prepared by selection in a thread come from two different stored lists |
| `RetrievalMetrics.RecallIs` | evaluation/retrieval_metrics.py:39-48 | Recall is the share of relevant ids among the first k, counted once each, and one exactly when all are there |
| `RetrievalMetrics.CaseIs` | evaluation/retrieval_metrics.py:26-50 | The hit is whether a relevant id is among the first k, recall the share of the relevant ones that are, and the reciprocal rank one over the place of the first, counted from one |
| `RetrievalMetrics.ScoresAreOrdered` | evaluation/retrieval_metrics.py:26-50 | Recall and reciprocal rank are at most the hit, which is one exactly when either is positive |
| `RetrievalMetrics.LookingFurtherIsNotWorse` | evaluation/retrieval_metrics.py:26-50 | All three scores are non-decreasing in k |
| `RetrievalMetrics.EvaluationGrowsWithK` | evaluation/retrieval_metrics.py:26-50 | A case is scored exactly when k is positive and something relevant is given; then its scores are ordered and grow with k |
| `RetrievalMetrics.DroppingRepeatsIsNotWorse` | evaluation/retrieval_metrics.py:26-50 | Removing repeated ids from the ranking lowers none of the scores |
| `RetrievalMetrics.AveragesAreOrdered` | evaluation/retrieval_metrics.py:53-64 | Macro averages keep the order of the scores |
| `RetrievalMetrics.AveragesAre` | evaluation/retrieval_metrics.py:53-64 | Each average is the sum of that score over the cases divided by their number |
| `RetrievalMetrics.AveragesAreNotWorse` | evaluation/retrieval_metrics.py:53-64 | If no case is worse, no average is |
| `QualityMetrics.SortedIsSorted` | evaluation/quality_metrics.py:52-52 | Sorting gives an ascending permutation |
| `QualityMetrics.PercentileIsNearestRank` | evaluation/quality_metrics.py:49-54 | For every percentile the result is a value with at least its rank of values not above it and the rest not below |
| `QualityMetrics.PercentileCounts` | evaluation/quality_metrics.py:49-54 | For percentiles in (0, 1] that rank is ceil(n * p) |
| `QualityMetrics.PercentileIgnoresOrder` | evaluation/quality_metrics.py:49-54 | A permutation of the values has the same percentiles |
| `QualityMetrics.PercentilesGrow` | evaluation/quality_metrics.py:49-54 | Percentiles grow with p and never exceed the maximum |
| `QualityMetrics.MedianBelowP95` | evaluation/quality_metrics.py:81-82 | The median latency is at most the 95th percentile, and both are missing exactly when no task reports one |
| `QualityMetrics.SuccessNeedsExecution` | evaluation/quality_metrics.py:66-67 | If success implies execution task by task, the success rate is at most the execution rate |
| `QualityMetrics.RatesAre` | evaluation/quality_metrics.py:57-80 | Success and execution rates are shares of the tasks, the other three ratios of sums, the violation rate zero when nothing was recommended |
| `QualityMetrics.MeansAre` | evaluation/quality_metrics.py:62-84 | Means are over the tasks that report a value and missing without any |
| `QualityMetrics.PercentilesAre` | evaluation/quality_metrics.py:80-82 | The two latencies are the values of rank ceil(n / 2) and ceil(n * 95 / 100) |
| `RegressionGate.EvaluateCatalog` | evaluation/shopmind_catalog_eval.py:323-412 | Suite by suite, stopping at the first unusable result with its error, else the totals and the candidate of all snapshots |
| `GateLaws.SnapshotExactly` | evaluation/shopmind_catalog_eval.py:259-306 | A suite's result is taken over with its own four counts and its number of failures exactly if it has the suite's schema, four counts in range and a list of failures; the first that fails is the error |
| `GateLaws.EvaluationIs` | evaluation/shopmind_catalog_eval.py:355-412 | The identity, every suite with its own counts, totals as sums, quality as the share of passed checks, and each regression count from the suites of just that category |
| `GateLaws.TotalsAreSound` | evaluation/shopmind_catalog_eval.py:355-408 | Nothing passes that was not counted; every suite passes exactly when none has a failure, and all cases or checks exactly when they do in every suite |
| `RegressionGate.CompareSuite` | evaluation/shopmind_catalog_eval.py:481-522 | The checks of a required suite pass if and only if it is there with the same schema and no lower count |
| `RegressionGate.CompareCandidateToBaseline` | evaluation/shopmind_catalog_eval.py:436-559 | A candidate passes if and only if identities match, the three suite sets coincide, and every count and metric is within its threshold |
| `GateLaws.PassesExactly` | evaluation/shopmind_catalog_eval.py:436-559 | The gate written out: three identities, the suites, two scores that may not fall and three counts that may not rise |
| `GateLaws.BaselineIsAccepted` | evaluation/shopmind_catalog_eval.py:436-559 | The gate accepts the baseline itself if and only if it is a baseline of this catalog |
| `GateLaws.ImprovementKeepsPassing` | evaluation/shopmind_catalog_eval.py:436-559 | A candidate no worse in any count or metric than one that passes, passes |
| `GateLaws.EvaluatedSuitesMatch` | evaluation/shopmind_catalog_eval.py:466-480 | An evaluated candidate's suites match if and only if the baseline has exactly the required ones and the catalog has no optional suite |
| `GateLaws.QualityIsBetweenRates` | evaluation/shopmind_catalog_eval.py:360-373 | The quality score lies between the lowest and highest check rate of suites with checks, and is one without checks |
| `GateLaws.SafetyScoreIsTheLowestRate` | evaluation/shopmind_catalog_eval.py:374-377 | In a valid catalog the safety score is the lowest check rate of the safety suites |
| `MetricLabels.FormatMetricLabels` | evaluation/shopmind_event_reporting.py:254-265 | The loop with its three replacements prints the label text of the specification |
| `MetricLabels.EscapesAgree` | evaluation/shopmind_event_reporting.py:259-263 | Three successive replacements equal one left-to-right escape of each character |
| `MetricLabels.ParsingUndoesFormatting` | evaluation/shopmind_event_reporting.py:254-265 | A reader of the label text gives back all keys and values, whatever characters the values hold |
| `MetricLabels.DifferentLabelsPrintDifferently` | evaluation/shopmind_event_reporting.py:254-265 | Different labels print differently |
| `MetricLabels.EscapedIsOneLine` | evaluation/shopmind_event_reporting.py:259-263 | An escaped value never breaks its line |
| `EventSummary.ExtractDebugEvents` | evaluation/shopmind_event_reporting.py:111-137 | The events of an output are those of its three lists in order |
| `EventSummary.EventsAre` | evaluation/shopmind_event_reporting.py:79-137 | The records are the named events of the candidate list, the handoff and the confirmation in this order, each under its group |
| `EventSummary.SummarizeDebugEvents` | evaluation/shopmind_event_reporting.py:140-175 | The counters hold exactly the event and group names that occur with their multiplicities, the total is the sum of the event counts, and each rate is its count per output |
| `EventSummary.TotalsAgree` | evaluation/shopmind_event_reporting.py:154-161 | Event counts and group counts both sum to the number of events |
| `EventSummary.SummariesAddUp` | evaluation/shopmind_event_reporting.py:140-175 | Counts of concatenated outputs add up, event by event and group by group |
| `EventSummary.KnownEventsKeepTheirGroup` | evaluation/shopmind_event_reporting.py:79-108 | A known event is counted under its own group whichever list it was in |
| `EventSummary.OutputsWithEventsAreBounded` | evaluation/shopmind_event_reporting.py:147-160 | Outputs with events are at most the outputs and at most the events, and none exactly when there is no event |
| `EventSummary.OutputRateIsAShare` | evaluation/shopmind_event_reporting.py:157-175 | The output event rate lies between zero and one; zero exactly without any event, one exactly when every output has one |

## Left out

* The language model calls, prompts, LangGraph wiring, HTTP transport and command lines: calls into other systems.
  The provider's answers, the specialists' work, the ranking and message parsing are arbitrary parameters instead.
* JSON decoding, the regular expressions over messages, retrieval and embeddings: parameters or inputs.
* `recommendation_evidence_node` and the recommendation gate: they choose which documents to fetch; nothing they
  leave is read by the session state that is modelled.
* Clocks: times are inputs of each turn. A turn of the write handoff is one step; two turns of the same thread that
  overlap in time are not modelled. Runs that rank the same shopping thread do overlap, in `SessionStore`.
* SQL: tables are maps. `CatalogSeed` sees added rows at once, as a flushing session does; `SeedFlush` is the model
  of the session that does not. Row ids are numbers in order of insertion rather than random identifiers, and the
  report of dangling legacy ids, which is a query on another table, is not part of this model.
* Constraints of the tables other than the lookup keys: the unique `legacy_product_id` of products and the check
  constraints on statuses, prices, currencies and stock (app/catalog/models.py). A row that violates one fails a run
  in either kind of session; the theorems are about rows that meet them.
* Step dependencies in plans: compiled plans have none, and a proposal that adds one is rejected. Thread start-up,
  event emission and the deadline timer of the executor are not part of this model.
* The validator's count of document files, which is an input, the two-decimal formatting of prices and the final
  sorting of issues; a seed whose JSON is not shaped as objects where the code calls `.get` on it, which raises.
* Floating point: metrics, rates and percentiles are over exact real numbers, so a product like `n * 0.95` is never
  rounded before the ceiling is taken.
* Health checks, dashboards and other text reports over the event summary: comparisons and formatting of the counts
  and rates that are modelled.
- RegressionGate.CompareCandidateToBaseline: visits suites and metrics in no particular order, while the code sorts
  the suites; the order of the listed checks is therefore not stated.
- CatalogValidation.ValidateCatalogFiles: key sets are listed in an order that is a parameter, issues stay in the
  order they are found rather than sorted, and the count of document files is left out.
- EventText.ServerStreamReadsBack: JSON encoding is a parameter; that a serialized payload has no newline and that no
  part of it cut at a line-breaking character decodes are hypotheses on it, which JSON meets because such a character
  can only stand inside a string literal.
- PathEquivalence.UsageAgreement: says nothing of steps with a failed attempt that used something, because there the
  fan-in adds the usage of attempts that the dispatcher's path does not make.
- RegressionGate.EvaluateCatalog: the runners and artifact files are inputs, and of a suite's failures only their
  number is kept.

# Verified model of the agent bus core

This project models, in Dafny, the state machines at the heart of the enhanced agent bus and
proves what they keep over every run: durable workflow execution under crashes, the spec delta
protocol between two parties, the workflow graph executor, the governance decision pipeline, the
caches, queues and stores, and the two numeric services whose bounds matter. `dafny verify
dfyconfig.toml` checks all of it.

Each stateful source class is a Dafny class whose methods change its fields in place and are
proved equal to a specification function of the old state. The theorems are lemmas about those
functions, over all inputs, all runs and all interleavings.

## The parts

| files | what they model |
|---|---|
| `JsonValues`, `Dicts`, `Strings` | JSON values under Python's equality (1 == True == 1.0), insertion-ordered dictionaries, stripping |
| `Durable`, `DurableChain`, `DurableResume`, `DurableRows`, `DurableExecutors` | durable_execution.py: one run as a machine over its await points; chains of crashes, cancels and resumes; which stored rows are safe to resume from; which rows and which end an undisturbed run leaves, read off its steps; the executor's loops |
| `SpecDelta`, `SpecCompressor`, `SpecChannel` | context_optimization.py, the delta protocol: deltas, baselines with eviction, a first-in-first-out channel and an unreliable one |
| `DecisionCache`, `PartitionedBus` | context_optimization.py, the governance decision cache whose lock is released around the upstream call, and the partitioned bus |
| `WorkflowGraph`, `WorkflowExecutors` | langgraph_orchestrator.py: the worklist over a possibly cyclic graph, for any pick order |
| `Governance`, `GovernanceRules`, `GovernanceLaws`, `GovernanceVerdicts`, `GovernancePipeline` | the gates and the legacy, shadow and enforced governance cores, with their counters and receipts; the rules they judge by, stated on the message; the laws over modes and runs; the verdict and what it is stored with, mode by mode |
| `BatchCache`, `Audit`, `LocalBus`, `LocalEventBuses`, `OpaClient`, `DecisionStore` | the in-memory cache, the batching audit client, the per-subscription bus, the fail-closed policy cache, the decision store without Redis |
| `Reals`, `AutoTuner`, `Explanation` | batch_auto_tuner.py, and the variance, confidence and fallback score of explanation_service.py, over reals |

## What the code does that its documentation does not say

- Durable execution is described as recovery from the last checkpoint. A resume always starts one
  past the row's index (durable_execution.py:537), and a row written before its step succeeded
  (before-step, FAILED, or a cancel in mid-step) stands at that step's own index, so the step is
  passed over. `DurableResume.ResumeTheorem` gives the exact condition: a row leads to the
  uninterrupted run's end if and only if it already holds its own step's result.
  `DurableResume.BeforeRowsAreUncovered` is a row that does not, and
  `DurableResume.QuietWorkflowsResumeWell` says for which workflows all do.
- `resume()` picks the row with the greatest index (durable_execution.py:291-296), which may be left
  from an earlier execution of the workflow with another context. The resumed run then ends as that
  execution would: `DurableResume.ResumeTheorem`.
- A delta cannot carry a new or changed key that starts with `__removed__`: the receiver takes it
  for a removal (context_optimization.py:167, 307). `SpecDelta.RoundTrip` holds exactly without such keys;
  `SpecDelta.MarkedKeyIsLost` has one.
- "No change" payloads carry no baseline checksum (context_optimization.py:218-223), so the receiver
  accepts them whatever it holds. `SpecChannel.UnchangedReceive` says when they are right,
  `SpecChannel.LateUnchangedPayloadIsWrong` is one that is not.
- A governance answer asked for before `invalidate()` is cached after it if the call was in flight
  (context_optimization.py:464-541): `DecisionCache.FreshUnlessInFlight` and
  `DecisionCache.InFlightAnswersSurviveInvalidation` are the two halves.
- The decision cache makes room before it looks whether the key is there (context_optimization.py:535-541),
  so two calls for one key in flight at once evict another key that had its place:
  `DecisionCache.TwoCallsEvictAnotherKey`.
- A partition's buffer is never drained (context_optimization.py:643-659), so once it is full every
  later message is dropped: `PartitionedBus.EveryPartitionIsExact`.
- The plain `Exception` of a failing node or of the iteration guard (langgraph_orchestrator.py:454,
  463) is not among the errors caught at 411, so the execution stays RUNNING and is counted neither as
  a success nor as a failure: `WorkflowExecutors.WorkflowExecutor.Execute`.
- `delete` of a decision forgets the message index of every tenant's decision with the same id
  (decision_store.py:425-434): `DecisionStore.DeleteForgetsMessages`, and
  `DecisionStore.DeletingForgetsAnotherTenantsMessage` for one.
- A decision stored again with another message is still found by the first, and then bears the
  other (decision_store.py:260-266): `DecisionStore.AnEarlierMessageFindsTheLaterStore`.
- The independent-validator gate compares the validator's name as written with the sender's and
  reads one of two fields (gate_coordinator.py:80-104), while the mesh is asked with both, stripped
  (governance_coordinator.py:70-80). `GovernanceLaws.WhenTheSenderIsAsked` says when the sender is
  then asked about its own message.
- A message whose sender's tenant is "all" reaches each "all" subscription twice
  (local_bus.py:78-92): `LocalBus.OnceEach`, and `LocalBus.AllToAllArrivesTwice` for one.
- A batch whose answer has status 200 and a body that does not parse is counted nowhere
  (audit_client.py:367-369): `_submit_batch` raises after the batch has left the queue, and the flush
  worker only logs the error (284). `Audit.EscapesExactly` has the exact circumstances,
  `Audit.UnparsedAnswerLosesTheBatch` a run.
- The OPA cache measures an entry's age from when it was cached, which is after the breaker has
  recorded the success, not from the reply (cb_opa_client.py:175-179, 244-250). A cached allow can
  so be older than cache_ttl by the time the recording took: `OpaClient.ServedWhileYoung` is the
  exact condition and `OpaClient.SlowRecordServesAnOldAllow` a run.
- Low latency does not always grow the batch: below 1/factor items a growth step truncates back to
  the same size (batch_auto_tuner.py:66): `AutoTuner.SustainedLowLatency`, and
  `AutoTuner.SmallBatchesStall` for one that does.

## Model

| member | source | states |
|---|---|---|
| Durable.AdvanceProgress | durable_execution.py:511-641 | every step from one await point to the next decreases (steps left, phase, retries left), so every run that is not crashed ends |
| DurableChain.HappenInv | durable_execution.py:209-256 | executions, resumes, ticks, cancels and crashes, of any number of runs at once over one workflow's rows, keep the chain invariant: rows hold results below their index only, no index under two spellings, missing results bounded by the uncovered resumes |
| DurableChain.ChainTheorem | durable_execution.py:531-596 | over any chain of executions, crashes, cancels and resumes, one after the other or at once: a row at index k has results for indices at most k, a step with a result is never executed again, and at success at most as many steps lack a result as there were resumes from rows without their own step's result |
| DurableChain.UndisturbedRunCompletes | durable_execution.py:550-596 | any live run of a chain, left alone, ends in exactly the state that execution to completion gives |
| DurableChain.OriginsAreExecuted | durable_execution.py:531-548 | every run of a chain, and every row, goes back to an execution of that chain |
| DurableChain.CrashedForGood | durable_execution.py:531-596 | a crash leaves the rows as they are and the run where it was, whatever happens after it |
| DurableChain.CancelledOnce | durable_execution.py:730-742 | a cancel saves a PAUSED row at the current step and leaves the run going as it was; no later cancel of it, whatever happens between, has any effect |
| DurableResume.CompleteAlike | durable_execution.py:102-134 | two runs whose states agree up to the spelling of result keys end with the same flag, results, variables and error, whatever rows are stored |
| DurableResume.PassedOverDiffers | durable_execution.py:535-539 | a run that still has step i to do never ends like one that passed it over |
| DurableResume.SavedRow | durable_execution.py:659-680 | any row a lossless run writes leads, when resumed from, to that run's own end if and only if it holds its own step's result |
| DurableResume.ResumeTheorem | durable_execution.py:531-596 | for any executions, from whatever variables, any crash points, cancels, concurrent runs and checkpoint interval: as long as each resume is from a covered row, every finished run ends exactly as the execution it goes back to would uninterrupted, and a stored row leads to the end of its own execution if and only if it is covered |
| DurableResume.WrittenCovered | durable_execution.py:556-579 | a row written by a run that lost nothing is covered if and only if the run waits after its step or has completed |
| DurableResume.ResumePicksACoveredRow | durable_execution.py:682-701 | where no row is ever written earlier than that, every row is covered, so the one resume() picks leads to the end of its own execution |
| DurableResume.QuietWorkflowsResumeWell | durable_execution.py:554-590 | that is so for every workflow in which no before-step checkpoint is due and no step is given up, as long as no cancel falls into a step |
| DurableResume.BeforeRowsAreUncovered | durable_execution.py:558-562 | a before-step checkpoint writes a row that is not covered, so a run resumed from it ends otherwise than the run nothing interrupts |
| DurableRows.RowsOfARun | durable_execution.py:554-599 | an undisturbed run leaves a row at index k, and one that holds k's own result, if and only if k is the last step, or the step that gave up, or a before-step or after-step checkpoint is asked for at k and the interval divides k |
| DurableRows.AfterStepRows | durable_execution.py:653-657 | with automatic checkpoints a step that returns and asks for an after-step checkpoint leaves a row with its result if and only if its index is a multiple of the interval; with interval 1 always |
| DurableRows.RowsWithoutAutoCheckpoints | durable_execution.py:581-599 | without automatic checkpoints the only row is the final or the failed one |
| DurableRows.ZeroIntervalRaises | durable_execution.py:653-657 | with an interval of zero a run whose first step asks for a checkpoint before it raises there, and leaves no row |
| DurableRows.EndOfARun | durable_execution.py:554-599 | an undisturbed run stops at the first step that gives up and is not to be passed over, with its error, or completes; each step it got through holds its own result, and one passed over the skip note |
| DurableExecutors.AttemptsEnd | durable_execution.py:601-641 | the retry loop's outcome is what the await-point machine reaches from the first attempt |
| DurableExecutors.DurableExecutor.CreateCheckpoint | durable_execution.py:238-256 | one row per (workflow, index): a save replaces it and leaves the other workflows' rows alone |
| DurableExecutors.DurableExecutor.GetLatestCheckpoint | durable_execution.py:284-311 | the greatest stored index, none exactly when the workflow has no rows |
| DurableExecutors.DurableExecutor.ExecuteStep | durable_execution.py:601-641 | at most max_retries + 1 attempts in order, the last error if all fail, and a total backoff of retry_delay * (2^retries - 1), retries being max_retries when the step gives up |
| DurableExecutors.DurableExecutor.RunStep | durable_execution.py:554-590 | one turn of the loop keeps the end of the run, or leaves the loop with it |
| DurableExecutors.DurableExecutor.RunFrom | durable_execution.py:554-596 | the loop returns, stores or raises exactly what the await-point machine ends with |
| DurableExecutors.DurableExecutor.Execute | durable_execution.py:511-599 | a fresh execution, or one resumed from any workflow's stored row, ends as the machine does from step 0 or one past the row's index; an unknown checkpoint is an error that changes nothing |
| DurableExecutors.DurableExecutor.Resume | durable_execution.py:682-701 | resumes from the row with the greatest index, answers from it if it is COMPLETED, errors without rows |
| JsonValues.PyEqMeaning | context_optimization.py:150-172 | Python's equality of JSON values: one number (True as 1, False as 0), the same text, or containers equal element by element |
| SpecDelta.DeltaMeaning | context_optimization.py:150-172 | the delta holds exactly the new or changed keys with their values and a null marker for each removed key |
| SpecDelta.EmptyDelta | context_optimization.py:150-172 | the delta is empty exactly when the specs are equal as Python compares them |
| SpecDelta.MarkersAreNeverWritten | context_optimization.py:302-310 | applying a delta never writes a key that starts with the removal prefix |
| SpecDelta.RoundTrip | context_optimization.py:150-172 | applied to any copy of the sender's baseline, the delta rebuilds the sender's spec if and only if no new or changed key starts with the removal prefix |
| SpecDelta.MarkedKeyIsLost | context_optimization.py:302-310 | a concrete new key that starts with the removal prefix and does not arrive |
| SpecDelta.SpellingMayDiffer | context_optimization.py:150-172 | the copy may spell an equal value differently (1 for True), and the rebuilt spec keeps that spelling |
| SpecDelta.EvictKeeps | context_optimization.py:320-335 | what eviction leaves is unchanged, at most ttl old, and within the size bound |
| SpecDelta.EvictKeepsTheNewest | context_optimization.py:320-335 | eviction keeps exactly the most recently used max_baselines of the entries at most ttl old, in order |
| SpecDelta.CompressHolds | context_optimization.py:174-267 | after compress the sender holds the compressed spec under its id, and every other entry is one it held before |
| SpecDelta.CompressByAge | context_optimization.py:174-267 | a baseline older than ttl, pushed out by max_baselines newer ones, or missing, is replaced by a full payload of version 1; any other is built on, with a delta or "no change" payload against it and the next version |
| SpecDelta.DecompressAnyPayload | context_optimization.py:269-318 | which payloads are accepted and which refused, whatever is held; a full one is held as version 1 made now, a refused one changes nothing, and an accepted delta keeps the baseline's age and takes a checksum and version of its own result where it brings none |
| SpecCompressor.SpecDeltaCompressor.ComputeDelta | context_optimization.py:150-172 | the two loops build the specified delta, and has_changes says whether it is non-empty |
| SpecCompressor.SpecDeltaCompressor.EvictStaleBaselines | context_optimization.py:320-335 | the loops leave the table without stale entries, trimmed from its least recently used end |
| SpecCompressor.SpecDeltaCompressor.Compress | context_optimization.py:174-267 | table and payload are those of the protocol's send step: full, delta or "no change" |
| SpecCompressor.SpecDeltaCompressor.ApplyDelta | context_optimization.py:302-310 | the loop computes the specified application of a delta, on any base |
| SpecCompressor.SpecDeltaCompressor.Decompress | context_optimization.py:269-318 | table, spec and success flag are those of the protocol's receive step; a refusal changes nothing |
| SpecChannel.OneSend | context_optimization.py:174-318 | with both sides agreeing, one compressed spec is accepted, and arrives intact with agreement restored if and only if the send was clean |
| SpecChannel.SendAtTheEnd | context_optimization.py:174-267 | a send behind any number of undelivered packets keeps the two sides in step if and only if it is clean |
| SpecChannel.StepInStep | context_optimization.py:174-335 | every event keeps sender, channel and receiver in step, except an unclean send, which never does |
| SpecChannel.FifoTheorem | context_optimization.py:174-335 | over a first-in-first-out channel with any delay and interleaving every decompress succeeds and returns the spec compressed, and with the channel drained the receiver agrees with all the sender holds in data, checksum and version |
| SpecChannel.LossyReceive | context_optimization.py:276-318 | a payload delivered at any time either leaves the receiver unchanged or is accepted; an accepted one yields its own spec, under true checksums, if and only if it is not a "no change" payload that meets a checksum of another spec |
| SpecChannel.LossyTheorem | context_optimization.py:218-318 | over a channel that drops, duplicates and reorders, every accepted delivery of a run yields its own spec and every refused one changes nothing, for clean sends and "no change" payloads that meet the checksum they stand for |
| SpecChannel.UnchangedReceive | context_optimization.py:218-223 | a "no change" payload is accepted by any receiver that holds its id, and is right if and only if the checksums held and sent are of equal specs |
| SpecChannel.LateUnchangedPayloadIsWrong | context_optimization.py:218-223 | a run from two empty parties: a spec is sent, sent again, and another sent; the packets arrive first, third, second; the second is accepted, returns another spec, and leaves a spec under a foreign checksum |
| SpecChannel.RunsFromTheBeginning | context_optimization.py:124-141 | from two empty parties both channel theorems hold with nothing more asked of the start |
| DecisionCache.NeverOverTheBound | context_optimization.py:529-541 | in every interleaving of lookups, answers and invalidations the cache stays a valid dictionary within its size bound |
| DecisionCache.EveryLookupCounted | context_optimization.py:470-498 | a hit is counted exactly for each lookup that finds its key unexpired, every other lookup is a miss, and misses are the upstream calls, each settled or in flight |
| DecisionCache.CachedIsLatest | context_optimization.py:464-541 | in every interleaving a cached decision is the last cacheable one upstream gave for its key since the key was invalidated or looked up expired; a denial is cacheable only with negative caching |
| DecisionCache.HitsAreBacked | context_optimization.py:474-482 | a hit serves an unexpired answer upstream gave for that very key, not invalidated or superseded since, and a denial only with negative caching |
| DecisionCache.FreshUnlessInFlight | context_optimization.py:464-564 | a key with no call in flight when it is invalidated, with everything or by a pattern it contains, is cached afterwards only once asked for again |
| DecisionCache.InFlightAnswersSurviveInvalidation | context_optimization.py:464-564 | a key with a call in flight when it is invalidated, either way, can be cached afterwards with the answer to the earlier question |
| DecisionCache.EvictionsAreCounted | context_optimization.py:529-541 | each cacheable answer that meets a full cache evicts one entry and counts it, and nothing else does |
| DecisionCache.RecentlyUsedIsServed | context_optimization.py:464-564 | a decision stored or hit is served until it expires and no longer, whatever else happens, as long as it is not invalidated and fewer than max_size - 1 other keys are asked or answered |
| DecisionCache.TwoCallsEvictAnotherKey | context_optimization.py:529-541 | that bound is not max_size: a concrete run with room for two in which one other key, answered twice, evicts the first |
| DecisionCache.ContainsMeaning | context_optimization.py:543-564 | the pattern test finds exactly the keys in which the pattern stands at some position |
| DecisionCache.CachedGovernanceValidator.BeginValidate | context_optimization.py:470-488 | the first locked section: a hit moves to the end, an expired entry goes, counters as specified |
| DecisionCache.CachedGovernanceValidator.EndValidate | context_optimization.py:488-493 | the second locked section is the specified answer step |
| DecisionCache.CachedGovernanceValidator.CacheDecision | context_optimization.py:529-541 | evicts from the old end while full, even for a key already held, and counts the evictions |
| DecisionCache.CachedGovernanceValidator.InvalidatePattern | context_optimization.py:543-564 | removes exactly the keys containing the pattern and returns how many |
| PartitionedBus.EveryPartitionIsExact | context_optimization.py:643-659 | in every interleaving each partition holds exactly the first max_buffer messages routed to it, in order, and counts the rest as dropped |
| PartitionedBus.PartitionMeaning | context_optimization.py:752-756 | a key's partition is what remains of its hash when multiples of the number of partitions are taken away |
| PartitionedBus.KeysStayTogether | context_optimization.py:752-756 | all messages of one key go to the partition of its hash's remainder, in publishing order, and none to another |
| PartitionedBus.PublishedIsBuffered | context_optimization.py:731-789 | total_published plus publishes still notifying or cancelled there equals the sum of all partition buffers |
| PartitionedBus.OptimizedAgentBus.CreateTopic | context_optimization.py:731-750 | a topic is made once, with as many empty partitions as asked; a second creation changes nothing |
| PartitionedBus.OptimizedAgentBus.Offer | context_optimization.py:643-656 | a partition takes the message at the end of its buffer, or drops it when full, and counts which |
| PartitionedBus.OptimizedAgentBus.BeginPublish | context_optimization.py:758-786 | creates a missing topic with its default count, then accepts, drops or raises as the routing step specifies |
| PartitionedBus.OptimizedAgentBus.EndPublish | context_optimization.py:783-789 | a publish is counted once its subscribers have been notified |
| WorkflowGraph.VisitInv | langgraph_orchestrator.py:423-460 | one turn keeps: history distinct and equal to the executed set, pending disjoint from executed, every existing target of a done node done or pending, everything justified by an earlier node |
| WorkflowGraph.FinishedIsReachable | langgraph_orchestrator.py:423-460 | with nothing pending, exactly the existing nodes reachable along the edges followed have been executed, each once |
| WorkflowGraph.FinishedIsStaticallyReachable | langgraph_orchestrator.py:325-340 | without conditional edges that set is static reachability, whatever the pick order |
| WorkflowGraph.VisitProgress | langgraph_orchestrator.py:425-460 | each turn decreases a bound on the turns left, on cyclic graphs with dangling targets too; a turn in which a node raises is the last and had one left |
| WorkflowGraph.UnguardedRunsEnd | langgraph_orchestrator.py:425-463 | without its guard the loop ends: no sequence of picks is longer than the bound |
| WorkflowGraph.SmallGraphsStayBelowTheGuard | langgraph_orchestrator.py:425-463 | in a graph without dangling targets or failing nodes the first bound is the number of nodes |
| WorkflowGraph.RunVerdict | langgraph_orchestrator.py:423-463 | however nodes are picked: a normal end has executed exactly the reachable nodes, a failed node is the last executed, a node that raises has not been executed, and in a self-contained graph the iteration error is raised if and only if 100 or more nodes are reachable |
| WorkflowGraph.RunsFollowTheirEdges | langgraph_orchestrator.py:325-340 | in every run each executed node exists, is executed once, and but for the entry was led to by an earlier one; a node with a condition leads to exactly the non-empty answer of the condition on the history up to it, any other to exactly its static targets; a normal end leaves out no existing node that is led to |
| WorkflowExecutors.WorkflowExecutor.RecordNodeExecution | langgraph_orchestrator.py:128-137 | result, executed, pending, failed and history change together as specified |
| WorkflowExecutors.WorkflowExecutor.ExecuteWorkflow | langgraph_orchestrator.py:423-463 | the loop's outcome and state are those of a legal sequence of picks |
| WorkflowExecutors.WorkflowExecutor.Execute | langgraph_orchestrator.py:364-421 | COMPLETED and a success counted after a normal end, FAILED and a failure counted when a node itself raises a listed error, RUNNING and neither after a failed node, the guard or any other error |
| GovernanceRules.TierGateMeaning | message_processor_components.py:88-150 | the tier gate lets a message through if and only if an advisory one is no command and of no blocked type, a human-approved one names a validator, and an unrestricted one has both grant texts; otherwise it says which |
| GovernanceRules.ValidatorGateMeaning | gate_coordinator.py:56-121 | the validator gate lets a message through if and only if none is required, or it names a validator, not as written its sender, and no other stage; otherwise the reason says which failed first |
| GovernanceRules.HashMeaning | validators.py:98-126 | the hash check passes exactly the expected string, and its one error shows at most eight characters of another |
| GovernanceRules.StripMeaning | governance_coordinator.py:59-80 | stripping drops the white space at both ends and nothing else |
| GovernanceRules.AskedMeaning | governance_coordinator.py:70-98 | the validators asked are the stripped non-blank names of the two fields in order, a common one once |
| GovernanceRules.InputMeaning | governance_coordinator.py:78-99 | each field of the governance input, with the producer's default name and when a validator is needed |
| GovernanceRules.RoleMeaning | governance_coordinator.py:61-68 | the role is the non-blank text in the metadata, else any string in the security context |
| GovernanceRules.ReceiptMeaning | governance_core.py:520-602 | what a receipt says, that the provider is shown it without attestation, and that only the provider's answer is added |
| GovernanceRules.BlockedBeforeTheDna | governance_core.py:380-404 | a hash that does not fit blocks the swarm at stage constitutional_hash, and a swarm that is not there at swarm_unavailable |
| GovernanceRules.DecidedByTheDna | governance_core.py:406-435 | violations block at constitutional_rules with their reasons and rule hits; without any, and with no peers to ask, the swarm allows |
| GovernanceRules.DecidedByThePeers | governance_core.py:437-508 | otherwise the mesh's answer decides, with the reason quorum, rejection or violation gives, and its votes and trust are kept |
| GovernanceRules.RuleHitsMeaning | governance_core.py:632-654 | each violation adds the stripped text before its first colon, unless blank |
| GovernanceLaws.OneRejectionOneCount | gate_coordinator.py:49-54 | whichever gate or core rejects, the failure counter moves by exactly one, and by none otherwise |
| GovernanceLaws.FailuresAreRejections | message_processor_components.py:152-180 | over any sequence of messages the failure counter equals the number of rejected messages |
| GovernanceLaws.SwarmDecisionCoherent | governance_core.py:380-540 | a swarm decision is blocked by a stage exactly when not allowed, and its receipt agrees, attested or not |
| GovernanceLaws.StoredDecisionsCohere | governance_coordinator.py:134-268 | every decision left in a context is coherent, its receipt agrees on allowed, stage and reasons, and the caller is told the same |
| GovernanceLaws.SwarmRaises | governance_coordinator.py:143-205 | the swarm raises exactly what the DNA, the quorum resolver, the mesh or the attestation provider raised when it was asked |
| GovernanceLaws.ShadowNeverInterferes | governance_coordinator.py:101-268 | in shadow mode outcome, errors, reason and failure count are those of legacy mode if and only if none of the swarm's collaborators, when asked, raises an unlisted exception |
| GovernanceLaws.ABrokenDnaInterferes | governance_coordinator.py:143-205 | a concrete message and a DNA that raises an unlisted error: shadow mode raises where legacy mode accepts |
| GovernanceLaws.OneShadowCount | governance_coordinator.py:143-268 | each shadow run that returns bumps exactly one of match, mismatch and error, mismatch exactly when the cores disagree |
| GovernanceLaws.ShadowNeverInterferesOverRuns | governance_coordinator.py:101-268 | the same visible outcomes and failure count over any sequence of messages |
| GovernanceLaws.DedupeMembers | governance_core.py:619-629 | deduplication keeps exactly the non-empty strings, each once |
| GovernanceLaws.NamedValidatorIsAsked | gate_coordinator.py:67-121 | a message the validator gate passes names a non-blank validator, as written not its sender, whose stripped name is in the list the mesh is asked with |
| GovernanceLaws.WhenTheSenderIsAsked | gate_coordinator.py:80-104 | past the gate the sender is in that list if and only if one of the two fields still names it, surrounding white space apart, and nobody else is if and only if every field that names anybody does; the field the gate read then has white space around the name |
| GovernanceLaws.WhiteSpacePassesTheGate | governance_coordinator.py:70-80 | a concrete sender that names itself with a trailing space, passes the gate, and is the only one asked |
| GovernanceLaws.SecondFieldPassesTheGate | governance_coordinator.py:70-80 | a concrete sender that is asked because the field the gate does not read names it |
| GovernanceLaws.EnforcedPasses | governance_core.py:437-508 | with enforcement on, a message needing independent validation passes if and only if every gate passes it, its hash and content are acceptable, the mesh accepts it with quorum over the deduplicated validators, and neither attestation raises; the list then holds the named validator, and somebody other than the sender unless the fields name only the sender |
| GovernanceLaws.EnforcedMeansUnanimity | governance_core.py:548-575 | unless the quorum is adaptive, the mesh was asked for every validator's vote, over a non-empty list |
| GovernanceVerdicts.FirstObjectionDecides | message_processor_components.py:152-180 | tier, scan, validator, injection: the first that objects refuses the message with its own reason, one failure and nothing stored; an exception goes through uncounted |
| GovernanceVerdicts.LegacyPasses | governance_core.py:231-247 | in legacy mode a message passes if and only if no gate objects, its receipt is made, and its hash is the expected string |
| GovernanceVerdicts.LegacyDecides | governance_coordinator.py:101-268 | past the gates in legacy mode: the stored decision judges the hash and nothing else, its receipt is as described, and another hash is refused with reason constitutional_hash and the one error |
| GovernanceVerdicts.BothDecide | governance_coordinator.py:233-268 | with both decisions made: they are compared and counted, the swarm's is stored and told when enforced and the legacy one in shadow mode, with its receipt and the comparison |
| GovernanceVerdicts.ListedErrors | governance_coordinator.py:193-224 | a listed exception of an enforced swarm refuses the message with reason swarm_error and its text, and stores nothing |
| GovernanceVerdicts.ShadowNotes | governance_coordinator.py:115-232 | in shadow mode the same, or a swarm that is not there, is noted with its text and counted, and the legacy decision stands |
| GovernanceVerdicts.EnforcedPassesOnlyOnTheHash | governance_core.py:380-508 | enforced, with or without peers: a message passes if and only if no gate objects, both receipts are made, its hash is the expected string, the DNA finds its content valid, and the peers approve wherever they are asked |
| GovernancePipeline.DedupeStrings | governance_core.py:619-629 | the loop with its seen-set computes the specified list |
| GovernancePipeline.ExtractRuleHits | governance_core.py:632-654 | the loop collects the stripped rule name before the first colon of each violation that has one |
| GovernancePipeline.Pipeline.RunSwarm | governance_coordinator.py:143-268 | verdict, stored artifacts and counters of the swarm comparison, with its error path by mode |
| GovernancePipeline.Pipeline.Govern | governance_coordinator.py:101-268 | verdict, stored artifacts and counters of run() |
| GovernancePipeline.Pipeline.RunGates | message_processor_components.py:152-180 | first objection wins, counted once, by the gate itself or by the runner |
| GovernancePipeline.Pipeline.Run | gate_coordinator.py:132-148 | verdict, context and counters of one message through gates and governance |
| BatchCache.StepInv | batch_cache.py:201-279 | every operation keeps the cache a valid dictionary of at most max_size entries |
| BatchCache.StackDistanceTheorem | batch_cache.py:211-258 | a key set or hit and then left alone still answers with its value if fewer than max_size distinct other keys were set or hit since and it has not expired; if and only if, when nothing was deleted or found expired meanwhile; later than ttl after it was set it is never served |
| BatchCache.BatchValidationCache.GetEntry | batch_cache.py:201-228 | value, order and counters as specified; an expired entry goes |
| BatchCache.BatchValidationCache.SetEntry | batch_cache.py:230-258 | an existing key is replaced and moved to the end, a new one evicts from the old end first |
| BatchCache.BatchValidationCache.DeleteEntry | batch_cache.py:260-274 | the entry is gone, and the answer says whether it was there |
| Audit.Conservation | audit_client.py:203-404 | over every interleaving total_submitted is the number of reports of the run and equals successful, failed, rejected, queued, in flight and lost; batches taken and the queue are the batched reports of the run in order, each batch of size 1 to batch_size |
| Audit.EscapesExactly | audit_client.py:287-404 | past a closed breaker a batch is left uncounted if and only if an entry does not serialise, or the first attempt that is not an error status or a request error brings an unparsable body or another exception; a single report only with an error its submission does not list |
| Audit.LostExactlyByEscapes | audit_client.py:287-404 | what no statistic accounts for is exactly the sum of what the submissions of the run left uncounted under those circumstances |
| Audit.MildRunsLoseNothing | audit_client.py:287-404 | a run whose entries serialise, whose answers parse and whose attempts fail with request errors at worst loses nothing |
| Audit.UnparsedAnswerLosesTheBatch | audit_client.py:367-369 | a concrete run in which one answer with status 200 does not parse and nothing accounts for the report |
| Audit.BatchFate | audit_client.py:335-404 | what a batch is counted as, by the first attempt that decides: as many successful as hashes came back and the others failed, all failed when none decides, all rejected by an open breaker, all uncounted otherwise |
| Audit.SingleFate | audit_client.py:287-333 | likewise for one report, whose own errors and unparsable body count as failed |
| Audit.AuditClient.QueueForBatch | audit_client.py:246-262 | the batch handed over and the queue are the old queue and the new entry, handed over exactly when the size is reached |
| Audit.AuditClient.SubmitBatch | audit_client.py:335-404 | the retry loop's statistics are the specified tally |
| Audit.AuditClient.SubmitSingle | audit_client.py:287-333 | likewise for one report |
| LocalBus.SinceSubscribing | local_bus.py:107-118 | each subscription comes from a subscribe event of the run, of its tenant and with its type among the types, and its history is what was put on the bus after that event |
| LocalBus.EverySubscriptionIsExact | local_bus.py:78-154 | in every run, handled messages followed by the queue are what the subscription is due of the messages sent or published after the event that made it, in order |
| LocalBus.OnceEach | local_bus.py:78-92 | each matching message, from the subscription's own tenant (one without a tenant counts as the default tenant's) or sent by anybody to an "all" subscription, arrives exactly once if and only if no "all"-tenant sender meets an "all" subscription |
| LocalBus.AllToAllArrivesTwice | local_bus.py:78-92 | a concrete run that queues one message twice |
| LocalEventBuses.SubscribersAreCopies | local_bus.py:78-92 | the subscriber list holds each queue as often as its subscription is due a copy |
| LocalEventBuses.LocalEventBus.SendMessage | local_bus.py:69-92 | refuses before start; otherwise every subscription gets what it is due and nothing else |
| LocalEventBuses.LocalEventBus.Publish | local_bus.py:138-154 | votes and audit records reach the subscriptions of their own tenant and type only, started or not |
| LocalEventBuses.LocalEventBus.Subscribe | local_bus.py:94-120 | adds one queue per type, due nothing yet |
| LocalEventBuses.LocalEventBus.ConsumeOne | local_bus.py:122-136 | the oldest waiting message of that queue, if any, goes to the handler |
| OpaClient.ReplyMeaning | cb_opa_client.py:271-319 | OPA's reply is read as an allow if and only if it is true, or an object whose "allow" is there and counts as true |
| OpaClient.StepInv | cb_opa_client.py:162-269 | evaluations, replies, caught and uncaught errors keep: equal cache domains, each entry the reply that the last store of its key put there, every allow justified |
| OpaClient.EveryAllowIsBacked | cb_opa_client.py:191-269 | over every interleaving: the stores are the recorded successes of the run's events; every answer was given at an event of the run; an allow from OPA rests on the reply to that very evaluation, a reply that itself allows, between the breaker's permission and the answer; a cached allow was permitted when answered, and rests on the very reply, one that itself allows, that the last store of its key before that event put there, at most cache_ttl ago; the cache's dictionaries have one domain |
| OpaClient.EvaluationsAreAnsweredOnce | cb_opa_client.py:191-269 | over every interleaving no evaluation is answered twice from OPA's reply, and one that has been is no longer pending |
| OpaClient.LaterStoresAreLater | cb_opa_client.py:175-179 | the stores a cached answer counts are no later than it, and all others of the run no earlier |
| OpaClient.ServedWhileYoung | cb_opa_client.py:162-179 | an entry is served exactly while the reply behind it is no older than cache_ttl plus the delay of recording the success, so never past cache_ttl if and only if that delay is zero |
| OpaClient.RecordedAtOnceMeansFresh | cb_opa_client.py:244-250 | in a run whose every success is recorded at the time of its reply, no allow rests on a reply older than cache_ttl |
| OpaClient.SlowRecordServesAnOldAllow | cb_opa_client.py:244-250 | a concrete run that answers allow on a reply a thousand times older than cache_ttl |
| OpaClient.CircuitBreakerOPAClient.GetFromCache | cb_opa_client.py:162-173 | the entry if it is no older than the ttl, and an older one leaves both dictionaries |
| OpaClient.CircuitBreakerOPAClient.EvaluatePolicy | cb_opa_client.py:191-269 | denied without touching the cache when the breaker is open; otherwise the cached result, OPA's reply stored, a denial stored nowhere for a listed error, or any other error raised |
| DecisionStore.KeysAreInjective | decision_store.py:216-224 | two keys are equal exactly when the ids and the sanitised tenants are, colons in ids notwithstanding; two tenants are sanitised alike exactly if they differ at most in colons for underscores, none counting as "default" |
| DecisionStore.GetIsLastStored | decision_store.py:231-355 | after any sequence of stores and deletes a decision reads as it was last stored for its sanitised tenant, unless deleted since |
| DecisionStore.IndexedMessagesAreFound | decision_store.py:260-266 | no message index dangles: a message is found exactly while a decision with a non-empty id stored with it is neither replaced in the index nor forgotten, and what is found is that decision as last stored, so it bears the message if and only if that store did |
| DecisionStore.AnEarlierMessageFindsTheLaterStore | decision_store.py:260-266 | a concrete decision stored again with another message and still found by the first |
| DecisionStore.StoreThenGet | decision_store.py:231-355 | a store is read back by id and by message, and disturbs no other id |
| DecisionStore.DeleteThenGet | decision_store.py:403-468 | a delete removes that tenant's decision and no other |
| DecisionStore.DeleteForgetsMessages | decision_store.py:425-434 | and forgets the message index of exactly the decisions with that id, of every tenant |
| DecisionStore.DeletingForgetsAnotherTenantsMessage | decision_store.py:425-434 | a concrete delete by one tenant after which another tenant's stored decision is no longer found by its message |
| DecisionStore.ListsExactlyTheTenant | decision_store.py:490-498 | the listing is exactly the ids stored under the sanitised tenant, once each |
| DecisionStore.SliceMeaning | decision_store.py:490-498 | offsets below zero count from the end; a page has the elements from its offset on, as far as there are any |
| DecisionStore.PagesConcatenate | decision_store.py:490-498 | consecutive pages of any size concatenate to a prefix of the listing, and enough of them to all of it |
| DecisionStore.MemoryDecisionStore.DeleteDecision | decision_store.py:403-468 | tables and answer as specified by the delete step |
| AutoTuner.RecommendedMeaning | batch_auto_tuner.py:43-74 | with three samples or more, an average above the target scales the size down, one below four fifths of it up, truncated toward zero and bounded, and any between leaves it; with fewer it stays |
| AutoTuner.CountersAreExact | batch_auto_tuner.py:35-54 | over any samples each is counted as analysed, and each change of the size as one adjustment |
| AutoTuner.SizeStaysWithinBounds | batch_auto_tuner.py:56-74 | the recommendation stays between its bounds over any samples |
| AutoTuner.HistoryIsAppended | batch_auto_tuner.py:29-51 | the tuner's history is the bounded deque's, whatever the sizes recommended |
| AutoTuner.FullHistory | batch_auto_tuner.py:29-51 | after history_size samples the history is exactly those, nothing older has a say |
| AutoTuner.SustainedOverload | batch_auto_tuner.py:43-74 | from any tuner, once overloaded samples fill the history (or from the second one of a fresh tuner) the size is at most max(min, start * (1 - factor)^n) after n further records and is min after at most start - min |
| AutoTuner.SustainedLowLatency | batch_auto_tuner.py:43-74 | from any tuner, once fast samples fill the history (or from the second one of a fresh tuner) a size below max reaches it, within max - start further records, if and only if start * factor is at least 1; otherwise it never moves |
| AutoTuner.SmallBatchesStall | batch_auto_tuner.py:64-66 | a concrete tuner of four items that no number of fast samples makes grow |
| AutoTuner.BatchAutoTuner.RecordBatchPerformance | batch_auto_tuner.py:35-54 | size, history and counters as specified by the record step |
| Explanation.VarianceLaw | explanation_service.py:686-691 | the variance is the mean of the squares less the square of the mean |
| Explanation.ConfidenceByVariance | explanation_service.py:668-684 | for any factors: 1 less the variance but at least one half, a tenth more at an extreme score, up to 1; one half without factors |
| Explanation.FiveTerms | explanation_service.py:59-67 | which of the five inputs bears which weight |
| Explanation.VarianceAtMostAQuarter | explanation_service.py:686-691 | values in [0, 1] have a variance of at most 1/4 |
| Explanation.NoVarianceIffAgreement | explanation_service.py:686-691 | the variance is zero exactly when all values agree |
| Explanation.ConfidenceRange | explanation_service.py:668-684 | confidence lies in [0.75, 1] whenever there are factors, so its floor of one half never acts, and is 1 exactly when the factors agree or, at an extreme score, vary by at most 0.1; an extreme score raises it by 0.1, up to 1 |
| Explanation.ConfidenceEndsAreReached | explanation_service.py:668-684 | concrete factors that reach each end of that range |
| Explanation.FallbackIsAConvexCombination | explanation_service.py:59-67 | the fallback impact lies between any bounds of its five inputs, and reaches a bound only where all five do |
| Explanation.CalculateVariance | explanation_service.py:686-691 | the two sums compute the specified variance |
| Explanation.CalculateConfidence | explanation_service.py:668-684 | one half without factors, otherwise within [0.75, 1] |
| Explanation.FallbackImpact | explanation_service.py:474-481 | the loop computes the weighted sum |

## Left out

Assumptions of the model:

- Checksums do not collide: a digest stands for the spec it was computed from. Cache and breaker keys are strings taken as given.
- The configured constitutional hash, with which decisions are stamped, is the module constant with which validate_constitutional_hash compares (validators.py:113-116).
- JSON values are compared as Python compares them; NaN, which is unequal to itself, does not occur.
- Clocks are inputs and times are integers; UUIDs, timestamps, metadata, logs and latency metrics are not part of this model.
- Step functions of a workflow read and change its variables only, and results can be written as JSON. Where several runs of one workflow are alive, cancel may find any that has neither ended nor been cancelled; the source keeps only the one launched last.
- A checkpoint is named by its workflow and index, so an id whose row has been replaced since names the row that replaced it; the source no longer finds it.
- A cancel takes the index and the snapshot together; the source turns the state into JSON in a thread shortly after.
- Graph nodes answer with their own id. State data shared between nodes is reduced to what the history determines.
- max_size, max_cache_size of at least 1 and max_baselines of at least 0 are demanded, as the source's eviction loops fail on an empty dictionary otherwise.
- A subscription's handler raises nothing that its consumer task does not catch, and the bus is not stopped.
- Topics given to the bus's constructor are creations before the first publish; two configurations of one name, where the second replaces the first, do not occur there.
- Partition brokers are values inside the bus object, not objects of their own; notifications to their subscribers, which may fail, change no buffer.

Behaviour that is not modelled:

- durable_execution.py: SQLite itself, checkpoint clean-up, deletion and listing, workflow status, the metrics counters.
- context_optimization.py: sizes, ratios and statistics of compression results; subscriptions of the partitioned bus; JSON hashing.
- langgraph_orchestrator.py: a routing condition that raises an unlisted error; pause, resume and cancel of a graph run, which execute marks COMPLETED too (398-402); the built-in governance nodes.
- Governance: content hashes, creation times, workflow events and warnings; session extraction, dead-letter entries and metric enrichment of message_processor_components.py, which compute values without a law between them.
- The security scanner, injection detector, agent DNA, mesh, danger-signal analyser, quorum resolver and attestation providers are arbitrary oracles that may answer anything of their declared types or raise.
- batch_cache.py: the Redis cache and key generation. decision_store.py: Redis, the time index, expiry of stored entries. cb_opa_client.py: HTTP, health checks. audit_client.py: the retry buffer, signatures, sleeps.
- constitutional_batch.py and ab_testing.py: batch validation with its chunks and metrics, and the percentiles, routing and promotion of A/B tests, are not modelled. They fold lists with no state between calls that another part depends on.
- explanation_service.py: everything but the three numeric functions. batch_auto_tuner.py: statistics and reset.

Contracts stated for less than a reader might expect:

- SpecChannel.LossyTheorem: excludes runs with an unclean send, and deliveries that SpecChannel.LossyReceive shows to go wrong.
- OpaClient.CircuitBreakerOPAClient.EvaluatePolicy: one evaluation with nobody else at work; interleavings are in OpaClient.EveryAllowIsBacked.
- PartitionedBus.EveryPartitionIsExact: speaks of topics with at least one partition; publishing to a topic configured with none raises and changes no buffer.
- Audit.Conservation: counts reports whose submission escaped as lost, as Audit.LostExactlyByEscapes determines; the source's statistics have no such counter.

# Verification model of the analysis backend

A Dafny model of eight cores of the backend, with proofs of what each of them is for.
Check it with `dafny verify dfyconfig.toml`.

| module | what it models |
|---|---|
| `StageIdentity` | names of persisted supersteps: stage keys, pending members, completion tokens |
| `RetryLedger`, `StageHistory`, `RetryHistory` | the per-stage failure ledger: one failure, the reference meaning of a count, whole runs |
| `RetryExamples` | runs from saved checkpoints that reach the exceptional branches of the ledger |
| `RetryScheduling` | the queue retry over whole runs: backoff, consumed and renewed budget, intervals |
| `Pipeline`, `AnalysisContext` | grouped agents; fingerprints, recorded versions, currency, digest evidence |
| `Invalidation` | dropping the results of a set of agents from every section; digest reuse |
| `RepairRound`, `NestedAcceptance` | one repair sweep over the pipeline, and the acceptance nested in each repair |
| `RequestAdmission` | the rolling 24-hour request ceiling shared by all processes |
| `TtlCache` | the SQLite and in-memory TTL caches against a timed map |
| `ContextBudget`, `PreviousContext` | budgeted excerpts, whole-field JSON, the earlier-results section |
| `CheckpointCleanup` | batched deletion of terminal checkpoint threads |
| `FrozenScope` | the one-shot frozen-input scope |
| `Backtest` | verified session windows, cleaned price paths, drawdown |
| `Names`, `Texts`, `Numbers`, `Wrappers` | ordered text, stripping and joining, minima and maxima, options |

Objects and dictionaries that the source updates are classes here (`ProgressMeta`, `RqJob`,
`AnalysisStore`, `RepairSweep`, `AdmissionTable`, `SqliteCache`, `InMemoryCache`,
`CheckpointStore`, `Scope`); each method is tied to a function of the old state, and the
lemmas are about those functions and their runs.

## What is assumed

- SHA-256 enters the retry modules as two functions with results of the right shape. Nothing is
  assumed about collisions there: a lemma names the two values whose collision would matter. In
  `AnalysisContext` and `FrozenScope` a digest is the payload it hashes.
- A database transaction is one atomic step, so an interleaving is a sequence of steps. A
  SQLite cache read is two steps.
- Floats are reals, and NaN and infinities are excluded, except where the source rejects them.
- Clocks, fresh identifiers, database failures, what the queue answers, what repairs produce,
  the market calendar, keyword scores, the JSON encoder and the controller's boundary answer
  are inputs.

## Where the code is weaker than its description

- Stage keys (backend/analysis_retry_stages.py:12-16). A key identifies its members except that
  a node may legally bear the key of a parallel stage. `StageIdentity.KeyAliasExists` exhibits
  it for every parallel stage; `StageIdentity.KeysFaithfulIff` gives the exact condition on a
  graph, collisions included.
- Ledger conservation (backend/analysis_retry_progress.py:101-103). The counts of a new stage
  without proof of progress on a trusted ledger sum to `2 * global - 1`, not to the failures:
  three for the two failures of `RetryExamples.UnprovenStageDoubles`. `RetryLedger.Conservation`
  says exactly when, and `RetryLedger.AcceptedNextIff` that such a ledger is the only recorded
  one the next failure of its scope refuses.
- Proof of progress (backend/analysis_retry_progress.py:133-136). For a parallel stage one new
  member completion suffices, provided all members have completed: see
  `RetryExamples.OneMemberSuffices`. `RetryLedger.ProvenMeansProgressed` gives the exact
  condition; a digest collision can hide progress but never feign it.
- Context budget (backend/assistant_context.py:189-257). An excerpt may exceed its budget by up
  to nine characters, exactly when the last chunk is clipped to less than the clip marker and no
  note shortens the text: `ContextBudget.SelectionExceedsIff`. With structured outputs or digests
  included the total stays within a budget of 80 or more; without either it exceeds it exactly
  when `PreviousContext.SourceTextExceedsIff` says so, and `OverrunWithoutReservation` gives a
  text of 89 characters for a budget of 80.
- Whole-field JSON (backend/assistant_context.py:102-124). A limit below two is exceeded by the
  empty object, and only then.
- Cache clocks (backend/cache_backends.py:101-148). A cleanup or get whose clock runs ahead
  hides a row that a slower reader counts as live: `TtlCache.ClocksMatter`.
  `TtlCache.CacheRefinesTimedMap` says exactly when the cache and the timed map differ.

## Model

| member | source | states |
|---|---|---|
| `StageIdentity.PendingMembersAreValid` | backend/analysis_retry_stages.py:25-44 | an identified superstep is a legal member list under its own key, holds everything pending, and holds exactly the root branches when there are any |
| `StageIdentity.PendingMembersExist` | backend/analysis_retry_stages.py:32-44 | the exact conditions under which a superstep is identified at all |
| `StageIdentity.PendingMembersAreStable` | backend/analysis_retry_stages.py:26-30 | the identity does not change while pending writes finish siblings, nor with the order of channels |
| `StageIdentity.KeyIdentifiesMembers` | backend/analysis_retry_stages.py:12-16 | two stages share a key exactly when they are equal, one is a node named like the other's key, or their digests collide |
| `StageIdentity.KeyAliasExists` | backend/analysis_retry_stages.py:8-22 | every parallel stage shares its key with a legal single-node stage |
| `StageIdentity.KeysFaithfulIff` | backend/analysis_retry_stages.py:12-22 | keys are faithful over a graph if and only if no node of it bears the key of one of its parallel stages and no two of those collide |
| `StageIdentity.TokenMeaning` | backend/analysis_retry_stages.py:58-64 | a token exists exactly for a fully completed stage, and two agree exactly when every member's completion does or the two completions collide |
| `StageIdentity.NodeNames` | backend/analysis_retry_stages.py:8 | a node name has 1 to 96 letters, digits and underscores and starts with a letter |
| `StageIdentity.ValidMembersIff` | backend/analysis_retry_stages.py:12-22 | a legal stage has 1 to 128 node names in strict order, under its only member's name or `parallel_` and the digest |
| `RetryLedger.AttachedIff` | backend/analysis_retry_progress.py:37-86 | a receipt is attached if and only if an availability failure finds a root checkpoint of the loop with an input and an identified superstep, within bounds, in which every entry that is a node name has versions |
| `RetryLedger.AttachedContent` | backend/analysis_retry_progress.py:60-84 | it has the thread, input hash, identity and superstep of the checkpoint, and as completions exactly the entries that are node names |
| `RetryLedger.AttachedReceiptIsValid` | backend/analysis_retry_progress.py:37-86 | every receipt read back from a durable checkpoint passes the ledger's own validation and names a stage holding what was pending |
| `RetryLedger.UsableIff` | backend/analysis_retry_progress.py:120-123 | a receipt can be charged if and only if it is well formed and its thread is the job's, alone or before a colon |
| `Names.JobOfThread` | backend/analysis_retry_progress.py:122 | what precedes the first colon of a thread |
| `RetryLedger.AcceptedIff` | backend/analysis_retry_progress.py:89-109 | every condition under which a stored ledger is trusted, on its own fields |
| `RetryLedger.LedgerMembersIff` | backend/analysis_retry_stages.py:47-55 | the members of a ledger's last stage: those it names if they are legal, or the single node of an older ledger |
| `RetryLedger.ProgressMeta.ValidLedger` | backend/analysis_retry_progress.py:89-109 | the validation loop decides acceptance, including that the counts sum to the previous failures |
| `RetryLedger.ProgressMeta.SumCounts` | backend/analysis_retry_progress.py:101-103 | the loop computes the sum of the dictionary's values, in any order |
| `RetryLedger.ProgressMeta.AvailabilityStageCount` | backend/analysis_retry_progress.py:112-144 | the in-place update returns and stores what charging the failure means |
| `RetryLedger.Conservation` | backend/analysis_retry_progress.py:101-103 | a written ledger charges every failure once, except that an unproven new stage makes it `2 * global - 1` |
| `RetryLedger.CountInRange` | backend/analysis_retry_progress.py:120-144 | a stage count lies between 1 and the global count |
| `RetryLedger.BelowGlobalIff` | backend/analysis_retry_progress.py:126-139 | the exact conditions under which backoff falls below the global count |
| `RetryLedger.AcceptedNextIff` | backend/analysis_retry_progress.py:89-109 | the next failure trusts a recorded ledger if and only if its scope is the same and the ledger was not written for an unproven new stage |
| `RetryLedger.UnprovenIsRefused` | backend/analysis_retry_progress.py:101-103 | a ledger written for an unproven new stage is refused by the next failure, whatever it carries |
| `RetryLedger.ProvenMeansProgressed` | backend/analysis_retry_progress.py:133-136 | proof of progress in terms of two receipts: later checkpoint, all members of the failed stage completed, some of them anew, unless a collision hides it |
| `StageHistory.CountsAreHistory` | backend/analysis_retry_progress.py:126-139 | step by step additions agree with counting over the whole series |
| `RetryHistory.TrustedMeansPreviousBalanced` | backend/analysis_retry_progress.py:89-109 | after a run's first failure, a trusted ledger was written by the immediately preceding failure, for the same input |
| `RetryHistory.TrustedIffContinues` | backend/analysis_retry_progress.py:89-109 | over any run, the ledger is trusted exactly when this failure continues the series of the one before, or the ledger the job started with |
| `RetryHistory.LedgerFollowsReference` | backend/analysis_retry_progress.py:112-144 | from any stored ledger, the ledgers of any run say at every failure what a reference built from that start and the receipts says: stage, continuation, and whether it can be continued |
| `RetryHistory.CountIsReference` | backend/analysis_retry_progress.py:120-144 | from any stored ledger, every stage count of a run is what the start and the receipts give: the failures of the stage in the unbroken series, or the global count |
| `RetryHistory.SeriesIsUnbroken` | backend/analysis_retry_progress.py:89-95 | a series consists of consecutive receipts of one job and one input, that of the ledger it started from included |
| `RetryHistory.NoUnprovenReset` | backend/analysis_retry_progress.py:126-136 | from any stored ledger and over any run, a reduced count means a usable receipt that continues the failure before or the start, and either an earlier failure of the stage in the series or progress of the stage that failed last |
| `RetryHistory.ReducedKnownStage` | backend/analysis_retry_progress.py:131-132 | a reduced count of a stage that failed before in the series is its number of failures there |
| `RetryHistory.ReducedNewStage` | backend/analysis_retry_progress.py:133-136 | a reduced count of any other stage is 1, and the stage that failed last has progressed |
| `RetryHistory.StageCountsGrow` | backend/analysis_retry_progress.py:131-132 | within a series each further failure of a stage counts strictly more |
| `RetryExamples.OneCheckpointIsAttached` | backend/analysis_retry_progress.py:37-86 | the receipts of the run below are read back from one saved checkpoint |
| `RetryExamples.UnprovenStageDoubles` | backend/analysis_retry_progress.py:126-139 | two stages failing on one checkpoint leave counts that add up to three |
| `RetryExamples.ParallelThenNextIsAttached` | backend/analysis_retry_progress.py:37-86 | the receipts of the next run are read back from a checkpoint with two root branches and a later one |
| `RetryExamples.OneMemberSuffices` | backend/analysis_retry_progress.py:133-136 | a two-member stage with one new completion of two lets the next stage start over at 1 |
| `RetryExamples.OldLedgerIsContinued` | backend/analysis_retry_stages.py:47-55 | a job that starts with a ledger written before receipts named members continues it |
| `RetryScheduling.RqJob.PrepareAnalysisRetry` | backend/analysis_job_retry.py:13-67 | the edits of the job and the notice, for every answer of the queue, failing saves and interval queries included |
| `RetryScheduling.BackoffBounds` | backend/analysis_job_retry.py:39 | 300, 600, 1200, then 1800 seconds, never decreasing in the count |
| `RetryScheduling.WaitCoversProvider` | backend/analysis_job_retry.py:14-19 | a retry never precedes the provider's deadlines, and an availability retry waits at least 300 seconds |
| `RetryScheduling.IntervalsNeverCompound` | backend/analysis_job_retry.py:42-47 | after any attempts, every interval is the larger of the current wait and the interval the job started with |
| `RetryScheduling.IntervalsComeFromTheStart` | backend/analysis_job_retry.py:36-47 | every scheduled attempt saves as baseline the intervals of the start (the saved baseline, else the job's own, else one minute), and leaves each of them raised to the wait where that is larger |
| `RetryScheduling.BaselineIsInitial` | backend/analysis_job_retry.py:36-46 | the baseline is what was saved, else the job's own intervals, else a single minute |
| `RetryScheduling.MetadataFollowsRun` | backend/analysis_job_retry.py:32-38 | over any attempts and from any metadata, the saved global count and ledger of a job are those of its charged and remembered failures |
| `RetryScheduling.AvailabilityIsRescheduled` | backend/analysis_job_retry.py:31-49 | whatever happened before, an availability failure is never exhausted, is rescheduled exactly if the queue confirms, and waits for the larger of provider deadline, stage backoff and queue interval |
| `RetryScheduling.BudgetIsConserved` | backend/analysis_job_retry.py:27-41 | over any attempts, every retry taken was in the initial budget or granted to an availability failure that found none left |
| `RetryScheduling.AvailabilityOutlivesBudget` | backend/analysis_job_retry.py:40-41 | availability failures in a row use up the budget and then live on one granted retry each |
| `RetryScheduling.OtherFailuresAreBounded` | backend/analysis_job_retry.py:28-29 | other failures are rescheduled exactly as often as the job had retries, and are then exhausted |
| `RetryScheduling.OtherFailuresGrantNothing` | backend/analysis_job_retry.py:28-29 | even with failed saves and unconfirmed retries no more are taken than the job had |
| `RetryScheduling.ProviderWaitIsLeast` | backend/analysis_job_retry.py:14-19 | the provider's wait is the least whole number of seconds that is at least 60 and every deadline given |
| `RetryScheduling.WaitFollowsHistory` | backend/analysis_job_retry.py:31-49 | over any attempts of any job, the wait of each charged failure is decided by the provider's deadline, the queue's interval, what the job started with and the history of the receipts |
| `Pipeline.UpstreamAgentNumbers` | backend/context_dependencies.py:31-38 | the loop returns the earlier groups, nothing for an unknown agent |
| `Pipeline.UpstreamIsPrior` | backend/context_dependencies.py:31-38 | the pipeline holds the members of its groups, and upstream of one is the order of all groups before its first |
| `Pipeline.OrderConcatenates` | backend/analysis_dependencies.py:13-14 | the order appends the members of each further group |
| `Pipeline.UpstreamIsEarlierGroup` | backend/context_dependencies.py:31-38 | upstream means an earlier group: never the agent, a peer or a later one |
| `Pipeline.UpstreamIsTransitive` | backend/analysis_dependencies.py:38-40 | upstream of upstream is upstream |
| `Pipeline.UpstreamComesFirst` | backend/analysis_dependencies.py:13-14 | the pipeline order visits upstream agents first |
| `AnalysisContext.CurrentIffUnchangedSinceRecord` | backend/analysis_dependencies.py:43-58 | a versioned result is current exactly while not invalidated and with its own and all upstream outputs as recorded |
| `AnalysisContext.StalenessIsExact` | backend/analysis_dependencies.py:33-62 | changing one output makes stale exactly that agent and its downstream; all others keep their status |
| `AnalysisContext.FingerprintIsOutput` | backend/analysis_dependencies.py:27-30 | two outputs are the same if and only if the stripped bodies and the structured outputs are |
| `AnalysisContext.ReplacedAnalysisStales` | backend/analysis_dependencies.py:27-58 | replacing an upstream analysis makes a recorded result stale if and only if its body is another |
| `AnalysisContext.ReplacedStructureStales` | backend/analysis_dependencies.py:27-58 | replacing an upstream structured output does so if and only if it differs |
| `AnalysisContext.AppendixIsNoRevision` | backend/analysis_dependencies.py:27-30 | a changed audit appendix changes no status |
| `AnalysisContext.RecordMakesCurrent` | backend/analysis_dependencies.py:43-48 | recording makes the agent current and leaves every other version and mark |
| `AnalysisContext.InitializeKeepsStatus` | backend/analysis_dependencies.py:65-71 | binding legacy results changes no status, refreshes no version, and leaves none unbound |
| `AnalysisContext.InitializeBinds` | backend/analysis_dependencies.py:65-71 | exactly the agents of the pipeline with an analysis, no mark and no version get one, of the present outputs |
| `AnalysisContext.ChangedEvidenceStalesDigest` | backend/context_dependencies.py:68-104 | a fresh digest is no longer served once an upstream value it was built from has changed |
| `AnalysisContext.DigestServedIff` | backend/context_dependencies.py:41-104 | a stored digest is served as fresh if and only if it has the present schema and target, pipeline, prompt revision and the current evidence of every upstream agent are as when it was built |
| `Invalidation.AnalysisStore.RecordResultProvenance` | backend/analysis_dependencies.py:43-48 | the in-place update makes the agent current, and touches no output and no other agent's version or mark |
| `Invalidation.AnalysisStore.InitializeResultProvenance` | backend/analysis_dependencies.py:65-71 | the loop over the pipeline order |
| `Invalidation.AnalysisStore.InvalidateRepairDigests` | backend/context_dependencies.py:120-133 | the key loops keep exactly the digests that do not depend on the agent |
| `Invalidation.AnalysisStore.InvalidateAnalysisResults` | backend/analysis_dependencies.py:74-103 | the loops over agents and sections equal one filter of the context |
| `Invalidation.AnalysisStore.ReuseDigestCache` | backend/context_dependencies.py:107-117 | the candidate loop, and what it leaves in the dictionary |
| `Invalidation.InvalidationComposes` | backend/analysis_dependencies.py:74-113 | invalidating one set and then another is invalidating their union, in every section |
| `Invalidation.InvalidationCommutes` | backend/analysis_dependencies.py:74-113 | invalidation is commutative and idempotent |
| `Invalidation.InvalidationFrame` | backend/analysis_dependencies.py:75-85 | no result, version or mark of another agent changes |
| `Invalidation.InvalidationRemoves` | backend/analysis_dependencies.py:74-123 | no analysis, output, retrieval text, manifest, report or analysis chunk of an invalidated agent stays, it is not current, and the combined texts are emptied |
| `Invalidation.InvalidationDropsDependents` | backend/context_dependencies.py:120-133 | of the digests exactly the agents' own and their downstream's go |
| `Invalidation.InvalidationDropsCached` | backend/context_dependencies.py:120-133 | so it is in the cache, whether the key is an agent or carries an input too |
| `Invalidation.InvalidationStalesDigests` | backend/context_dependencies.py:100-104 | no digest built on an invalidated agent can be served |
| `Invalidation.ChunksKept` | backend/analysis_dependencies.py:106-123 | raw evidence and other agents' chunks survive with their multiplicity, and no other chunk does |
| `Invalidation.UntouchedChunks` | backend/analysis_dependencies.py:106-123 | an index without chunks of the agents is unchanged |
| `Invalidation.FlagsKept` | backend/analysis_dependencies.py:96-101 | a risk flag goes exactly when an invalidated agent is among its sources or reported it |
| `Invalidation.FlagSurvives` | backend/analysis_dependencies.py:93-101 | in the invalidated context a risk flag keeps its multiplicity, unless it names an invalidated agent's text key or is in that agent's report |
| `Invalidation.ChunkSurvives` | backend/analysis_dependencies.py:106-123 | in the invalidated context a chunk keeps its multiplicity, unless it is analysis text owned by an invalidated agent |
| `Invalidation.ReuseIsSound` | backend/context_dependencies.py:88-117 | reuse succeeds exactly on a candidate with the present input, leaves such a digest or none, and touches no other key |
| `Invalidation.ReuseServesFresh` | backend/context_dependencies.py:100-117 | reuse says exactly whether a fresh digest can be served afterwards, and never loses one |
| `RepairRound.RepairSweep.Accept` | backend/agent_runtime/repair_transaction.py:225-245 | the in-place effect of one repair result |
| `RepairRound.RepairSweep.Run` | backend/agent_runtime/repair_transaction.py:213-276 | the sweep visits the pending agents in pipeline order, and commits exactly without failures and stale agents |
| `RepairRound.RoundRepairsEverything` | backend/agent_runtime/repair_transaction.py:251-253 | whatever was stale and whatever repairs produce, a round without a failure leaves no stale agent |
| `RepairRound.RoundFailsIff` | backend/agent_runtime/repair_transaction.py:213-253 | a round fails if and only if a pending agent's repair was rejected although it was required or its result is stale; otherwise it completes every pending agent with a result, and completed agents have the output their repair produced |
| `RepairRound.OnePassRegenerates` | backend/analysis_dependencies.py:43-62 | regenerating and recording each stale agent once in pipeline order leaves none stale |
| `RepairRound.RoundRebuildsOnlyCalled` | backend/agent_runtime/repair_transaction.py:199-245 | an agent is rebuilt only when requested, stale, or downstream of a rebuilt agent whose output changed; others keep their output |
| `RepairRound.RoundSettlesChunks` | backend/agent_runtime/repair_transaction.py:225-245 | over a whole round raw evidence stays in the retrieval index with its multiplicity, of any other chunk all copies stay or none, and none of an agent repaired to a different output |
| `NestedAcceptance.NestedAcceptanceAddsNothing` | backend/agent_runtime/repair_transaction.py:149-195 | the acceptance that wraps each single repair adds nothing to the round's own: the sweeps with and without it agree in the whole context, step by step |
| `NestedAcceptance.AdoptTwiceIsAdopt` | backend/agent_runtime/repair_transaction.py:149-159 | accepting a result twice is accepting it once, if the context has the agent's original output or has settled its loss |
| `RequestAdmission.AdmissionTable.SelectMax` | backend/bls_request_admission.py:66-68 | the aggregate over an unordered table |
| `RequestAdmission.AdmissionTable.SelectCountMin` | backend/bls_request_admission.py:73-76 | count and minimum over the rolling window |
| `RequestAdmission.AdmissionTable.TryReserve` | backend/bls_request_admission.py:57-95 | one transaction, with every refusal |
| `RequestAdmission.AdmittedIff` | backend/bls_request_admission.py:57-83 | a call is admitted if and only if the database answers, its clock is positive and behind no reservation, fewer than 25 are from the last 86400 seconds, and its identifier is new |
| `RequestAdmission.RefusedBecause` | backend/bls_request_admission.py:57-95 | the exact condition of each reason for a refusal, and that it changes nothing |
| `RequestAdmission.TableFollowsCalls` | backend/bls_request_admission.py:57-95 | over any interleaving the table grows by exactly the admitted calls, each at its own time |
| `RequestAdmission.ReserveKeepsSafe` | backend/bls_request_admission.py:57-95 | a call appends one reservation at its own time or changes nothing, and keeps the spacing invariant |
| `RequestAdmission.EveryWindowIsBounded` | backend/bls_request_admission.py:16-17 | in every interleaving any 24-hour window holds at most 25 reservations, and times never decrease |
| `RequestAdmission.RefusalMeansFullWindow` | backend/bls_request_admission.py:73-78 | at a limit refusal the window holds exactly 25 |
| `RequestAdmission.RetryAfterIsExact` | backend/bls_request_admission.py:77-78 | without reservations in between, a later call is admitted if and only if a day has passed since the oldest of the 25, which the announced wait covers |
| `TtlCache.SqliteCache.PeekJson` | backend/cache_backends.py:90-99 | peeking answers as the timed map does |
| `TtlCache.SqliteCache.ReadJson` | backend/cache_backends.py:101-120 | the first step of a get: the timed map's answer, and the row to remove exactly if it is dead |
| `TtlCache.SqliteCache.RemoveIfUnchanged` | backend/cache_backends.py:165-183 | the compare-and-delete step |
| `TtlCache.SqliteCache.GetJson` | backend/cache_backends.py:101-120 | both steps undisturbed |
| `TtlCache.GetIsTwoSteps` | backend/cache_backends.py:101-120 | undisturbed, the two steps of a get remove exactly the row it cannot answer with |
| `TtlCache.SqliteCache.SetJson` | backend/cache_backends.py:122-138 | a positive time to live is stored, another refused |
| `TtlCache.SqliteCache.CleanupExpired` | backend/cache_backends.py:145-148 | exactly the expired rows go, and their number is returned |
| `TtlCache.InMemoryCache.GetJson` | backend/cache_backends.py:193-202 | the in-memory get answers and cleans up like the SQLite one |
| `TtlCache.InMemoryCache.CleanupExpired` | backend/cache_backends.py:213-219 | the loop removes exactly the expired entries and counts them |
| `TtlCache.RowSurvivesIff` | backend/cache_backends.py:101-183 | the last row written to a key is still there exactly when no cleanup past its expiry and no get that held this very row removed it |
| `TtlCache.CacheRefinesTimedMap` | backend/cache_backends.py:101-183 | under every interleaving a key holds what a map without any cleanup holds, if and only if no row still alive has been removed |
| `TtlCache.RefinesUpToClocks` | backend/cache_backends.py:101-148 | so they agree at every time that no cleanup and no read of the key was ahead of |
| `TtlCache.WriteIsNeverLost` | backend/cache_backends.py:165-183 | whatever clocks and pending removals of other rows there were, a fresh row stays until overwritten unless a later cleanup or read of its key is past its expiry |
| `TtlCache.NewRowIsUnthreatened` | backend/cache_backends.py:101-120 | no pending removal holds a row that was never stored before |
| `TtlCache.SameRowIsLost` | backend/cache_backends.py:165-183 | writing once more the very row that a pending get holds does not save it |
| `TtlCache.CleanupIsInvisible` | backend/cache_backends.py:145-148 | cleanup and gets never change a later answer and remove only dead rows |
| `TtlCache.ClocksMatter` | backend/cache_backends.py:101-113 | a cleanup ahead of a reader's clock hides a row the reader counts as live |
| `ContextBudget.RankingIsStable` | backend/assistant_context.py:161-165 | the ranking holds every chunk once, by falling score, earlier chunks first among equals |
| `ContextBudget.SortIsSorted` | backend/assistant_context.py:179 | the excerpts are put back in order of the text |
| `ContextBudget.PickExcerpts` | backend/assistant_context.py:167-178 | the selection loop with its running budget |
| `ContextBudget.SelectRelevantContext` | backend/assistant_context.py:156-186 | all of the assembled excerpts, or as much of their start as the limit leaves beside the note, and the note; at most nine characters over a positive limit |
| `ContextBudget.PickFollows` | backend/assistant_context.py:167-178 | the k-th excerpt is what the room left by the earlier ones and their separators allows of the k-th ranked chunk |
| `ContextBudget.PickIsHonest` | backend/assistant_context.py:150-174 | an excerpt is of the chunk it is placed as: all of it, or the start of it with the clip marker |
| `ContextBudget.ClipKeeps` | backend/assistant_context.py:150-174 | a clipped chunk keeps all that leaves 24 characters of its room, but for the white space at its end |
| `ContextBudget.AssembledInOrder` | backend/assistant_context.py:179-180 | the text is made of the excerpts taken, in the order of their chunks |
| `ContextBudget.WholeTextIsKept` | backend/assistant_context.py:156-186 | paragraphs that fit the limit are kept whole and in their own order, whatever their scores |
| `ContextBudget.NoteTells` | backend/assistant_context.py:183 | equal notes are about the same agent and the same number of characters |
| `ContextBudget.PickStopsWhenSpent` | backend/assistant_context.py:167-178 | ranked chunks are left over only once excerpts and separators have used up the budget |
| `ContextBudget.ClipLength` | backend/assistant_context.py:150-153 | a chunk that fits is whole; a clipped one stays fourteen below a limit of 24 or more, and overruns a smaller one by at most nine |
| `ContextBudget.SelectionBound` | backend/assistant_context.py:156-186 | the text exceeds a positive budget by at most nine characters, and not at all when it carries the note |
| `ContextBudget.SelectionExceedsIff` | backend/assistant_context.py:150-186 | it exceeds the budget by more than a slack if and only if the last excerpt is clipped to a room the marker exceeds by more, and no note shortens the text |
| `ContextBudget.SelectionSlackIsReached` | backend/assistant_context.py:150-153 | two chunks for which it exceeds it by exactly nine |
| `PreviousContext.AddFields` | backend/assistant_context.py:117-123 | whole fields that fit are added, and none that fits is left out |
| `PreviousContext.BoundedContextJson` | backend/assistant_context.py:102-124 | the JSON keeps its limit if and only if the limit is at least two, holds only unaltered entries and fields, and leaves out nothing that fits |
| `PreviousContext.CollectSources` | backend/assistant_context.py:222-237 | the loop that divides the remaining share among the sources |
| `PreviousContext.SourcesFollow` | backend/assistant_context.py:224-237 | title and sources in order, each selection under its header, and only a share of nothing ends the visits |
| `PreviousContext.ShareIsLargest` | backend/assistant_context.py:229-230 | a share is the largest that the cap allows and that all sources still to come could take with this header |
| `PreviousContext.SourceLimitIs` | backend/assistant_context.py:223 | three fifths of the budget, rounded down, when other sections claim the rest |
| `PreviousContext.SourceTextBound` | backend/assistant_context.py:222-237 | title and excerpts exceed their share by at most nine characters |
| `PreviousContext.SourceTextExceedsIff` | backend/assistant_context.py:219-237 | they exceed it if and only if some excerpt exceeds its own share by more than that share leaves to spare |
| `PreviousContext.ArrangeSections` | backend/assistant_context.py:238-257 | digest section, structured outputs and sources in this order; exactly when the first two appear, and that each holds what fits of its own data |
| `PreviousContext.FormatPrevious` | backend/assistant_context.py:189-257 | a budget of 80 or more is kept with a reservation and exceeded by at most nine without; sources take their share first and appear in full after the sections that fit |
| `PreviousContext.OverrunWithoutReservation` | backend/assistant_context.py:219-235 | a budget of 80 without a reservation yields 89 characters |
| `CheckpointCleanup.LoadJobSets` | backend/checkpoint_maintenance.py:148-159 | the loop separates terminal from other jobs |
| `CheckpointCleanup.TerminalStatus` | backend/checkpoint_maintenance.py:14-159 | done, error and cancelled are terminal, in any case and surrounded by any white space, and nothing else is |
| `CheckpointCleanup.JobsAreRows` | backend/checkpoint_maintenance.py:148-159 | a job is in a set exactly if a row of that kind names it |
| `CheckpointCleanup.ClassifyThreads` | backend/checkpoint_maintenance.py:162-179 | the loop filters the three classes in order |
| `CheckpointCleanup.ThreadsArePartitioned` | backend/checkpoint_maintenance.py:171-178 | every thread falls into exactly one class |
| `CheckpointCleanup.ChunksCover` | backend/checkpoint_maintenance.py:249-257 | the batches concatenate to the candidates, none empty or too large, exactly `ceil(n / size)` of them |
| `CheckpointCleanup.RowCount` | backend/checkpoint_maintenance.py:186-198 | counting batch by batch is counting all |
| `CheckpointCleanup.CheckpointStore.DeleteBatches` | backend/checkpoint_maintenance.py:74-81 | the batches with their running totals equal one deletion |
| `CheckpointCleanup.CheckpointStore.Cleanup` | backend/checkpoint_maintenance.py:18-87 | a write keeps exactly the rows of jobs that are not terminal and deletes what it predicted; a dry run changes nothing and predicts the same |
| `CheckpointCleanup.InterruptedCleanupResumes` | backend/checkpoint_maintenance.py:78-81 | after any part of the batches only rows of terminal jobs are gone, and a later cleanup ends the same |
| `FrozenScope.Scope.ClaimJob` | backend/analysis_frozen_canary.py:142-151 | the claim and its guards |
| `FrozenScope.Scope.BindWorkflowData` | backend/analysis_frozen_canary.py:159-163 | the single binding of data |
| `FrozenScope.Scope.Services` | backend/analysis_frozen_canary.py:173-201 | the start of the workflow on the bound data |
| `FrozenScope.Scope.ClaimCheckpointFor` | backend/analysis_frozen_canary.py:227-233 | the checkpoint claim on the started path |
| `FrozenScope.Scope.PublicationOptions` | backend/analysis_frozen_canary.py:208-222 | the single admitted publication |
| `FrozenScope.FlagIsHistory` | backend/analysis_frozen_canary.py:100-115 | over every run each flag is set exactly when its operation has succeeded |
| `FrozenScope.EachSucceedsOnce` | backend/analysis_frozen_canary.py:142-233 | claim, binding, start, checkpoint claim and publication each succeed at most once |
| `FrozenScope.NothingAfterClose` | backend/analysis_frozen_canary.py:132-140 | after closing no checked operation succeeds |
| `FrozenScope.CloseSucceeds` | backend/analysis_frozen_canary.py:224-225 | closing always succeeds |
| `FrozenScope.ClaimIff` | backend/analysis_frozen_canary.py:142-151 | over any run, a claim succeeds if and only if the scope is open and unclaimed and the owner names the bound job, unforced |
| `FrozenScope.BindIff` | backend/analysis_frozen_canary.py:159-163 | data is bound if and only if the scope is open, the claim happened, and nothing was bound before |
| `FrozenScope.ReadIff` | backend/analysis_frozen_canary.py:153-157 | the data can be read if and only if the scope is open and claimed |
| `FrozenScope.StartIff` | backend/analysis_frozen_canary.py:173-188 | a request passes, and starts the workflow, if and only if the scope is open, none started before, and the request is the run's own with exactly the data bound after the claim |
| `FrozenScope.CheckpointIff` | backend/analysis_frozen_canary.py:227-233 | a checkpoint is claimed if and only if the scope is open, none was claimed before, and a workflow started on the same path and thread |
| `FrozenScope.PublishIff` | backend/analysis_frozen_canary.py:208-222 | a report is published if and only if the scope is open, none was published before, and the owner publishes under the binding's names exactly the data bound after the claim |
| `FrozenScope.PublishWithoutWorkflow` | backend/analysis_frozen_canary.py:214-219 | a publication is admitted without any workflow start |
| `Backtest.SessionWindow` | backend/backtest_session_contract.py:6-20 | verified if and only if the horizon is legal and is completed within `4h + 40` covered days, and then with exactly those sessions |
| `Backtest.SessionsAreTradingDays` | backend/backtest_session_contract.py:11-19 | the sessions are all and only the trading days up to the last, strictly increasing |
| `Backtest.TradesIff` | backend/backtest_session_contract.py:16 | by the ordinal alone: the last two days of each week and the holidays are no trading days |
| `Backtest.CompletionIsUnique` | backend/backtest_session_contract.py:18-19 | only one day completes a horizon |
| `Backtest.CleanPath` | backend/backtest_artifacts.py:64-74 | the filtering loop and the stable sort; the closes of the path are positive, as the drawdown needs them |
| `Backtest.ValidPricesFollow` | backend/backtest_artifacts.py:66-73 | each further row adds its price exactly if it has a positive close |
| `Backtest.ValidPricesArePositive` | backend/backtest_artifacts.py:67-72 | only positive closes remain |
| `Backtest.SortedPathIsStable` | backend/backtest_artifacts.py:74 | the path is by date, in given order within a date, and loses nothing |
| `Backtest.MaxDrawdownPct` | backend/backtest_artifacts.py:81-87 | the running-peak pass computes the minimum over all pairs, which lies in (-100, 0] |

## Left out

- Network fetchers, PDF readers, the HTTP API, authentication, the command line and rendering: input, output and presentation.
- Regular-expression language checks: their meaning is in natural-language patterns.
- The pipeline catalogue: groups are a parameter, and lemmas that need it require that no agent appears twice. Inferring the pipeline of a context without an identifier is not modelled.
- Order of entries in encoded JSON: `BoundedContextJson` holds for whatever order a dictionary lists its entries in, and the encoder is a function of the entries.
- Projection of evidence before hashing: structured values stand for their projected encodings, and an analysis text is split into its body and its audit appendix.
- Numeric text keys are taken to be canonical decimals, and the sorted list of invalidated agents is a set.
- Paragraph splitting, keyword tables and the names of agents: excerpts take chunks, scores and headers as inputs. The two lemmas on when a budget is exceeded take paragraphs as the splitting leaves them (backend/assistant_context.py:127-132), stripped and not empty.
- Metadata, reports and issue lists that a repair round carries along, cancellation, and digests that a repair attempt rebuilds: `RepairSweep` starts from what the repair produced.
- The final drawdown rounding, the maturity date, and the rest of the backtest artifact.
- NaN and infinite closes, which `_clean_path` lets through.
- The Redis cache, storage reservations, migrations and thread-local connections.
- Decoding and identity checks at installation of a frozen scope, and the bundle check before a private write.
- RetryScheduling.RqJob.PrepareAnalysisRetry: does not model the timestamps, routes and texts of the notice, because they only present it.

# Knowledge ingestion, fenced jobs and investigations: a verified model

This project models four linked parts of an operations platform and proves properties of them with
Dafny's verifier.

* **Knowledge ingestion and publication.** Parsed blocks are segmented into chunks
  (`Text`, `Chunking`, `Segmentation`). A staged, resumable pipeline cleans up, parses, chunks, extracts
  facts and fills three indexes, while editors correct, review and publish versions
  (`Facts`, `Corrections`, `Indexes`, `Publication`, `Ingestion`, `IndexAgreement`, `Lifecycle`, `Recovery`, `Pipeline`).
  `StaleReads` splits two of its transactions where others can come in between.
* **The fenced job platform.** One job row shared by workers, a sweeper, cancel endpoints and failure handlers
  (`Jobs`, `JobProtocol`), retry chains and the keys they reserve (`RetryChains`), the outbox (`Outbox`), and
  the job table together with ingestion (`Reingestion`).
* **The multi-agent investigation.** A cyclic graph of five roles whose database commits are separate from its
  checkpoints (`Investigation`, `InvestigationRuns`, `InvestigationRoutes`).
* **Retrieval and the request edge.** Rank fusion, graph expansion, evidence selection and grounded answers
  (`Ranking`, `RankFusion`, `GraphExpansion`, `Retrieval`, `Answers`, `Grounding`), retrieval metrics (`Metrics`), the
  idempotency reservation (`Idempotency`), the event stream of an answer run (`EventStream`).

Files that work by changing things are modelled by classes and by methods with loops, each proved equal to a
specification function or to an independent statement of the result. What many actors do to the same rows is a
state machine: `Apply(state, event)` is one transaction or one external call, a refused step leaves the state
as it was (the transaction rolls back), and `Run` is any finite sequence of events. Results about `Run` hold for
every interleaving. The ingestion machine contains the job protocol: a worker's step commits only through the
guard of `JobProtocol`. `Pipeline` is one attempt as an imperative program over index objects, with its loops,
its early failures and its failure handler; every commit it makes is proved to be the machine's step.

Inductions are written out as recursive lemma calls; no proof relies on Dafny's automatic induction, and lemmas
to which it would apply carry `{:induction false}`.

## Assumptions

* Execution tokens, job ids and record ids are fresh; uuid5 ids are injective in their name. A fact's name is the
  plain concatenation `source|relation|target`, and two facts that concatenate alike share an id, as in the code.
* A clock never runs backwards. Each version of the ingestion machine has its own clock reading, which is more
  general than one clock for all. A worker may write with a clock value it sampled earlier.
* Answers of the language model, the parser, the reranker and the indexes are arbitrary values of the right shape.
  The embedding is a function of the text, so a vector record is represented by its passage.
* An attempt's external index calls carry no fence. They are taken to reach the index before another attempt of
  the same version claims its job, and a call may have been applied to any part of its records.
* In the ingestion machine a transaction's first read and its guard are one step. `Lifecycle.IndexesAgree`,
  `Lifecycle.CorrectionForcesEverything` and what follows from them rest on this. `StaleReads` drops it for the two
  transactions where it matters, an attempt's start and a correction: `correct_artifact` looks for active jobs under
  the version's lock, `retry_job` with `bind_retry` takes no such lock, and a worker's session keeps the version it
  read before its guard (`expire_on_commit=False`, app/shared/db.py:50). The assumption holds as long as no job is
  created between a correction's check and its commit (`StaleReads.SeparateReaches`), and when one is, the correction
  can be lost (`StaleReads.OvertakingLosesCorrection`).
* Scores and discounts are exact reals. `re.split` and `splitlines` are modelled exactly.

## What the code does differently from its description

* A queued ingestion job whose cancellation is requested through the jobs endpoint is never claimed and never swept:
  `JobProtocol.CancelledWhileQueuedIsStuck`, `JobProtocol.CancelledEndsExactly`.
* The outbox key of a fresh job names the resource and attempt 1 and is unique, so once a version was ingested
  through the queue, no further top-level ingestion of it can be queued, even after a correction
  demands one: `RetryChains.FreshStartExact`, `RetryChains.QueuedReingestionImpossible`.
* An empty result list scores a perfect nDCG, and no other result without a hit does:
  `Metrics.EmptyResultScoresPerfect`.
* nDCG is a share of an ideal only while the relevant positions, repetitions counted, are no more than the relevant
  items; beyond that some discount pushes it above 1: `Metrics.NdcgInRangeExactly`. The function accepts such lists,
  its only caller never passes one: `Metrics.EvaluateCase`.
* An answer run's final status is committed before its claims and its completion event, and a failed run's before its
  error event, so a stream may end without them: `EventStream.StreamMayEndEarly`. A client can tell: it misses nothing
  exactly when the last event it received is the completion, or the error: `EventStream.AnswerComplete`,
  `EventStream.FailureComplete`. A worker that dies between its last two commits leaves a succeeded run whose
  completion nobody is ever sent: `EventStream.DiedBeforeCompletion`.
* A retry that comes between a correction's check for active jobs and its commit can index the uncorrected artifact and
  forget the cleanup that the correction demands: `StaleReads.OvertakingLosesCorrection`.
* Taken together with the outbox key: a version whose queued ingestion has succeeded and whose artifact is then
  corrected never comes to review again by queued starts and retries: `Reingestion.CorrectedNeverPublishes`.

## Model

| member | source | states |
|---|---|---|
| Text.SplitJoin | app/modules/knowledge/application/chunking.py:81-85 | splitting a joined table part into lines gives the lines back, except for one empty last line |
| Text.SentencesConcat | app/modules/knowledge/application/chunking.py:103 | the sentence pieces concatenate to the text, each but the last ends at its only sentence end, and the last has none |
| Text.LinesExact | app/modules/knowledge/application/chunking.py:81 | splitlines exactly: a text is its first line, one separator (carriage return and line feed count as one) and the lines of the rest |
| Text.CharacterClasses | app/modules/knowledge/application/chunking.py:20-103 | exactly which characters are spaces, break lines and end sentences |
| Chunking.UsableExact | app/modules/knowledge/application/chunking.py:20 | kept are exactly the blocks whose text has a character that is not a space, at strictly increasing positions |
| Chunking.SortedPagesExact | app/modules/knowledge/application/chunking.py:70 | a locator's pages are strictly increasing and exactly the pages of its blocks |
| Chunking.BoundariesExact | app/modules/knowledge/application/chunking.py:25-44 | accepted boundaries are exactly the answered block ids, and an answer naming a block outside its batch of 30 refuses |
| Chunking.BoundariesMean | app/modules/knowledge/application/chunking.py:25-44 | only cases and handovers ask for boundaries, in batches at 0, 30, 60, ...; they are exactly the ids answered, and refused exactly when one is not of its batch of thirty |
| Chunking.GroupsExact | app/modules/knowledge/application/chunking.py:45-53 | groups concatenate to the usable blocks, none is empty, and a group starts exactly at a heading or boundary |
| Chunking.CutTable | app/modules/knowledge/application/chunking.py:79-99 | the row loop emits the header with each slab of fifteen rows |
| Chunking.CutOversize | app/modules/knowledge/application/chunking.py:100-142 | the sentence loop over an oversize block yields exactly the specified parts |
| Chunking.CutGroup | app/modules/knowledge/application/chunking.py:55-151 | the buffered loop over a group yields its specified chunks with parent locators |
| Chunking.Segment | app/modules/knowledge/application/chunking.py:19-152 | the whole imperative segmentation returns exactly the specified result or error |
| Segmentation.UnitsPartition | app/modules/knowledge/application/chunking.py:78-147 | the buffered, table and oversize cuts of a group keep every block once, in order, under the size rules |
| Segmentation.UnitsMaximal | app/modules/knowledge/application/chunking.py:135-147 | a run of blocks ends before another only where one more block would exceed 3500 characters |
| Segmentation.RowChunksExact | app/modules/knowledge/application/chunking.py:83-99 | a table becomes one chunk per fifteen body rows, in order |
| Segmentation.RowInOneChunk | app/modules/knowledge/application/chunking.py:84-85 | each body row lies in the slab of exactly one chunk, at its place |
| Segmentation.RowChunkReadsBack | app/modules/knowledge/application/chunking.py:81-99 | a table chunk's text, split into lines again, is header and rows; only an empty last row is lost |
| Segmentation.PartsExact | app/modules/knowledge/application/chunking.py:103-142 | parts of an oversize block concatenate to it, have between 1 and 6000 characters, and no two neighbours would fit into one |
| Segmentation.PartsKeepSentences | app/modules/knowledge/application/chunking.py:105-134 | a sentence of at most 6000 characters stands whole in one part, at its place, whatever the length of the sentences around it |
| Segmentation.SentencesKept | app/modules/knowledge/application/chunking.py:100-142 | so it does for every such sentence of every oversize block |
| Segmentation.PartsAreRuns | app/modules/knowledge/application/chunking.py:105-134 | where no sentence is longer than a part, each part is a run of whole sentences, to which the next sentence would not fit |
| Segmentation.SegmentLossless | app/modules/knowledge/application/chunking.py:19-152 | over the input: all blocks with more than spaces, in order, in groups cut exactly at headings and planned boundaries; the chunks of each group reproduce its blocks verbatim and in order, with their locators, and none could hold more |
| Segmentation.SegmentRefuses | app/modules/knowledge/application/chunking.py:20-44 | refused exactly when all text is blank, two kept blocks share an id, or an answer names an id outside its batch, with the error for each |
| Segmentation.ChunkSizeBound | app/modules/knowledge/application/chunking.py:61-76 | no chunk without row offset is empty or longer than 6999 characters |
| Segmentation.SizeBoundTight | app/modules/knowledge/application/chunking.py:144-146 | some document yields a chunk of exactly 6999 characters |
| Segmentation.SegmentNotEmpty | app/modules/knowledge/application/chunking.py:20-22 | a segmentation that succeeds has at least one chunk |
| Jobs.AsyncJob.ClaimJob | app/shared/platform/execution.py:17-41 | refused exactly for a bad lease, an unavailable job or a lease that ends later than now; otherwise the token, the lease, the heartbeat and the start are written |
| Jobs.AsyncJob.GuardExecution | app/shared/platform/execution.py:44-63 | passes exactly for the running, uncancelled job under this token with a live lease |
| Jobs.AsyncJob.WriteHeartbeat | app/shared/platform/execution.py:83-104 | extends the lease exactly when the guard held at the sampled time |
| Jobs.AsyncJob.Release | app/shared/platform/execution.py:111-121 | ends the lease of this token's holder and nobody else's |
| Jobs.AsyncJob.UpdateJob | app/shared/platform/service.py:243-315 | a legal transition is written whole; an illegal one changes nothing |
| Jobs.AsyncJob.RequestCancel | app/shared/platform/service.py:318-345 | marks an unfinished job and leaves a finished one alone |
| Jobs.FailStaleJobs | app/shared/platform/service.py:642-671 | exactly the selected silent rows end failed at this time, every other row is untouched, and the count is exact |
| Jobs.StaleRowsFacts | app/shared/platform/service.py:649-660 | the sweep takes silent unlocked rows only, at most a batch, and leaves one only to a full batch |
| JobProtocol.ApplyInv | app/shared/platform/execution.py:17-121 | every step of every actor keeps token order, progress range, success at 100, and a queued job without a lease |
| JobProtocol.ClaimExactly | app/shared/platform/execution.py:17-41 | a fresh token claims an unfinished, uncancelled job exactly when no token passes the guard at that time |
| JobProtocol.BeatExactly | app/shared/platform/execution.py:83-104 | a heartbeat extends the lease from its sample exactly when the guard passed then |
| JobProtocol.ReleaseMakesWay | app/shared/platform/execution.py:111-121 | after a release the next claim goes through at once |
| JobProtocol.SweepExactly | app/shared/platform/service.py:642-671 | the sweeper ends a running job with too old a heartbeat, and nothing else |
| JobProtocol.CancelsExactly | app/modules/knowledge/api/router.py:479-491 | what each way to cancel makes of the row, whatever its status |
| JobProtocol.Fencing | app/shared/platform/execution.py:44-63 | over any run, guarded commits form contiguous blocks, one per token, in claim order |
| JobProtocol.SupersededForever | app/shared/platform/execution.py:53-62 | a superseded token never passes a guard or commits again |
| JobProtocol.OldTokenStaysFenced | app/shared/platform/execution.py:30-41 | from the moment another token is claimed the old one is fenced for good |
| JobProtocol.LiveLeaseExcludes | app/shared/platform/execution.py:32-33 | while a guard passes nobody else can claim |
| JobProtocol.TerminalForever | app/shared/platform/service.py:264-274 | a terminal status never changes |
| JobProtocol.NoSuccessAfterCancel | app/shared/platform/execution.py:53-62 | no job becomes succeeded once cancellation was requested |
| JobProtocol.ProgressNeverDecreases | app/shared/platform/service.py:275-284 | over any run progress never decreases and succeeded means 100 |
| JobProtocol.CancelledWhileQueuedIsStuck | app/shared/platform/service.py:331-337 | a queued job with a requested cancel leaves the queue if and only if its run is cancelled |
| JobProtocol.CancelBeforeClaimSticks | app/shared/platform/service.py:331-337 | one cancel request before any claim leads there |
| JobProtocol.CancelledEndsExactly | app/shared/platform/execution.py:28-30 | a job with a requested cancel can end without a cancelled run if and only if it is running |
| JobProtocol.TimelyBeatKeepsLease | app/shared/platform/execution.py:75-104 | one beat on time keeps the guard passing past the next beat |
| JobProtocol.TimelyBeatsKeepLease | app/shared/platform/execution.py:75-104 | over any run with timely beats the lease is never lost, whatever other workers and the sweeper try |
| JobProtocol.ClaimedLeaseKept | app/shared/platform/execution.py:17-41 | so from the claim on |
| RetryChains.JobStore.CreateJob | app/shared/platform/service.py:120-222 | creation with reuse, the unique active-job index and the unique outbox key |
| RetryChains.StartsExactly | app/shared/platform/service.py:120-222 | when each of the three ways to start a job goes through, and the row, key and run it leaves |
| RetryChains.JobStore.RetryJob | app/shared/platform/service.py:348-450 | the checks of a retry in order, the new row, and the rebinding of the run |
| RetryChains.RunInv | app/shared/platform/models.py:357-364 | over any run chains are linear, one job per type and resource is active, runs point at the childless end |
| RetryChains.AttemptCountsChain | app/shared/platform/service.py:443-445 | attempt is one plus the number of ancestors, all of them failed or cancelled, without cycles |
| RetryChains.RunChainComplete | app/modules/knowledge/application/retry.py:16-26 | every job ever started for a run is in the chain of its current job |
| RetryChains.RunChainExact | app/modules/knowledge/application/retry.py:16-26 | that chain is exactly the set of jobs ever started for the run |
| RetryChains.FreshStartExact | app/shared/platform/service.py:197-211 | queued work starts anew exactly when nothing is active and no queued top-level job ever existed for it, as a queued first attempt |
| RetryChains.RetryExact | app/shared/platform/service.py:348-450 | in every reachable table a job is retried exactly when it failed or was cancelled, has a route and a handler if it needs one, was not retried and nothing is active on its resource; the child repeats its work one attempt later and takes over its run |
| RetryChains.QueuedReingestionImpossible | app/shared/platform/models.py:774-779 | after a queued ingestion succeeded no queued ingestion of that version ever starts again |
| RetryChains.ReingestionRefused | app/shared/platform/service.py:197-211 | a concrete run in which re-queueing a finished ingestion is refused |
| Outbox.TaskOutbox.PublishPending | app/shared/platform/service.py:507-579 | a pass tries exactly the selected due rows, and returns how many of them were sent |
| Outbox.TaskOutbox.AttemptSend | app/shared/platform/service.py:544-575 | a sent row is published; a failed one waits for its delay, or ends failed with its last attempt |
| Outbox.SelectedFacts | app/shared/platform/service.py:529-540 | the batch is the oldest due rows nobody else holds, and a due row is left only when the batch is full |
| Outbox.AccountedForever | app/shared/platform/service.py:544-575 | over any inserts and passes a pending row has attempts left and a failed row used all |
| Outbox.FinishedForever | app/shared/platform/service.py:531-535 | over any inserts and passes rows are never dropped and finished rows never touched |
| Outbox.DelayMonotone | app/shared/platform/service.py:574 | delays never shrink and never exceed an hour |
| Outbox.DelayDoubles | app/shared/platform/service.py:574 | the first delay is the base, each further one twice the one before, none more than an hour |
| Outbox.TotalDelayBound | app/shared/platform/service.py:571-575 | the delays before the n-th attempt sum to at most 3600 per retry and at least the first delay per retry |
| Outbox.AddedDelayExact | app/shared/platform/service.py:568-575 | the passes of any history add to a row exactly the delays of its failed attempts but a final one |
| Outbox.AddedDelayBound | app/shared/platform/service.py:568-575 | so no history ever delays a message by more than 3600 * (max_attempts - 1) in all |
| Idempotency.Reservation.TryReserve | app/shared/platform/idempotency.py:85-98 | inserts the request exactly on a free key |
| Idempotency.Reservation.SaveOutcome | app/shared/platform/idempotency.py:133-139 | completes the given record and no other |
| Idempotency.Reservation.DeleteReservation | app/shared/platform/idempotency.py:182-189 | deletes only the given record |
| Idempotency.ReservationInv | app/shared/platform/idempotency.py:68-151 | over any interleaving an owner's record is the row, unfinished, and owners are unique |
| Idempotency.SingleOwner | app/shared/platform/idempotency.py:86-98 | at most one request is between reserving and completing or deleting |
| Idempotency.SettledForever | app/shared/platform/idempotency.py:81-107 | a completed or abandoned record stays, and no handler starts again |
| Idempotency.CompletionSettles | app/shared/platform/idempotency.py:133-139 | recording a completion settles the key |
| Idempotency.OwnerCrashSettles | app/shared/platform/idempotency.py:110-120 | a crashed owner settles the key |
| Idempotency.HandlerStartsExactly | app/shared/platform/idempotency.py:85-111 | a handler starts exactly at a successful insert on a free key that nobody owns |
| Idempotency.RefusalExact | app/shared/platform/idempotency.py:154-179 | a request that finds a record, at once or after losing the race, changes nothing and is told exactly: key reused, outcome unknown after 300 seconds, in progress, or completed |
| Idempotency.ReservationExact | app/shared/platform/idempotency.py:85-94 | a request that finds none reserves the key for itself |
| Idempotency.OutcomeExact | app/shared/platform/idempotency.py:111-141 | a cacheable answer completes the record, any other answer or an error frees the key |
| Corrections.Correct | app/modules/knowledge/application/service.py:291-304 | refuses duplicate or unknown targets, else edits exactly the blocks that answer to the corrected ids |
| Facts.Extract | app/modules/knowledge/application/pipeline.py:118-156 | one unsupported fact anywhere refuses all; otherwise the table of all answers, later ones winning |
| Facts.AnsweredExact | app/modules/knowledge/application/pipeline.py:120-134 | the batches at 0, 10, 20, ... are asked once each, in order, until the chunks end |
| Facts.SupportedExact | app/modules/knowledge/application/pipeline.py:135-143 | a fact is supported exactly when its chunk is one of the version, contains its quote, which is not empty, and the quote contains both ends |
| Facts.TableExact | app/modules/knowledge/application/pipeline.py:145-156 | the table holds the last answered fact under each id that occurs, and nothing else |
| Indexes.FakeIndex.Upsert | app/infrastructure/knowledge/fake.py:79-81 | writes exactly the given rows, the later of two rows with one id |
| Indexes.RowsExact | app/infrastructure/knowledge/fake.py:79-81 | under each id of the rows the last row with it |
| Indexes.FakeIndex.DeleteVersion | app/infrastructure/knowledge/fake.py:106-111 | removes a version's slice from one generation |
| Indexes.FakeIndex.Search | app/infrastructure/knowledge/fake.py:83-104 | distinct hits of the scope, best first, and what is left out is no better |
| Indexes.WrittenSlice | app/infrastructure/knowledge/fake.py:79-81 | written records join their version's slice |
| Indexes.WrittenKeeps | app/infrastructure/knowledge/fake.py:79-81 | writing one version's records in a generation leaves every other slice alone, also its own in other generations |
| Indexes.DeletedKeeps | app/infrastructure/knowledge/fake.py:106-111 | deleting a version from a generation leaves every other slice alone, also its own in other generations |
| Publication.ApartExact | app/modules/knowledge/application/access.py:94-98 | periods are apart exactly when no instant lies in both |
| Publication.KnowledgeVersion.Publish | app/modules/knowledge/application/service.py:196-229 | publishes and truncates every earlier publication, or refuses for the exact reason and changes nothing |
| Publication.VisibleVersions | app/modules/knowledge/application/access.py:71-114 | returns exactly the shown rows in order, or refuses above 2000 |
| Publication.ShownExact | app/modules/knowledge/application/access.py:91-111 | shown are exactly the published rows, in order, that are named or else in force, authorized, and for the equipment |
| Publication.OneVersionPerDocument | app/modules/knowledge/application/access.py:91-98 | over disjoint publications an instant shows at most one version of each document |
| Ingestion.ExpectedMeans | app/modules/knowledge/application/pipeline.py:176-197 | what a finished stage holds: per chunk a passage with its text and locator, per fact a triple with its evidence, source, relation and target |
| IndexAgreement.FinishRow | app/modules/knowledge/application/pipeline.py:222-235 | an attempt that finishes has marked all three stages |
| IndexAgreement.ClearAgrees | app/modules/knowledge/application/pipeline.py:45-52 | clearing the flags is sound because all three slices were emptied |
| IndexAgreement.SaveChunksAgrees | app/modules/knowledge/application/pipeline.py:77-97 | new chunks arrive only while the text indexes hold nothing |
| IndexAgreement.SavingFactsAgrees | app/modules/knowledge/application/pipeline.py:157-164 | new facts arrive only while the graph holds nothing |
| IndexAgreement.UpsertAgrees | app/modules/knowledge/application/pipeline.py:206-209 | a partial or complete write keeps the slice within the committed records |
| IndexAgreement.MarkingReadyAgrees | app/modules/knowledge/application/pipeline.py:210-221 | a stage marked ready holds exactly the committed records |
| IndexAgreement.SupersededStep | app/modules/knowledge/application/pipeline.py:236-251 | whatever a superseded attempt tries, only its own bookkeeping changes |
| IndexAgreement.ResetAgrees | app/modules/knowledge/application/service.py:314-319 | a correction leaves agreement intact by demanding a cleanup |
| IndexAgreement.PublishedIntervals | app/modules/knowledge/application/service.py:215-220 | publishing keeps the published periods of every document disjoint |
| IndexAgreement.ApplyInv | app/modules/knowledge/application/pipeline.py:21-252 | every step of workers, editors, sweeper and job endpoints keeps the whole invariant |
| IndexAgreement.RunInv | app/modules/knowledge/application/pipeline.py:21-252 | so does every run |
| Lifecycle.IndexesAgree | app/modules/knowledge/application/pipeline.py:198-221 | over every run: without a due cleanup an index holds only committed records, a ready stage exactly those, other generations nothing |
| Lifecycle.PublicationGate | app/modules/knowledge/application/pipeline.py:222-227 | in review, approved, rejected, published or withdrawn all three stages are ready |
| Lifecycle.ApprovedPublishes | app/modules/knowledge/application/service.py:200-217 | publishing an approved version fails exactly when some published version starts no earlier |
| Lifecycle.StatusRequests | app/modules/knowledge/application/service.py:133-240 | completed uploads, reviews and withdrawals: which status each needs, and the status it leads to |
| Lifecycle.CreationRequests | app/modules/knowledge/application/service.py:68-120 | a new version begins uploading, without job and content |
| Lifecycle.JobRequests | app/modules/knowledge/api/router.py:204-209 | a job starts exactly while none is active and, for a version without any, only if it is uploaded, failed or in processing |
| Lifecycle.JobSteps | app/shared/platform/execution.py:17-121 | what the steps of the job row make of the version; a claim that goes through brings a new attempt |
| Lifecycle.CorrectionRequests | app/modules/knowledge/application/service.py:276-319 | a correction is accepted exactly in failed, review or rejected without an active job, for existing blocks named once; it leaves the corrected artifact, no chunks and facts, and a due cleanup |
| Lifecycle.PublicationRequests | app/modules/knowledge/application/service.py:196-229 | publication: exactly when it goes through, and the periods it leaves |
| Lifecycle.PublishedContent | app/modules/knowledge/application/pipeline.py:77-221 | a published version's text indexes hold one passage per chunk of a segmentation of its current artifact, with text and locator, and its graph one triple per fact, each named after its ends and quoted verbatim from its chunk |
| Lifecycle.SearchFindsCurrentText | app/infrastructure/knowledge/fake.py:83-88 | a search limited to published versions finds only their current passages |
| Lifecycle.StaleStaysInert | app/shared/platform/execution.py:53-62 | a superseded attempt is inert in every later state |
| Lifecycle.OtherVersionsUntouched | app/modules/knowledge/application/service.py:196-229 | a step about one version leaves others alone, except that publication may shorten periods |
| Lifecycle.OneVersionAtATime | app/modules/knowledge/application/service.py:215-220 | in every reachable state a search at an instant sees at most one version per document |
| Lifecycle.PhaseStep | app/modules/knowledge/application/service.py:176-229 | one step leads a version at most one phase towards publication, and only by the step proper to that phase |
| Lifecycle.CorrectionForcesEverything | app/modules/knowledge/application/service.py:276-319 | a corrected artifact is published only after cleanup, three stages, finish, approving review and publication, in this order |
| Lifecycle.CleanupMeansEmpty | app/modules/knowledge/application/pipeline.py:45-52 | the cleanup flag goes only when all three indexes hold nothing of the version |
| StaleReads.SeparateIsWhole | app/modules/knowledge/application/service.py:278-289 | with an attempt's read and guard and a correction's check and commit as separate steps: while no job is created between check and commit, every step is one of the whole machine and what an attempt in charge read stays current |
| StaleReads.SeparateReaches | app/modules/knowledge/application/pipeline.py:37-44 | so every such run reaches only worlds that Lifecycle speaks of |
| StaleReads.EntryAgreesExactly | app/modules/knowledge/application/pipeline.py:37-45 | an attempt agrees with its version after its start exactly when the index state and blocks it read are still the version's |
| StaleReads.RetryOvertakes | app/modules/knowledge/application/retry.py:10-12 | from every failed version and every acceptable correction a retry can start from the uncorrected artifact after the correction |
| StaleReads.OvertakingLosesCorrection | app/modules/knowledge/application/service.py:276-317 | it then saves chunks of the uncorrected artifact, and the demanded cleanup is forgotten over untouched indexes |
| Reingestion.StepsInv | app/shared/platform/service.py:120-222 | over any run of endpoints, workers and queue the jobs of a version are one chain whose last row has the status of the job that works on it |
| Reingestion.CorrectedNeverPublishes | app/shared/platform/models.py:774-779 | once a queued ingestion has succeeded and the artifact is corrected, no run of queued starts and retries brings the version to review or publication again |
| Recovery.StaysLive | app/modules/knowledge/application/pipeline.py:42-235 | without interference every guarded commit of an attempt goes through as proposed and leaves the lease live |
| Recovery.Cleans | app/modules/knowledge/application/pipeline.py:45-52 | a due cleanup is carried out, otherwise it is passed over |
| Recovery.Segments | app/modules/knowledge/application/pipeline.py:70-112 | existing chunks are kept, missing ones are cut and saved |
| Recovery.OneAttemptHeals | app/modules/knowledge/application/pipeline.py:21-235 | from every reachable state one uninterrupted attempt brings the version to review with exact indexes and the job to 100 |
| Pipeline.Worker.CleanUp | app/modules/knowledge/application/pipeline.py:45-52 | the loop over the three indexes empties each before the flags are cleared, and changes nothing else |
| Pipeline.Worker.ReadArtifact | app/modules/knowledge/application/pipeline.py:53-69 | an existing artifact is kept; otherwise the parser must answer, and its blocks are committed |
| Pipeline.Worker.CutChunks | app/modules/knowledge/application/pipeline.py:70-112 | fails exactly when new content cannot be segmented into at most 20000 chunks, else keeps old chunks or saves the new ones |
| Pipeline.Worker.FindFacts | app/modules/knowledge/application/pipeline.py:113-164 | fails exactly when a needed extraction names unsupported evidence, else keeps old facts or saves the new ones |
| Pipeline.Worker.FillIndex | app/modules/knowledge/application/pipeline.py:198-221 | a stage is skipped when ready, else written whole and marked, agreement holds throughout, and progress rises to 50, 65, 80 |
| Pipeline.Worker.Fail | app/modules/knowledge/application/pipeline.py:236-251 | while its token is on the running job the failure handler ends it, cancelled or failed, and a version in processing; else it changes neither; content and agreement are kept |
| Pipeline.Worker.ExecuteIngestion | app/modules/knowledge/application/pipeline.py:21-252 | succeeds exactly for a processable version with usable answers, and otherwise gives the error of the first stage that fails, with agreement kept; on success earlier blocks, chunks and facts are kept, missing ones are those parsed, cut and answered, and the indexes hold exactly them, awaiting review |
| Investigation.ToolRegistry.Register | app/modules/operation_event/application/investigation_tools.py:45-49 | only read-only tools ever enter the registry |
| Investigation.ToolRegistry.Call | app/modules/operation_event/application/investigation_tools.py:58-94 | refuses unknown tools; else at most the first five rows for the first hundred characters of the query |
| Investigation.GatherLoop | app/modules/operation_event/application/investigation.py:265-318 | the budgeted loop computes the specified gathering or its error |
| Investigation.NodeDecreases | app/modules/operation_event/application/investigation.py:440-458 | every node lowers the lexicographic measure of revisions left and node position |
| Investigation.Investigate | app/modules/operation_event/application/investigation.py:460-501 | the cyclic graph terminates and returns the result of the crash-free run |
| InvestigationRuns.NodeReplays | app/modules/operation_event/application/investigation.py:200-203 | a committed node run again gives the same state and leaves the database, so also its model calls, alone |
| InvestigationRuns.CrashesChangeNothing | app/modules/operation_event/application/investigation.py:488-501 | with any number of crashes a finished run has the graph state, database and errors of the crash-free run, within 13 checkpoints |
| InvestigationRuns.GatherBounded | app/modules/operation_event/application/investigation.py:265-318 | decisions stay within six, tool calls are distinct and fewer, evidence at most five rows per call |
| InvestigationRuns.StepBounded | app/modules/operation_event/application/investigation.py:200-458 | every node keeps the call bounds, valid citations, and no stale remembered task |
| InvestigationRuns.SuccessGathered | app/modules/operation_event/application/investigation.py:228-333 | a run that reaches the end has gathered evidence, so the tool and row bounds apply to it |
| InvestigationRuns.RunBounds | app/modules/operation_event/application/investigation.py:265-318 | at any moment of any crashed run at most 16 recorded model calls, those of committed nodes (1, 6, 3, 3, 3 by role); once evidence is in, at most 5 distinct tool calls and 26 evidence rows |
| InvestigationRuns.NoTies | app/modules/operation_event/application/investigation.py:535-537 | rounding the score never meets a tie |
| InvestigationRuns.ProposalQuality | app/modules/operation_event/application/investigation.py:506-537 | all surviving citations are valid, the score is in 50..100, and 100 exactly with evidence, complete fields and no conflicts |
| InvestigationRuns.QualityExact | app/modules/operation_event/application/investigation.py:523-537 | the parts of the score: all or nothing, but twenty points off for every conflict |
| InvestigationRoutes.RoutesTaken | app/modules/operation_event/application/investigation.py:440-458 | over every finished run with any crashes: every review but the last asked for a revision; one plan and one review more than revisions; risk assessed and evidence gathered again exactly in those revisions that followed an insufficient review |
| InvestigationRoutes.ProposalFromAnswers | app/modules/operation_event/application/investigation.py:506-520 | its proposal holds the answers of the last plan, review and risk assessment, over evidence that is exactly the rows gathered, with the unknowns of the decision that ended the gathering |
| InvestigationRoutes.GatherMeans | app/modules/operation_event/application/investigation.py:265-318 | one visit of the evidence node: its searches, at most five rows of each, and its end: a finish, a repetition, or the sixth decision of the run |
| InvestigationRoutes.NodeStops | app/modules/operation_event/application/investigation.py:200-458 | a node stops a run exactly for one of the named reasons |
| Ranking.BestFirst | app/modules/knowledge/application/retrieval.py:130 | the best keys first, and a key is left out only when the list is full |
| GraphExpansion.Filter | app/modules/knowledge/application/retrieval.py:98-116 | the loop keeps the facts that KeptExact describes |
| GraphExpansion.KeptExact | app/modules/knowledge/application/retrieval.py:98-116 | kept are, in order, exactly the facts that the fact table holds under the same id, with the same content, for a version of the scope |
| GraphExpansion.Expand | app/modules/knowledge/application/retrieval.py:90-129 | the two-hop loop yields exactly one lane per entity of the walk, in order, with its confirmed facts |
| GraphExpansion.UnseenOrdered | app/modules/knowledge/application/retrieval.py:94-97 | a list without repetitions comes in the order of first occurrences |
| GraphExpansion.EndsExact | app/modules/knowledge/application/retrieval.py:118-121 | of each fact of a version in scope, in order, its source and then its target |
| GraphExpansion.ReachedInOrder | app/modules/knowledge/application/retrieval.py:94-129 | what the entities lead to comes in the order in which they were asked |
| GraphExpansion.WalkExact | app/modules/knowledge/application/retrieval.py:91-129 | the walk asks at most ten entities, none twice: all of the first five, all of the first five ends they lead to, and no other |
| GraphExpansion.FrontierExact | app/modules/knowledge/application/retrieval.py:117-129 | those ends are exactly the ends of confirmed facts of versions in scope that the first five entities lead to, each once |
| GraphExpansion.WalkLanesExact | app/modules/knowledge/application/retrieval.py:44-57 | each generation is walked over its own visible versions, one after the other |
| GraphExpansion.RetrieveWithGraph | app/modules/knowledge/application/retrieval.py:44-196 | outside global mode the result is the greedy choice among the reranked rows of the best sixty chunks of searches and graph walk, and each was found by a search in scope or is named by a confirmed fact of a visible version |
| Retrieval.Fuse | app/modules/knowledge/application/retrieval.py:71-89 | a chunk is scored exactly when some lane returned it from a visible version of its generation, by the sum of its rank weights |
| Retrieval.ScorePositive | app/modules/knowledge/application/retrieval.py:87-89 | a score is positive exactly for chunks in scope |
| RankFusion.LanesAdd | app/modules/knowledge/application/retrieval.py:78-89 | the score over several lanes is the sum of the scores over each |
| RankFusion.HitAdds | app/modules/knowledge/application/retrieval.py:87-89 | a further hit of a lane adds one over sixty plus its place to its own chunk if it is in scope, and nothing else |
| RankFusion.RankScores | app/modules/knowledge/application/retrieval.py:87-89 | a chunk found once at rank r, from 0, scores 1 / (61 + r), strictly more than one found once at a later rank of any lane |
| RankFusion.EarlierNeverLost | app/modules/knowledge/application/retrieval.py:87-130 | of chunks found once, a later rank is never among the best sixty without, or before, an earlier one |
| Retrieval.ChosenWell | app/modules/knowledge/application/retrieval.py:164-192 | the greedy choice is verbatim, in candidate order, repeats no (version, text), keeps budget and limit, and takes a candidate exactly when nothing speaks against it next to what was taken before |
| Retrieval.SelectEvidence | app/modules/knowledge/application/retrieval.py:164-192 | the loop with its running budget and early exit computes the greedy choice that ChosenWell describes |
| Retrieval.LookupExact | app/modules/knowledge/application/retrieval.py:131-143 | the rows looked up are exactly the visible rows of the table with these ids |
| Retrieval.LookupOrdered | app/modules/knowledge/application/retrieval.py:142-143 | they come in the order of the ids |
| Retrieval.VisibleOrdered | app/modules/knowledge/application/retrieval.py:146-152 | the visible rows of the global mode, in the order of the table |
| Retrieval.FusedCandidates | app/modules/knowledge/application/retrieval.py:130-163 | the candidates are the visible rows of the sixty best-scored chunks in scope, at the places the reranker names; a place out of range is an error exactly when there are rows to rank |
| Retrieval.Retrieve | app/modules/knowledge/application/retrieval.py:17-196 | exact in both modes: the greedy choice among the reranked rows of the best sixty chunks in scope, or among all visible rows unless they exceed 1000; evidence is verbatim text of visible versions |
| Answers.GroundedAnswer | app/modules/knowledge/application/answers.py:57-91 | returned claims are all grounded; an answer is refused exactly when a claim is not; a failed check empties it; else it is the draft |
| Answers.AnswerQuestion | app/modules/knowledge/application/answers.py:94-172 | every quote of every returned claim is verbatim stored text of a visible version, over exactly the evidence that retrieval returns |
| Grounding.AnswerFromKnowledge | app/modules/knowledge/application/answers.py:57-91 | in every state ingestion can reach, each quote of an answer is text of the current segmentation of a published version |
| Metrics.RecallBounds | app/modules/knowledge/application/evaluation.py:17-22 | recall lies in [0, 1] and is 1 exactly when everything expected was returned |
| Metrics.RecallExact | app/modules/knowledge/application/evaluation.py:17-22 | recall times the number of expected items is the number of those returned |
| Metrics.MrrBounds | app/modules/knowledge/application/evaluation.py:18-23 | the reciprocal rank lies in [0, 1], 1 exactly for a relevant first result, 0 exactly without a hit |
| Metrics.MrrExact | app/modules/knowledge/application/evaluation.py:18-23 | the reciprocal rank is one over the place of the first hit |
| Metrics.DcgAdds | app/modules/knowledge/application/evaluation.py:19 | the gain is the sum of what each item gains alone |
| Metrics.DcgAlone | app/modules/knowledge/application/evaluation.py:19 | an item returned once gains the discount of its position |
| Metrics.DcgBound | app/modules/knowledge/application/evaluation.py:19-20 | hits, repetitions counted, gain at most what they would at the front, and as much only there |
| Metrics.NdcgBounds | app/modules/knowledge/application/evaluation.py:19-24 | nDCG lies in [0, 1] while there are no more hits than relevant items, and is 1 exactly when hits fill the first positions |
| Metrics.NdcgExact | app/modules/knowledge/application/evaluation.py:19-24 | nDCG is the gain relative to a list of the same length with as many hits in front as there can be |
| Metrics.DistinctHits | app/modules/knowledge/application/evaluation.py:17 | a duplicate-free list has no more hits than relevant items |
| Metrics.NdcgInRangeExactly | app/modules/knowledge/application/evaluation.py:19-24 | nDCG stays in [0, 1] for every discount if and only if the hits, repetitions counted, are no more than the relevant items |
| Metrics.EvaluateCase | app/modules/knowledge/application/evaluation.py:51-64 | the scores an evaluation records are those of what retrieval returns, and all lie in [0, 1], because retrieval repeats no evidence id |
| Metrics.EmptyResultScoresPerfect | app/modules/knowledge/application/evaluation.py:24 | a result without a hit scores nDCG 1 if and only if it is empty |
| Metrics.DuplicatesExceedOne | app/modules/knowledge/application/evaluation.py:19-24 | the smallest list outside that condition, one relevant item returned twice, scores above 1 for every discount |
| EventStream.KnowledgeRun.Append | app/modules/knowledge/application/answers.py:49-54 | appends the event with its payload under the next number; sequences stay 1, 2, ... without gaps |
| EventStream.KnowledgeRun.Read | app/modules/knowledge/api/router.py:353-362 | at most a hundred events after the cursor, in order |
| EventStream.AppendedRows | app/modules/knowledge/application/answers.py:49-54 | a transaction's events follow the rows there are, with the next numbers, their kinds and payloads, in order |
| EventStream.GapFree | app/modules/knowledge/api/router.py:333-369 | appends, polls, drops in mid-page and reconnections keep the client's events an unbroken stretch |
| EventStream.DeliveredInOrder | app/modules/knowledge/api/router.py:363-366 | what a client received is exactly after+1, after+2, ... |
| EventStream.ClosingPollDeliversAll | app/modules/knowledge/api/router.py:367-369 | a stream that ends itself has delivered everything there was |
| EventStream.ClosedMissesLaterAppends | app/modules/knowledge/api/router.py:333-369 | a client without a connection that does not come back misses exactly what is appended later |
| EventStream.CompleteAfterLastCommit | app/modules/knowledge/api/router.py:367-369 | a client that stays away once its stream has ended holds every event exactly when the closing round came after the run's last commit |
| EventStream.StreamMayEndEarly | app/modules/knowledge/application/answers.py:167-190 | wherever a final status is committed before the last events, a round between the two ends the stream without exactly those events |
| EventStream.FinalEventMeansAll | app/modules/knowledge/application/answers.py:49-54 | over every interleaving, after any attempts, retries and stage events of superseded workers: a client holds everything up to the one final event exactly when it received an event of that kind |
| EventStream.AnswerComplete | app/modules/knowledge/application/answers.py:112-174 | over every interleaving of an answered run, after any failed attempts: the client misses nothing exactly when the last event it received is the completion |
| EventStream.AnswerDelivered | app/modules/knowledge/application/answers.py:171-174 | and then its last events are the claims in order, each with its payload, and the completion |
| EventStream.AnswerCompleteAfterFifth | app/modules/knowledge/application/answers.py:112-174 | a client that stays away has the whole answer exactly when the closing round came after the fifth of the worker's commits |
| EventStream.FailureComplete | app/modules/knowledge/application/answers.py:175-191 | while no earlier attempt reported an error, a client of a failed or cancelled run misses nothing exactly when the last event it received is the error |
| EventStream.DiedBeforeCompletion | app/modules/knowledge/application/answers.py:167-174 | after a death between the last two commits the run is succeeded and no claim or completion ever exists |
| EventStream.ReconnectCatchesUp | app/modules/knowledge/api/router.py:333-369 | reconnecting with the last id leaves nothing missing |

## Left out

* HTTP, SQL, S3, Celery and the Elasticsearch, Qdrant and Neo4j clients: an index is a table keyed by generation and record id.
* Authentication, roles and data scopes: authorization is a predicate given by the caller, and it includes the SQL scope and base filters.
* Late index writes of a superseded worker: excluded by the assumption above.
* Embedding models and dimensions, document titles in index records, and the model mismatch check, which only ends an attempt.
* The mark `human_corrected` and the log of corrections in an artifact: the corrected texts are modelled.
* The graph's `neighbors` search and its page size; vector similarity is an arbitrary score.
* Query planning and conversation history before retrieval: lanes are given by the caller. The embedding check of a generation is left out.
* Interference inside `Pipeline.Worker` (claims, cancels, sweeps between its steps): every interleaving is covered by the machine, the imperative program runs alone.
* The parser's polling loop and its time limits: the parsed blocks are given.
* Step rows, usage counters and costs of a node that did not commit, run-level cancellation and the 600 second limit of an investigation: such a node leaves no trace in the model, and the model calls of a killed node are not counted.
* Audit entries, job events, messages and worker ids.
* The guard behind each commit of the answer worker: `EventStream` takes the order of its commits as given, and the job's side is in `JobProtocol`. The stream's 600 rounds and its check of access only end a connection.
* Handover, meeting, inspection and work-order tables: their status changes touch neither ingestion nor jobs nor investigations.
- Segmentation.ChunkSizeBound: table chunks are not bounded, because the code does not bound a row.
- Ranking.BestFirst: equal scores may come in any order, where the code keeps the order in which they were first scored.
- StaleReads.OvertakingLosesCorrection: stated for a version whose facts were not extracted before; other overtaken versions start from the uncorrected artifact too (RetryOvertakes).

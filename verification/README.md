# pg-llm-batch: a verified model of its durable protocols

`pg_llm_batch` submits batches of LLM requests to a provider, follows them in
PostgreSQL, and applies the results to an application's own tables. This project
models the parts of it whose correctness spans many calls, processes or crashes,
and proves what each is for.

| files | what they model |
|---|---|
| `Bytes`, `Sequences`, `Delimited`, `Runs` | bytes, big-endian and length-prefixed fields, newline-delimited text, runs of steps |
| `Framing` | the checkpoint digest's framing and the hasher that absorbs it |
| `LineStream`, `ErrorCategory` | cutting a chunked download into bounded physical JSONL lines, and how far its error depends on the chunks |
| `CheckpointedStream`, `CheckpointOrder`, `YieldPlaces` | the checkpointed record iterator, resuming, the order of its checkpoints, and which line of which file each yield is |
| `CheckpointDecisions`, `TransactionProtocol`, `CheckpointChain`, `EffectPairing`, `EffectOnce` | concurrent transactions saving checkpoints and committing effects, one SQL statement a step |
| `ResultApplication`, `ApplyRefinement` | one application in a transaction, as a step and as single SQL statements |
| `ResultDriver`, `ResultProgress`, `ResultWorkers`, `ResultBoundary` | the crash/restart protocol around it: one consumer pass after pass, and any number of workers taking turns on any rows |
| `Lifecycle`, `LifecycleHistory`, `Pollers` | normalising and merging provider observations, under any interleaving of pollers |
| `Assembly`, `PayloadDocument` | greedy packing of requests into parts, and the persisted JSONL document |
| `Preparation`, `PreparationSafety`, `PreparationTheorems`, `PreparationTokens`, `PreparationGuards`, `PreparationWitness`, `PreparationContinuation` | the prepare-once transaction under any interleaving of calls, inserts and crashes |
| `Reconciliation`, `Rotation`, `SingleFlight` | bounded selection, fair rotation and advisory-lock single flight |
| `RequestRetry`, `ConfigStore` | bounded retry and waiting, and the write-through configuration cache |

Code that changes state step by step (the line cutter, the iterator, the hasher,
the accumulator, the session, the upsert, the retry loop, the cache) is a class or
a method with a loop, and its contract equates the outcome with a specification on
values. The theorems are then lemmas about those specifications, and what a
specification computes is stated once more by itself, from the inputs and the fields
of the outcome. Concurrent
behaviour is a state machine over single SQL statements; a step that is not
enabled, or would block, changes nothing, so every list of steps is an
interleaving and a theorem about all lists holds of every run.

SHA-256 is a free constructor on byte strings, hence injective; nothing else is
assumed of it. JSON, UTF-8 decoding, identifier patterns, number formatting and
case folding are function parameters; what a theorem needs of them is in its
`requires`.

## Where the code and its description part

* Applying a result rejects a predecessor from another file
  (`pg_llm_batch/result_application.py:251-257`), so a consumer stops at the step
  from the result file to the error file. What is committed stays an exact prefix.
  `ResultBoundary.CompletableIffOneFile` shows that some run of some workers commits
  every record of a stream if and only if they are all of one file, and
  `ResultBoundary.BothFilesNeverComplete` gives a batch with a record in each.
* `load_in_transaction` takes no row lock and an equal row is a successful save, so
  two overlapping transactions can both commit one record's effect:
  `EffectOnce.OverlappingApplicationsRepeatTheEffect` exhibits it. The exact
  condition is the branch taken by the save: over every interleaving
  (`EffectPairing.PairedIffNoneRepeatedOrAbandoned`,
  `EffectPairing.OnceIffNoneRepeated`) effects are paired with advances, and none
  is committed twice, if and only if no committed save found its candidate already
  durable and none of the committed applications failed after its effect. Callers
  that are serial per key and roll such failures back never do either
  (`EffectOnce.EffectsAreCommittedOnce`).
* The durable client and the recorder do not normalise alike. An observation with
  no status, or an empty one, is recorded as unknown by the recorder alone, but the
  client turns it into the text `unknown`, which the recorder rejects; an endpoint
  that is not text or holds a NUL is refused by the recorder alone, but the client
  drops it and the observation is recorded. `Pollers.ForwardingPreservesIff` states
  exactly when forwarding changes nothing, and `Pollers.ForwardingWitnesses` gives
  one input of each failing class.
* A preparation call that finds nothing to prepare answers with empty lists and
  leaves the batch unprepared, so the same call may answer with files later
  (`PreparationWitness.EmptyAnswerMayChange`), from every reachable state
  (`PreparationContinuation.SomeContinuationAnswers`); `PreparationTheorems.RepeatedCallsAgree`
  shows that this is the only way for two calls with one file limit to differ.
* The upsert returns the incoming snapshot when it accepts one, not the merged row
  (`pg_llm_batch/db.py:659-700`); `Lifecycle.LifecycleTable.Persist` says so.
* Order numbers are reserved before the provider answers, so convergence of a row
  needs histories that are monotone in that order;
  `Lifecycle.ConvergesIffMonotone` shows that these are exactly the histories for
  which it holds.
* A late observation is dropped whole, so an optional field that only it carried is
  lost (`LifecycleHistory.LateObservationIsDropped`).
* A body over the download limit may deliver more or fewer lines before the error,
  depending on its chunks (`ErrorCategory.DeliveryDepends`). Within the limit the
  lines are fixed and only the error category may vary:
  `ErrorCategory.CategoryIsFixedIff` says exactly for which bodies it does, and
  `ErrorCategory.CategoryDepends` gives one.
* A category with a dot can leave a stale cached value, because a stored key is
  split at its first dot; a row whose key has no dot is loaded under `global` and
  may shadow the `global` row of that key. `ConfigStore.SetKeepsCoherenceIff`,
  `ConfigStore.OpeningIsCoherentIff` and `ConfigStore.FreshStoreAgreesIff` give the
  exact conditions.

## Model

| member | source | states |
|---|---|---|
| Bytes.PrefixedIsSelfDelimiting | pg_llm_batch/result_streaming_checkpoint_impl.py:212-217 | what follows a length-prefixed byte string cannot be mistaken for part of it, whatever either contains |
| Framing.FramesInjective | pg_llm_batch/result_streaming_checkpoint_impl.py:212-217 | two lists of tagged frames with equal bytes are the same list |
| Framing.PreimageInjective | pg_llm_batch/result_streaming_checkpoint_impl.py:212-258 | equal digest pre-images mean the same batch, alias, files in order, line numbers, line bytes and termination flags |
| Framing.Hasher.AddEvent | pg_llm_batch/result_streaming_checkpoint_impl.py:229-258 | absorbing one file header or line turns the pre-image of a prefix into that of the prefix with this event added |
| LineStream.ProperChunkingIsWhole | pg_llm_batch/result_streaming_checkpoint_impl.py:641-690 | non-empty byte chunks of bounded size within the download limit are all usable |
| LineStream.ProperChunksOfferTheBody | pg_llm_batch/result_streaming_checkpoint_impl.py:638-730 | a properly chunked body within the limit offers exactly its own lines, an unterminated last one included |
| LineStream.TakeLine | pg_llm_batch/result_streaming_checkpoint_impl.py:153-172 | each physical line is counted once and judged by the batch's line budget, the line limit and the parser, in that order |
| LineStream.DrainCompleteLines | pg_llm_batch/result_streaming_checkpoint_impl.py:684-706 | draining the buffer delivers exactly its newline-terminated lines up to the first refused one, and leaves the remainder |
| LineStream.ReadChunks | pg_llm_batch/result_streaming_checkpoint_impl.py:638-730 | lines and success are those of the bytes alone, the error is exactly the over-long carry at a chunk boundary, else the first refused line, else the first defective chunk, and the carry buffer never exceeds the line limit plus one chunk |
| LineStream.ReadLines | pg_llm_batch/result_streaming_checkpoint_impl.py:587-730 | the same for a whole response; a declared length over the limit is refused before any chunk is read, and only then |
| LineStream.ChunkingIsIrrelevant | pg_llm_batch/result_streaming_checkpoint_impl.py:638-730 | two valid chunkings of one body within the limit, under any declared length, deliver the same lines and agree on success or failure |
| LineStream.SuccessRestoresBody | pg_llm_batch/result_streaming_checkpoint_impl.py:684-730 | on success, joining the delivered lines with their terminators gives back the body byte for byte |
| ErrorCategory.OverlongIsCulprit | pg_llm_batch/result_streaming_checkpoint_impl.py:708-713 | a carry over the line limit with nothing refused yet is part of the body's first refused line |
| ErrorCategory.UnambiguousIsFixed | pg_llm_batch/result_streaming_checkpoint_impl.py:684-730 | for a body that is not ambiguous the category is a function of the body |
| ErrorCategory.CategoryIsFixedIff | pg_llm_batch/result_streaming_checkpoint_impl.py:684-730 | the category of a body within the limit is the same for all proper chunkings if and only if its first refused line is not at once terminated, over the line count, over-long, and less than a chunk too long |
| ErrorCategory.CategoryDepends | pg_llm_batch/result_streaming_checkpoint_impl.py:684-713 | two chunkings of two bytes and a newline with two categories |
| ErrorCategory.DeliveryDepends | pg_llm_batch/result_streaming_checkpoint_impl.py:671-678 | two chunkings of a body over the download limit that deliver one line and none |
| CheckpointedStream.CheckpointDeterminesPrefix | pg_llm_batch/result_streaming_checkpoint_impl.py:212-258 | equal checkpoints come from equal streams: same batch, alias and every event so far |
| CheckpointedStream.ConsumeLine | pg_llm_batch/result_streaming_checkpoint_impl.py:427-467 | one line moves the iterator as the stream's meaning prescribes: still waiting, matched, yielded, or stopped by the record limit or a mismatch, whatever follows; a yield has this line's record, file, number in the file, and the counts and digest through it |
| CheckpointedStream.IterateCheckpointed | pg_llm_batch/result_streaming_checkpoint_impl.py:371-477 | the iterator over both files yields and ends as the request's meaning on the provider's bytes says: complete, a file failure, the record limit, a mismatched checkpoint or one not found; it is refused, with nothing yielded, exactly for a bad batch id or alias, a checkpoint of another stream, an unfinished batch or one without files |
| CheckpointedStream.ResumeContinues | pg_llm_batch/result_streaming_checkpoint_impl.py:403-477 | resuming after the k-th record of an unchanged stream yields exactly the records after it, with the same checkpoints and the same ending |
| CheckpointedStream.ResumeOnAnyStream | pg_llm_batch/result_streaming_checkpoint_impl.py:427-477 | on any stream, resuming continues it if its prefix through that record is the same; otherwise it yields nothing and is a mismatch if the stream has that many records, and not found or the stream's own failure if not |
| CheckpointedStream.SamePrefixYields | pg_llm_batch/result_streaming_checkpoint_impl.py:427-467 | streams with the same prefix through a record yield the same records and checkpoints through it |
| CheckpointedStream.SameCheckpointSamePrefix | pg_llm_batch/result_streaming_checkpoint_impl.py:427-467 | streams that reproduce one checkpoint have the same prefix through its record |
| CheckpointOrder.ItemsAreValid | pg_llm_batch/result_streaming_checkpoint_impl.py:78-139 | every checkpoint the iterator builds satisfies the checkpoint's own constraints |
| CheckpointOrder.ItemsIncrease | pg_llm_batch/result_streaming_checkpoint_impl.py:427-467 | the i-th yield counts i records, and physical line counts strictly rise from yield to yield |
| CheckpointOrder.BatchYieldsAreOrdered | pg_llm_batch/result_streaming_checkpoint_impl.py:407-467 | the same across both files of a batch, within the batch's line ceiling |
| YieldPlaces.YieldsAreRecordLines | pg_llm_batch/result_streaming_checkpoint_impl.py:371-477 | without a checkpoint, the yields are exactly the record lines of the batch's files, in order, as many as the record limit allows; each names its own file's kind and id, its line's number in that file and in the batch, and its record is what that line decodes to; the ending is told from the files too |
| YieldPlaces.EveryYieldIsALine | pg_llm_batch/result_streaming_checkpoint_impl.py:403-477 | whatever checkpoint a run resumes from, each yield is the record line its record count points to, with all these fields |
| YieldPlaces.LineIsRefusedFor | pg_llm_batch/result_streaming_checkpoint_impl.py:690-809 | a line is refused for the line count, else for its length, else for text that is no object, and accepted if and only if none of these holds |
| YieldPlaces.ChunkIsRefusedFor | pg_llm_batch/result_streaming_checkpoint_impl.py:644-679 | a chunk is refused for not being bytes, for being empty, for more than 64 KiB or for the download limit, each if and only if it is so |
| CheckpointChain.EveryRunIsSafe | pg_llm_batch/checkpoint_store.py:306-413 | in every interleaving, with transactions that go on after a refusal included, the table is what the committed writes leave, each of which replaced the predecessor its caller expected, and uncommitted writes hold their row locks |
| CheckpointChain.ConflictRowIsThere | pg_llm_batch/checkpoint_store.py:355-369 | after losing the insert race the row is visible, so the not-found branch is never taken |
| CheckpointChain.ChainStart | pg_llm_batch/checkpoint_store.py:322-346 | the first write of a key in a legal history replaced nothing and expected nothing |
| CheckpointChain.ChainLink | pg_llm_batch/checkpoint_store.py:370-413 | of two successive writes of a key the later one expected and replaced the earlier value, whose record and line counts are both below its own |
| CheckpointChain.ChainRises | pg_llm_batch/checkpoint_store.py:386-394 | along one key the record count and the line count each rise strictly, so no value is committed twice |
| CheckpointChain.CommittedValuesFormChains | pg_llm_batch/checkpoint_store.py:368-413 | the committed values of a key form one chain: the first expected nothing, each next one expected and replaced the one before, the record count and the line count each strictly rise, and the table holds exactly the last value of each chain |
| EffectPairing.EveryRunBalances | pg_llm_batch/result_application.py:272-310 | in every interleaving each effect, committed or not, is written, repeated, abandoned or waiting for its save |
| EffectPairing.PairedIffNoneRepeatedOrAbandoned | pg_llm_batch/checkpoint_store.py:368-379 | in every interleaving committed effects are paired in order with the checkpoint advances of applications if and only if no committed application found its candidate already durable or failed after its effect |
| EffectPairing.OnceIffNoneRepeated | pg_llm_batch/checkpoint_store.py:368-379 | without direct saves and commits after a failure, each record's effect is committed at most once if and only if no committed application found its candidate already durable |
| EffectOnce.DisciplinedRunIsOnce | pg_llm_batch/result_application.py:229-310 | in every run that is serial per key, for applications and direct saves alike, nothing is repeated and the row an application relies on is still the one it loaded |
| EffectOnce.EffectsAreCommittedOnce | pg_llm_batch/result_application.py:229-310 | in every run that is serial per key and rolls back after a failure past the effect, direct saves included, committed effects and applications' advances correspond one to one in order, none is repeated, and record and line counts of one key's effects each strictly rise |
| EffectOnce.OverlappingApplicationsRepeatTheEffect | pg_llm_batch/checkpoint_store.py:240-248 | without that discipline one record's effect can be committed twice, for any applicable record |
| ResultApplication.Session.SaveInTransaction | pg_llm_batch/checkpoint_store.py:272-413 | compare and swap: saved if and only if the arguments fit and there is no row and none was expected, or the row is the candidate, or it is the one expected with both counts below; invalid, missing, stale and regression each have their own cause; the row holds the candidate exactly when saved, and every refusal leaves the table alone |
| ResultApplication.SaveMeans | pg_llm_batch/checkpoint_store.py:288-413 | each answer of a save, if and only if: from the row, the candidate, the expected predecessor, their counts and the range of a BIGINT |
| ResultApplication.ApplyMeans | pg_llm_batch/result_application.py:229-310 | each answer of an application, if and only if: from the row, the item and what the effect does |
| ResultApplication.ScopedCursor.Execute | pg_llm_batch/result_application.py:49-103 | a revoked cursor reaches nothing |
| ResultApplication.Apply | pg_llm_batch/result_application.py:184-310 | a record is applied with exactly one effect and its checkpoint, or the checkpoint stays; it is applied if and only if it is consistent, its row, if any, is an earlier one of the same file, the effect returns and the counts fit; replays and refusals run no effect; the lent cursor is revoked on every exit |
| ApplyRefinement.StatementsDoWhatApplyDoes | pg_llm_batch/result_application.py:229-310 | for every record, effect outcome and committed state, the single statements of an application on an unused key, committed or rolled back by its outcome, leave the table and effects that the step leaves |
| ResultDriver.Pass | pg_llm_batch/result_application.py:229-310 | one pass commits a prefix of what the resumed stream yields: each record's effect with its checkpoint, in order, and nothing of other keys |
| ResultDriver.StaysOnStream | pg_llm_batch/result_streaming_checkpoint_impl.py:403-477 | committing any number of resumed records keeps the log equal to the stream's records through the durable checkpoint |
| ResultDriver.StaysExact | pg_llm_batch/result_streaming_checkpoint_impl.py:403-477 | the same when the provider's stream changes between passes: the log stays the prefix of a stream seen before or of this pass's stream |
| ResultDriver.ExactOnMatchingStream | pg_llm_batch/result_streaming_checkpoint_impl.py:453-477 | if today's stream reproduces the durable checkpoint, the log is today's first records |
| ResultDriver.Drive | pg_llm_batch/result_application.py:184-310 | over every run of passes of one consumer, with effect failures and crashes anywhere, the committed log is exactly the first `record_count` records of a stream seen before or by one of the passes, and of the one stream if it never changes: no gap, duplicate or reorder; other keys are untouched |
| ResultWorkers.EveryRunKeepsInv | pg_llm_batch/result_application.py:229-310 | in every run of workers taking turns transaction by transaction, each worker's last confirmed checkpoint is the durable one or has been overtaken, and every consumer's log is exact |
| ResultWorkers.EveryRunIsExact | pg_llm_batch/result_application.py:229-310 | over every run of any number of workers, with serial transactions and failures, crashes, pauses and replacements anywhere, the log of each consumer of each batch is exactly the first `record_count` records of a stream some worker was answered with |
| ResultWorkers.OneStreamRunsAreExact | pg_llm_batch/result_application.py:229-310 | if all workers are answered with one stream, the log is that stream's first records through the durable checkpoint |
| ResultWorkers.AppliedIsInStep | pg_llm_batch/result_application.py:258-269 | the replay and regression guards let a record through only if nobody has overtaken the worker |
| ResultWorkers.OvertakenWorkerReplays | pg_llm_batch/result_application.py:258-259 | a worker standing at a record another has committed finds it already applied, moves on, and commits nothing |
| ResultWorkers.RunOnSession | pg_llm_batch/result_application.py:184-310 | the iterator and the application step, run by workers taking turns on a session, come to what the steps say |
| ResultBoundary.RunsStayWithinFirstFile | pg_llm_batch/result_application.py:251-257 | however many workers and passes, what is durable never gets past the stream's first file |
| ResultBoundary.CompletableIffOneFile | pg_llm_batch/result_application.py:251-257 | some run of workers on one stream commits all of its records if and only if they are all of one file |
| ResultBoundary.BothFilesNeverComplete | pg_llm_batch/result_application.py:251-257 | a batch with one record in each file, which no run ever completes |
| ResultBoundary.ReplacementReplays | pg_llm_batch/result_application.py:258-259 | a worker and its replacement on one stream both stand after the first record, and its effect is committed once |
| ResultProgress.YieldIsSavable | pg_llm_batch/checkpoint_store.py:88-107 | every yielded checkpoint passes the item checks and fits the table's columns |
| ResultProgress.NextApplication | pg_llm_batch/result_application.py:251-269 | in stream order no regression guard fires: the next record is applied, or declined exactly when it is of another file than its predecessor |
| ResultProgress.FaultFreePassReaches | pg_llm_batch/result_application.py:251-310 | a pass in which nothing fails applies exactly the rest of the current file |
| ResultProgress.NoPassGoesFurther | pg_llm_batch/result_application.py:251-257 | whatever happens to its records, no pass gets past the file it started in |
| ResultProgress.OneFileRunsToTheEnd | pg_llm_batch/result_application.py:251-257 | if all remaining records are of one file, that is all of them |
| ResultProgress.PassWithoutFaults | pg_llm_batch/result_application.py:229-310 | one pass without failures takes the log from wherever it stands to the end of the current file, and to all records of the batch if they are of one file |
| Lifecycle.NormalizedIsOk | pg_llm_batch/db.py:425-517 | an accepted observation has a known total that bounds completed plus failed, or none and zero, and a terminal time exactly when its status is terminal |
| Lifecycle.LifecycleTable.Persist | pg_llm_batch/db.py:520-700 | a response is refused, touching nothing, exactly for a bad status, endpoint, order or id or for counts above its total; a recorded snapshot is the response field by field, and so is the row of an empty table; the row stays exactly if the snapshot is not newer, would leave a terminal status, or their greatest counts exceed the greatest total; otherwise the row becomes its merge with it |
| Lifecycle.NormalizedReports | pg_llm_batch/db.py:425-517 | an observation is refused if and only if it is unacceptable, and otherwise the snapshot has the provider's own status, endpoint, three file ids, counts and metadata, each in its own field |
| Lifecycle.StatusNames | pg_llm_batch/db.py:195-212 | the status is the one the text names, nothing is unknown, and no other text is accepted |
| Lifecycle.ReachableRowsAreOk | pg_llm_batch/db.py:481-498 | every reachable row satisfies the total, order and terminal constraints |
| Lifecycle.RowsOnlyEvolve | pg_llm_batch/db.py:564-632 | between any two moments order strictly rises or nothing changed, counters never fall, a known total stays known, terminal status and time never change, present fields stay present |
| Lifecycle.TerminalAtIsFirst | pg_llm_batch/db.py:604-608 | a terminal row's status and terminal time are those of the delivery that first made it terminal |
| Lifecycle.FollowingIsExact | pg_llm_batch/db.py:609-632 | a later observation is taken over exactly when its counters do not fall, its total does not become unknown, and a terminal status is repeated |
| Lifecycle.DeliveryConverges | pg_llm_batch/db.py:564-632 | any non-empty subset of a monotone history, in any order with repeats, leaves the status, counters and order of the highest-order observation delivered |
| Lifecycle.ConvergesIffMonotone | pg_llm_batch/db.py:564-632 | a history whose orders are distinct converges under every delivery if and only if it is monotone in observation order |
| LifecycleHistory.RowSummarisesTaken | pg_llm_batch/db.py:564-632 | after any deliveries the row shows, of exactly those it accepted, the last status, order and time, the first time seen, the greatest counters, and the latest present endpoint, file ids and metadata |
| LifecycleHistory.InOrderDeliveriesAreAllTaken | pg_llm_batch/db.py:609-632 | in-order deliveries of a monotone history are all accepted |
| LifecycleHistory.TakenIffLatest | pg_llm_batch/db.py:609-632 | on a monotone history the latest delivery is accepted if and only if its order is above all delivered before it |
| LifecycleHistory.LateObservationIsDropped | pg_llm_batch/db.py:609-609 | an observation of an order no higher than the row's changes nothing, including its optional fields |
| Pollers.ForwardingEffect | pg_llm_batch/durable_client.py:200-224 | for every observation, what is recorded of the forwarded one: nothing without a status, the same with the endpoint absent if it is foreign or holds a NUL, and the same otherwise |
| Pollers.ForwardingPreservesIff | pg_llm_batch/durable_client.py:200-224 | forwarding preserves an observation if and only if it neither loses a missing status nor hides an endpoint that the recorder alone would have refused, the rest being acceptable |
| Pollers.ForwardingWitnesses | pg_llm_batch/db.py:195-212 | an absent and an empty status, a NUL and a foreign endpoint: one failing input of each class |
| Pollers.RowsShowLatestReservation | pg_llm_batch/durable_client.py:117-154 | over every interleaving of reservations and recordings orders are distinct, rows are consistent, and for a monotone provider the row shows the latest reserved answer recorded |
| Assembly.BatchAccumulator.WouldExceed | pg_llm_batch/token_counter.py:408-418 | a non-empty accumulator refuses exactly the rows that would break the token, byte or record limit |
| Assembly.BatchAccumulator.AddEntry | pg_llm_batch/token_counter.py:420-439 | the row is appended and the totals stay those of the entries, or nothing changes and the error says which limit this row alone breaks |
| Assembly.BatchAccumulator.Drain | pg_llm_batch/token_counter.py:441-453 | the payload carries the entries' ids, each with its own line, and their number, tokens and bytes, and the accumulator is empty again |
| Assembly.AssemblePayloads | pg_llm_batch/orchestrator.py:149-198 | the loop returns the greedy parts in order, which carry every row at its place, or the first row that alone breaks a limit |
| Assembly.GreedyIsCutting | pg_llm_batch/orchestrator.py:149-198 | the greedy parts are a cut of the rows into consecutive single-model parts within every limit |
| Assembly.GreedyIsMinimal | pg_llm_batch/orchestrator.py:149-198 | no cut of the rows has fewer parts |
| Assembly.PartsAreFull | pg_llm_batch/orchestrator.py:158-198 | no part could have taken the row that follows it |
| Assembly.CuttableIffNoOversizedRow | pg_llm_batch/token_counter.py:420-439 | the rows can be cut at all if and only if no single row alone breaks the token or byte limit |
| Assembly.AssemblyFailsIffUncuttable | pg_llm_batch/orchestrator.py:149-198 | assembly fails exactly when no cut exists |
| Assembly.IdsOfParts | pg_llm_batch/orchestrator.py:158-198 | the request ids of the payloads concatenate to the ids of the rows, in order |
| Assembly.LinesOfParts | pg_llm_batch/orchestrator.py:158-198 | the lines of the payloads concatenate to the lines of the rows, in order |
| Assembly.PartsCarryRows | pg_llm_batch/orchestrator.py:158-198 | reading the parts in order gives the rows in order: each id stands beside its own row's line, each part counts its rows' tokens and bytes, and the parts' tokens add up to the rows' |
| Assembly.FailureMeans | pg_llm_batch/token_counter.py:420-439 | assembly fails with an error if and only if that is the limit broken by the first row that alone breaks one |
| Assembly.TextBytes | pg_llm_batch/token_counter.py:403-406 | a part's recorded size is the UTF-8 length of its lines, each with its newline |
| Assembly.DocumentBytes | pg_llm_batch/orchestrator.py:328-333 | the text of the document persisted for a part is as long as the part's recorded size |
| Assembly.AssemblyConserves | pg_llm_batch/orchestrator.py:158-198 | request ids and lines concatenate to those of the rows in order, parts are numbered from zero, every limit holds, recorded sizes are the UTF-8 length of the document text persisted, and the number of parts is minimal |
| PayloadDocument.WrittenLoads | pg_llm_batch/orchestrator.py:328-333 | any list of canonical newline-free lines loads back as the text written, and reads as those lines |
| PayloadDocument.LoadedWasWritten | pg_llm_batch/db.py:161-183 | every accepted document is the image of exactly one such list |
| Preparation.Categorize | pg_llm_batch/orchestrator.py:231-246 | rows are split by part index against the file limit, in order |
| Preparation.NumberedPartsAreCut | pg_llm_batch/orchestrator.py:231-246 | for parts numbered from zero the split is a cut: the first parts are ready and the rest overflow |
| PreparationSafety.EveryRunKeepsInv | pg_llm_batch/orchestrator.py:269-435 | the invariant of every interleaving of reads, locks, rechecks, guarded assignments, commits, crashes, inserts and withdrawals |
| PreparationTheorems.FilesAndTotalsAgree | pg_llm_batch/orchestrator.py:320-435 | each committed file's count is the number of requests assigned to it, files are numbered from zero, and a prepared batch's total is the sum over its files and the number of its assigned requests |
| PreparationTheorems.BatchTotal | pg_llm_batch/orchestrator.py:369-435 | the total of a prepared batch counts each of its assigned requests once |
| PreparationTheorems.PreparationIsForever | pg_llm_batch/orchestrator.py:281-435 | a request once assigned stays in its one file, and a prepared batch keeps its files, for the rest of every run |
| PreparationTheorems.AnswerIsCut | pg_llm_batch/orchestrator.py:231-267 | a call that found files answers with them, the first up to the limit ready and the rest overflow |
| PreparationTheorems.RepeatedCallsAgree | pg_llm_batch/orchestrator.py:118-147 | a later call with the same file limit gives the same lists, the batch's committed files, whenever the first found any; the two agree if and only if the first found files or the later one still finds none |
| PreparationTheorems.EveryRunRemembers | pg_llm_batch/orchestrator.py:295-327 | in every run no answer for a batch is empty once an earlier one listed files |
| PreparationTokens.EveryRunAdds | pg_llm_batch/orchestrator.py:352-435 | over every interleaving the parts of each call, the files it has pending and the committed files record the tokens of their requests |
| PreparationTokens.TokenTotalsAgree | pg_llm_batch/orchestrator.py:352-435 | in every reachable state each file's token total is the sum over the requests assigned to it, and a prepared batch's the sum over all its assigned requests |
| PreparationGuards.RecheckAnswersIff | pg_llm_batch/orchestrator.py:295-327 | in every reachable state a call that found the batch prepared is answered with its files if and only if no request of the batch waits; otherwise it fails and frees the lock |
| PreparationGuards.PartIsWrittenIff | pg_llm_batch/orchestrator.py:385-411 | a part is written, with all its requests, if and only if they are distinct and every one still waits; otherwise the call fails as a whole |
| PreparationGuards.OnlyCreationMakesBatches | pg_llm_batch/orchestrator.py:281-292 | no preparation step brings a batch into being, so one that disappeared stays away |
| PreparationGuards.AnswersWereAsked | pg_llm_batch/orchestrator.py:118-147 | every answer of every run is for a batch and a file limit that some call asked for |
| PreparationWitness.EmptyAnswerMayChange | pg_llm_batch/orchestrator.py:118-147 | an empty answer, a request inserted and the same call again: the answers differ |
| PreparationContinuation.SomeContinuationAnswers | pg_llm_batch/orchestrator.py:269-435 | from every reachable state, for every batch and limit, some continuation answers that call with files |
| PreparationContinuation.RunKeepsSound | pg_llm_batch/orchestrator.py:284-292 | in every run a locked batch is locked by a call that is in its transaction |
| Reconciliation.SelectCandidates | pg_llm_batch/reconciliation.py:113-143 | the shortest scan that fills the budget decides: the identities of the scanned candidates in order, each once, an invalid one only if reached, and saturation when the scan limit leaves the budget unfilled |
| Reconciliation.PageFrontIsSelected | pg_llm_batch/reconciliation.py:113-143 | on a page of distinct valid rows the selection is the front of the page |
| Reconciliation.Reconcile | pg_llm_batch/reconciliation.py:150-207 | every candidate is attempted once and reported in order; each outcome is told from the client's replies, failures never hide the others, and the counters are the numbers of candidates downloaded and of those that raised |
| Rotation.PolledIffInFront | pg_llm_batch/reconciliation_store.py:157-178 | exactly the rows in the first m positions of the oldest-first order are polled, m being the smaller of page size and job budget |
| Rotation.UnpolledMovesForward | pg_llm_batch/db.py:604-604 | if polls are accepted with later timestamps, any other row moves forward by exactly m |
| Rotation.FirstPollIsExact | pg_llm_batch/reconciliation_store.py:157-178 | a row at position p is polled in pass p/m + 1 and in none before, for every run |
| SingleFlight.LockPreimageInjective | pg_llm_batch/reconciliation_single_flight.py:79-87 | different identities are digested from different bytes |
| SingleFlight.AbsorbIdentity | pg_llm_batch/reconciliation_single_flight.py:79-87 | the loop feeds the digest the domain and the three length-prefixed parts |
| SingleFlight.MutualExclusion | pg_llm_batch/reconciliation_single_flight.py:121-189 | in every run no two sessions have authority over one identity or over two whose keys collide |
| SingleFlight.EachContextReleasesOnce | pg_llm_batch/reconciliation_single_flight.py:176-189 | over every run each entered context is open with authority and no release attempt, was left with exactly one, or was lost with its session and none |
| SingleFlight.HoldSingleFlight | pg_llm_batch/reconciliation_single_flight.py:158-189 | the context manager over every answer, end of the block and unlock result: exactly one unlock attempt, last, if and only if it was granted, and which error surfaces |
| SingleFlight.ContextEndsOnce | pg_llm_batch/reconciliation_single_flight.py:172-189 | a granted context enters and ends in the shared state with that one attempt, and its session is idle again |
| SingleFlight.LocksAreAccountedFor | pg_llm_batch/reconciliation_single_flight.py:106-134 | over every run, clean or not, a session holds a key exactly as often as it was granted minus its confirmed unlocks since it last lost its connection |
| SingleFlight.ContextsOnlyEnd | pg_llm_batch/reconciliation_single_flight.py:176-189 | a context keeps its session and identity, and once ended it stays as it ended |
| SingleFlight.CleanRunsHoldOnlyOpenKeys | pg_llm_batch/reconciliation_single_flight.py:164-189 | if no answer is lost and no release fails, the locks held are exactly those of the open contexts, once each |
| SingleFlight.DeferredExactlyWhenBusy | pg_llm_batch/reconciliation_single_flight.py:164-176 | then an attempt is deferred if and only if an open context has the same key, so a collision only defers |
| SingleFlight.LostAnswerBlocksUntilSessionEnds | pg_llm_batch/reconciliation_single_flight.py:89-118 | a lock granted without its answer arriving keeps others out, with no context open, until its session ends |
| RequestRetry.CeilingDoubles | pg_llm_batch/batch_api_client.py:361-369 | the backoff ceiling starts at the base delay and doubles up to the maximum |
| RequestRetry.FallbackIsEqualJitter | pg_llm_batch/batch_api_client.py:361-369 | each jittered delay lies in the upper half below its ceiling |
| RequestRetry.DelayForResponse | pg_llm_batch/batch_api_client.py:371-386 | server guidance is obeyed if within the maximum delay, refused beyond it, and replaced by backoff when absent |
| RequestRetry.Request | pg_llm_batch/batch_api_client.py:388-468 | the loop's log is attempts that go on, each followed by its pause, and one attempt that ends the request: the first that may not be followed by another |
| RequestRetry.RetriesExactly | pg_llm_batch/batch_api_client.py:388-468 | a request ends with an attempt if and only if it is the last one allowed, is no GET, meets a TLS fault, or gets a response of a status other than 408, 425, 429, 502, 503 and 504 or with guidance above the maximum delay; so a GET lost to a plain fault is sent again, after the guided or the jittered delay, until the last allowed attempt |
| RequestRetry.RequestIsBounded | pg_llm_batch/batch_api_client.py:388-468 | a GET sends at most the configured times and anything else once, every sleep is the right one and at most the maximum, and nothing follows a hand-off |
| RequestRetry.SleepIsBounded | pg_llm_batch/batch_api_client.py:388-468 | total sleep is at most the maximum delay for each retry |
| RequestRetry.HandedOffExactly | pg_llm_batch/batch_api_client.py:412-431 | the last attempt's response reaches the caller if and only if there is one and its release did not break a retry; only retryable responses were passed over before |
| RequestRetry.RaisingTheLimitOnlyExtends | pg_llm_batch/batch_api_client.py:388-468 | a larger attempt limit changes nothing before the smaller limit's last attempt, and nothing at all if the request ended below it |
| RequestRetry.WaitForBatch | pg_llm_batch/batch_api_client.py:854-871 | waiting ends with the first poll that is terminal or past the deadline, and sleeps the shorter of interval and remaining time in between |
| RequestRetry.FewSleeps | pg_llm_batch/batch_api_client.py:854-871 | there are at most as many sleeps as the timeout over the interval, rounded up |
| RequestRetry.TotalOfSleeps | pg_llm_batch/batch_api_client.py:854-871 | the sleeps asked for add up to at most the timeout |
| RequestRetry.WaitingIsBounded | pg_llm_batch/batch_api_client.py:854-871 | if sleeping advances the clock as asked, there are at most the timeout over the interval, rounded up, plus one polls, the wait ends, and total sleep is at most the timeout |
| RequestRetry.WaitBoundIsReached | pg_llm_batch/batch_api_client.py:854-871 | for every timeout and interval there is a punctual history with exactly that many polls |
| ConfigStore.DecodedIsCanonical | pg_llm_batch/config.py:104-141 | whatever text a key holds, the value read from it is written and read back unchanged |
| ConfigStore.DecodeMeans | pg_llm_batch/config.py:112-141 | what a stored text reads as for each type of default: the four spellings of true and of false, documents of the same type only, the default for what does not parse, texts and undeclared keys verbatim |
| ConfigStore.SplitUndoesJoin | pg_llm_batch/config.py:150-155 | splitting a full key undoes joining exactly for categories without a dot |
| ConfigStore.JoinUndoesSplit | pg_llm_batch/config.py:150-155 | joining undoes splitting exactly for keys with a dot |
| ConfigStore.PostgresConfigStore.constructor | pg_llm_batch/config.py:163-183 | opening adds the missing default rows, keeps the others, and loads every row |
| ConfigStore.PostgresConfigStore.Get | pg_llm_batch/config.py:226-241 | a coherent store answers its row decoded, else the key's default, else the fallback, and stays coherent |
| ConfigStore.PostgresConfigStore.Set | pg_llm_batch/config.py:243-262 | the canonical value goes to the row and to the cache and nothing else changes |
| ConfigStore.SetKeepsCoherenceIff | pg_llm_batch/config.py:243-262 | a set keeps a coherent store coherent if and only if every other cached address with the same full key already held the new value |
| ConfigStore.DottedCategoryGoesStale | pg_llm_batch/config.py:243-262 | a dotted category does leave a stale value |
| ConfigStore.OpeningIsCoherentIff | pg_llm_batch/config.py:215-224 | a newly opened cache is coherent in every row order if and only if every row without a dot matches a `global` row of the same key |
| ConfigStore.CacheIsTransparent | pg_llm_batch/config.py:226-262 | over every run with dotless categories from a coherent store, the cached store gives the answers and the table of one without a cache |
| ConfigStore.FreshStoreAgreesIff | pg_llm_batch/config.py:163-262 | after any run with dotless categories from opening any table, reopening changes no row, and answers as the running store in every row order if and only if no row without a dot disagrees with the `global` row of its key |
| ConfigStore.ReadsLastWrite | pg_llm_batch/config.py:226-262 | a get returns the canonical value last set under its full key, and setting that value again changes no row |
| ConfigStore.OwnKindReadsBack | pg_llm_batch/config.py:104-141 | a value of the default's own type is stored and read back unchanged |

## Left out

- HTTP sessions, URLs, credentials, form upload, request headers: network plumbing.
- JSON, UTF-8, identifier patterns, SHA-256, Fernet, time parsing and number formatting: foreign code; parameters or free constructors here. Identifiers are their UTF-8 bytes with abstract validity predicates.
- The schema, migrations and row-level security policies: the tenant is part of the key only.
- `iter_batch_records` (`pg_llm_batch/result_streaming_checkpoint_impl.py:332-369`): the same line reader without checkpoints.
- `split_oversized_batch` (`pg_llm_batch/token_counter.py:233-262`): the same greedy rule without the byte limit and the model split.
- Token counting: an arbitrary natural number per request, the same whenever it is read; configuration defaults of the limits are not resolved.
- The checkpoint's schema version: a constant of the release, so it distinguishes nothing here.
- Lazy delivery: a file is read to its end before its lines reach the iterator. The source hands each line over as it is cut; a consumer that stops early sees a prefix of the same yields.
- Aborted statements: a database error inside a transaction is a rollback; partial statements do not exist.
- The width of INTEGER and BIGINT counters of lifecycle rows: an overflow would be a database error.
- Provider metadata normalisation and its size limits: metadata is an opaque text that is empty or not.
- Rows of `llm_jsonl_lines` and of the virtual payload table: the document's round trip is proved, its storage and the per-line copies are not modelled.
- File ids are fresh for every written part, as random UUIDs are meant to be.
- The preparation lock is taken on the batch itself; the source masks the batch's UUID to 63 bits, so two batches may share a lock, which only makes calls wait.
- A call of `prepare_batches` that crashes before it opens its transaction is one that takes no further step.
- Exception redaction, bounded error names, logging, coroutine and thread detection in callbacks: an effect returns or raises, before or after it has written.
- The time a status request itself takes is part of the clock readings of a wait; the overflow of a backoff computed in floating point for a very large attempt number is not modelled.
- Copies of mutable configuration values: values here cannot be aliased, which is what the source's copies are for. A single writer is assumed, as is a database that answers.
- The secret store, telemetry, the command line, health server, compose bootstrap, backup, restore and release evidence: field validation and input/output.

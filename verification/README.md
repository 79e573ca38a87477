# Verified models of comet_rag

This project models the parts of comet_rag where shared state, interleaving or
intricate text handling make mistakes easy, and proves what those parts are for.
`dafny verify dfyconfig.toml` checks everything.

- **Durable tasks** (`TaskModels`, `TaskStore`, `TaskProtocol`, `TaskTheorems`, `TaskBudget`,
  `TaskLanes`, `TaskRelay`, `TaskCalls`, `TaskFinality`): one record under any number of executors, sweepers, cancel requests and manual
  retries, all of which work on private copies and reach the row only through load, mutate, save.
  A run is any sequence of steps, a step is the code between two awaits, and a step that is not
  enabled changes nothing, so a statement about all step sequences is one about every interleaving.
- **Concurrency gate** (`Gate`, `GateProtocol`, `GateDecisions`): the locked blocks as methods of a class, and threads
  and coroutines interleaving them with timeouts, cancellations, loop refusals and closed loops.
- **Recursive splitter** (`Strings`, `Pieces`, `Windows`, `Chunking`, `Splitter`): spans over arbitrary text, and the
  greedy windows that determine them.
- **Re-ingest** (`VectorStore`, `Ingestion`, `IngestProtocol`): windowed overwrite and tail delete.
- **Loader monitors** (`LoaderMonitor`, `S3LoaderProtocol`, `HttpLoaderProtocol`).
- **Nested lists** (`ListTree`, `ListParser`, `ListLaws`): a stack over mutable blocks, proved against trees.
- **Markdown normaliser** (`Markdown`, `MarkdownBlanks`, `CommonMark`), **rank fusion** (`Fusion`, `FusionLaws`),
  **degradation** (`Degradation`, `DegradationRuns`).

Code that updates fields or runs loops is a class or a method with loops, proved against functions
on values; the theorems about runs are lemmas about those functions.

What the proofs found out about the code:

- The fence `_still_mine` and the write after it are two calls. A hand-over that is decided before a
  sweep and written after the next claim lands on the other worker's attempt and takes it back from
  the attempt count, so the task can get more tries than its budget
  (`TaskBudget.LateHandOverEscapesBudget`; it holds exactly when `TaskBudget.BudgetHoldsIff` says).
- In the same way a late hand-over, or a late retry, reopens a task that a sweep has declared failed, so
  FAILED does not wait for a human (`TaskFinality.LateHandOverReopensFailed`; exactly then or by a manual
  retry: `TaskFinality.FailedLeftIff`).
- A retriable failure while a cancel is pending changes nothing, and only the sweep ends the task
  (`TaskCalls.FailureWhileCancelling`).
- `URLLoader._abegin_activity` undoes a cancelled entry after a second await. A second cancellation
  there, once the helper thread has started, loses the registration, and no later cleanup gets past its wait
  (`HttpLoaderProtocol.TwiceCancelledLeaks`, `LeakBlocksCleanup`; exactly then: `LostIffUndoCancelled`).
- The Markdown normaliser is not idempotent on a line that is a fence behind a leading no-break space
  (`Markdown.HiddenFenceInText`; exactly when it is: `Markdown.IdempotentIffSettled`).
- Its fences differ from section 4.5 of CommonMark 0.31 in two ways and no other: a fence also closes on a
  line with other white space behind the marker, and the info string of a backtick fence may hold backticks
  (`CommonMark.ClosesIff`, `CommonMark.OpensIff`).
- No stage is skipped even when stage names repeat: `list.index` finds the first position, which is
  never behind the right one.

## Model

| member | source | states |
|---|---|---|
| TaskModels.MutateKeepsRecordOk | comet_rag/tasks/store.py:215-250 | A legal mutation keeps the record's shape: finished exactly when terminal, no worker while queued, all stage records but the last closed, closed ones untouched; it moves along the table, and only `transition` changes the status |
| TaskModels.MutateIgnoresHeartbeat | comet_rag/tasks/store.py:261-267 | No mutation reads the heartbeat, so writes without a new version cannot change the outcome of others |
| TaskStore.InMemoryTaskStore.Insert | comet_rag/tasks/store_memory.py:37-47 | Idempotent insert: it creates exactly when no stored row has the same kind and non-empty key, otherwise it hands back such a row and changes nothing; a key never names two rows |
| TaskStore.InMemoryTaskStore.Load | comet_rag/tasks/store_memory.py:49-52 | A load returns the row, or nothing when there is none |
| TaskStore.InMemoryTaskStore.Save | comet_rag/tasks/store_memory.py:54-67 | The row is replaced if and only if it exists and has the expected version; otherwise nothing changes and the error says which it was |
| TaskStore.InMemoryTaskStore.Cas | comet_rag/tasks/store.py:150-176 | With other writers at every await, a call that returns has applied its mutation to the row as it is at the commit; a call that raises has written nothing, and its error is true of the row: gone, illegal there, of another version than the pinned one, or, without a pin, five foreign version bumps on |
| TaskProtocol.CommitIsAtomic | comet_rag/tasks/store.py:150-176 | In the interleaved system every save that goes through has the effect of its mutation on the current row, up to the heartbeat |
| TaskProtocol.CommitIsLater | comet_rag/tasks/store_memory.py:54-67 | A commit never lowers the version, and keeps it only by changing nothing but the heartbeat |
| TaskProtocol.StepKeepsSnapshots | comet_rag/tasks/store.py:150-176 | Every private copy of every process stays either older than the row or equal to it up to the heartbeat |
| TaskTheorems.NoLostUpdate | comet_rag/tasks/store.py:150-176 | After any run the row at version n is the fold of its n version-bumping mutations in commit order, each legal where it was applied, heartbeat excepted |
| TaskTheorems.StepOnRecord | comet_rag/tasks/store.py:215-250 | One step of any process moves the status along the table, keeps the record's shape and keeps closed stage records |
| TaskTheorems.RecordAlwaysOk | comet_rag/tasks/store.py:215-250 | In every run the record is terminal exactly when it has a finish time, has no worker while queued, and has only its last stage record open |
| TaskTheorems.StatusesFollowTheTable | comet_rag/tasks/states.py:7-33 | The committed statuses of any run form a path in the transition table |
| TaskTheorems.HistoryIsFinal | comet_rag/tasks/store.py:376-395 | Between any two moments of a run success and cancellation are absorbing, closed stage records neither change nor vanish, and the version does not fall |
| TaskTheorems.ClaimTakesPending | comet_rag/tasks/executor.py:97-124 | A claim that goes through finds the row queued and leaves it running, owned by the claimer, with one attempt more |
| TaskTheorems.ClaimsAreExclusive | comet_rag/tasks/executor.py:97-124 | Between two claims that go through there is a commit that put the task back into the queue, for any number of racing executors and heartbeats |
| TaskTheorems.RunIsSkipFree | comet_rag/tasks/runner.py:227-248 | Invariant of every run: the resume anchor, the recorded stage and every worker's position have only completed stages ahead of them |
| TaskTheorems.CompletedOnlyByBody | comet_rag/tasks/runner.py:227-248 | A stage counts as completed only because some worker returned from its body earlier in the run |
| TaskTheorems.NoStageSkipped | comet_rag/tasks/runner.py:227-248 | Under claims, failures, crashes, reclaims, hand-overs, stale workers and retries a stage body is entered only after each earlier stage's body has returned at least once; stage names need not be distinct |
| TaskCalls.MoveWrites | comet_rag/tasks/store.py:215-250 | Every field of the record after a transition: which status closes the last stage record and as what, when the worker, the finish time and the heartbeat go, and when the resume anchor is filled in |
| TaskCalls.OthersDoNotMatter | comet_rag/tasks/store.py:150-176 | In any run in which nobody else writes to the row, the record and the process end up as if the process had run alone, so the laws of single operations hold in between the reads and quiet steps of others |
| TaskCalls.FailureDecides | comet_rag/tasks/executor.py:244-277 | A worker that owns the running row and whose runner raises: the task is queued again if and only if the error is retriable and an attempt is left, else it has failed; either way with the error, the stage it was in as anchor, and its open stage record closed as failed |
| TaskCalls.FailureDecidesAfterAnyRun | comet_rag/tasks/executor.py:244-277 | The same at the end of any run of executors, sweepers, cancel requests and retries from a fresh task |
| TaskCalls.FailureWhileCancelling | comet_rag/tasks/executor.py:244-277 | While the task is being cancelled a retriable failure with an attempt left changes nothing; any other failure ends the task |
| TaskCalls.StaleWorkerWritesNothing | comet_rag/tasks/executor.py:146-159 | A worker that claimed and no longer owns the row writes nothing, whether it finished, hands over, failed or was cancelled |
| TaskCalls.UnknownKindFails | comet_rag/tasks/executor.py:100-100 | A queued task of a kind without a runner fails for good, without costing an attempt |
| TaskCalls.ClaimTakes | comet_rag/tasks/executor.py:97-124 | The whole record after a claim: running, owned, one attempt more, the last error forgotten, anchor, history and context as they were |
| TaskCalls.NothingToClaim | comet_rag/tasks/executor.py:97-99 | A task that is not queued cannot be claimed |
| TaskCalls.StageBegins | comet_rag/tasks/runner.py:235-243 | At the top of the loop a worker that may run stage i goes into its body with the stage recorded, progress i/n, the stage before closed as succeeded and the new one open |
| TaskCalls.CheckpointRenews | comet_rag/tasks/runner.py:98-111 | A due checkpoint renews the heartbeat and nothing else |
| TaskCalls.CheckpointCancels | comet_rag/tasks/runner.py:98-111 | A task that is being cancelled is stopped at the checkpoint of the next stage the worker may run, its open stage closed as cancelled |
| TaskCalls.BodyWrites | comet_rag/tasks/runner.py:123-140 | A stage body writes its context, progress and message and nothing else |
| TaskCalls.CancelMarks | comet_rag/tasks/executor.py:228-242 | A cancelled worker leaves a queued or cancelling task cancelled; a running or ended one stays as it is |
| TaskCalls.InterruptSettles | comet_rag/tasks/executor.py:135-140 | The same for a coroutine that is cancelled anywhere inside the executor |
| TaskCalls.InterruptedAfterLosingTheRow | comet_rag/tasks/executor.py:94-137 | After losing the row a cancelled worker writes nothing, unless the answer to its claim was lost: then no fence stops it from marking a cancelling task cancelled |
| TaskCalls.StrayCancelWritesNothing | comet_rag/tasks/executor.py:384-388 | A coroutine cancelled before it reaches the executor writes nothing to a row it does not own |
| TaskCalls.SuccessSettles | comet_rag/tasks/executor.py:178-198 | A finished worker that owns the row leaves the task succeeded with its result, no anchor and full progress, even if a cancel was asked for |
| TaskCalls.HandOverSettles | comet_rag/tasks/executor.py:200-218 | A hand-over queues the task at the foreign stage, without a worker, and gives the attempt back; a task that is no longer running stays as it is |
| TaskCalls.LoopEnds | comet_rag/tasks/runner.py:235-248 | The loop ends with a result exactly behind the last stage, and with a hand-over exactly at a stage of another lane |
| TaskCalls.LastStageSucceeds | comet_rag/tasks/runner.py:227-248 | When the last body returns the task succeeds with the result at the end |
| TaskCalls.EarlyResultSucceeds | comet_rag/tasks/runner.py:243-244 | A body that returns the final result ends the task there |
| TaskCalls.NextStageBegins | comet_rag/tasks/runner.py:227-248 | When a body in the middle returns the next stage begins |
| TaskCalls.CancelRequest | comet_rag/tasks/executor.py:281-304 | A cancel request stops a queued task at once, asks a running one to stop, and leaves any other alone |
| TaskCalls.SweepDecides | comet_rag/tasks/store.py:307-339 | A swept running task is queued if and only if an attempt is left, else failed, with the lease error and an anchor that is kept or set to its stage; a cancelling one is cancelled; no other is touched |
| TaskCalls.RetryReopens | comet_rag/tasks/service.py:141-162 | A manual retry reopens failed tasks only; it keeps context, history and the place to resume at, except from scratch |
| TaskCalls.LostRace | comet_rag/tasks/store.py:164-176 | A save that finds a newer row writes nothing: a claim gives up at once, any other call after its fifth lost race in a row; inside the executor's try block that ends as a failure of the task |
| TaskCalls.AttemptStarts | comet_rag/tasks/runner.py:227-233 | A new worker starts at the first stage bearing the anchor's name, or at the first of all |
| TaskCalls.FailureResumesAtItsStage | comet_rag/tasks/executor.py:252-277 | A stage fails and can be retried: the next attempt starts at that very stage, under the new worker, one attempt on, with the same context |
| TaskCalls.RetryResumesAtItsStage | comet_rag/tasks/service.py:144-150 | The same after a final failure and a manual retry; a retry from scratch starts at the first stage |
| TaskFinality.FailedLeftIff | comet_rag/tasks/states.py:7-33 | In any run a failed task leaves FAILED if and only if a manual retry commits or a late hand-over, retry or sweep that was decided before the failure does |
| TaskFinality.FailedWaitsForHuman | comet_rag/tasks/executor.py:200-218 | When every move into the queue lands on the version it was decided on, only a manual retry reopens a failed task |
| TaskFinality.LateHandOverReopensFailed | comet_rag/tasks/executor.py:208-218 | A concrete run in which a hand-over decided before a sweep reopens a task that the sweep declared failed |
| TaskBudget.CommitEffect | comet_rag/tasks/executor.py:109-117 | What a commit does to attempts, status and budget, and that a claim counts on from the attempts it read |
| TaskBudget.CommitKeepsBudgetIff | comet_rag/tasks/executor.py:208-218 | A commit keeps the retry budget if and only if the attempts its decision was based on are still true of the row (for a move back into the queue: one is still left) |
| TaskBudget.BudgetHolds | comet_rag/tasks/executor.py:257-277 | When check and write land on one version and retries reset: attempts are claims minus hand-overs since the last retry, a queued task has an attempt left, an active one is on attempt 1 to max |
| TaskBudget.BudgetHoldsIff | comet_rag/tasks/executor.py:257-277 | In any run in which retries reset, the budget holds at every moment if and only if every committed decision was based on attempts that are still true of the row |
| TaskBudget.LateHandOverEscapesBudget | comet_rag/tasks/executor.py:208-218 | A concrete run in which a late hand-over of a reclaimed worker lands on the next worker's attempt, after which a task with a budget of two is claimed four times with one hand-over, three tries without a human |
| TaskLanes.StepStands | comet_rag/tasks/runner.py:227-248 | Invariant of every failure-free step: at most one worker is past its claim and owns the running row, its place in the code and the resume anchor agree with the number of stages done, and the attempts are fixed by the status |
| TaskLanes.StagesInOrder | comet_rag/tasks/executor.py:200-226 | Every failure-free run, with any workers, lanes, claims, heartbeats and reports interleaved, executes consecutive stages, each once and in order; a task that has succeeded is one attempt on and has all stages done, unless a stage body ended the pipeline itself |
| TaskLanes.LaneRefinement | comet_rag/tasks/runner.py:227-248 | Any failure-free run that succeeds, over any lanes, executes the same stages in the same order as any that succeeds with workers without lanes, and costs the same single attempt; the latter never hands over |
| TaskLanes.LanelessRun | comet_rag/tasks/runner.py:235-239 | Workers without a lane never hand over in a failure-free run |
| TaskLanes.HandOversBounded | comet_rag/tasks/executor.py:200-226 | When every claim after a hand-over is won by a worker that may run the waiting stage, a failure-free run with n stages to go has at most n hand-overs at any moment |
| TaskRelay.SplitCanFinish | comet_rag/tasks/executor.py:167-175 | Such runs exist: workers of given lanes, one more than stages to go and each matching the hand-over before it, can bring any queued task to success |
| Gate.WithoutFrom | comet_rag/core/concurrency.py:186-209 | Removing a waiter takes out its first occurrence and leaves the others in order |
| Gate.Gate.TryTake | comet_rag/core/concurrency.py:171-184 | The locked block of an acquire is the arrival step of the protocol; who gets in, waits or is refused is `GateDecisions.ArrivalDecided` |
| Gate.Gate.Abandon | comet_rag/core/concurrency.py:186-209 | The locked block of giving up: the answer is whether a permit was already handed over; only timeouts count as rejected |
| Gate.Gate.Release | comet_rag/core/concurrency.py:266-285 | The locked block of a release: the permit goes to the first waiter that can be woken, skipping the others, else back to the pool |
| GateProtocol.GrantKeepsOrder | comet_rag/core/concurrency.py:266-285 | Granting the first wakeable waiter keeps admissions in arrival order ahead of everybody still queued |
| GateProtocol.RunKeepsInv | comet_rag/core/concurrency.py:171-285 | In every interleaving: in flight plus available is the limit; in flight are the callers that hold, have been granted or must return a permit; admitted is in flight plus releases; rejected is refusals plus timeouts; a free permit means an empty queue; the queue is bounded and in arrival order |
| GateProtocol.NoPermitLeaks | comet_rag/core/concurrency.py:213-264 | Whenever nobody holds a permit all of them are available again, after any timeouts, cancellations and refusals |
| GateProtocol.QueuedMeansSaturated | comet_rag/core/concurrency.py:171-184 | While anybody is queued exactly `limit` permits are out |
| GateProtocol.NoOvertaking | comet_rag/core/concurrency.py:266-285 | A queued caller that can be woken and does not give up is admitted before every caller that arrived after it |
| GateDecisions.ArrivalDecided | comet_rag/core/concurrency.py:171-184 | In every reachable state a newcomer gets in if and only if fewer than `limit` callers hold a permit, is refused if and only if all permits are out and a bounded waiting room holds `max_waiting` callers, and otherwise queues up last; nobody else moves |
| GateDecisions.ReleaseWakesNext | comet_rag/core/concurrency.py:266-285 | A release grants its permit to the earliest queued caller whose loop is open, skips exactly the closed ones ahead of it, and frees the permit if and only if there is none |
| GateDecisions.TimeoutDecided | comet_rag/core/concurrency.py:213-249 | A timed-out caller leaves, or must give back the permit handed over just before; either way one rejection is counted |
| GateDecisions.CancelDecided | comet_rag/core/concurrency.py:186-264 | The same for a cancelled coroutine and for a caller refused on an event loop, which are not rejections |
| GateDecisions.ClosedAreCoroutines | comet_rag/core/concurrency.py:266-285 | Only coroutines ever stop for good because their loop was closed |
| GateDecisions.PeaksAreMaxima | comet_rag/core/concurrency.py:152-155 | The reported peaks are the largest number of permits out and of callers queued at any moment of the run |
| Strings.JoinSplit | comet_rag/engines/chunkers/base_chunker.py:190-226 | Joining the parts of a split with the separator gives the text back |
| Strings.SplitIsLeftmost | comet_rag/engines/chunkers/base_chunker.py:190-226 | No part of a split holds the separator, and each cut is at the leftmost separator that is left |
| Strings.SplitIsUnique | comet_rag/engines/chunkers/base_chunker.py:190-226 | Only the split has that property and joins to the text |
| Windows.GreedyIsUnique | comet_rag/engines/chunkers/base_chunker.py:248-286 | Pieces, sizes and overlap leave only one row of windows in which each is filled as far as it goes and the next reaches back as far as it may |
| Pieces.ChoiceIsFirst | comet_rag/engines/chunkers/base_chunker.py:145-156 | The chosen separator is the first of the hierarchy that is empty or occurs, with those behind it still to come; if there is none, the last one |
| Chunking.CoversAppend | comet_rag/engines/chunkers/base_chunker.py:164-182 | Chunkings of two texts side by side, with a separator or nothing between, chunk the joined text |
| Chunking.PendingEmits | comet_rag/engines/chunkers/base_chunker.py:258-273 | Emitting the window and opening the next one keeps what was read covered |
| Chunking.NoSeparatorsNoGap | comet_rag/engines/chunkers/base_chunker.py:123-132 | A chunking in which no separator may be lost starts at 0, ends at the end, advances at both ends and has no gap |
| Chunking.NoOverlapRejoins | comet_rag/engines/chunkers/base_chunker.py:123-132 | With overlap 0 such chunks concatenate to the text |
| Splitter.Splitter.PiecesLoseNothing | comet_rag/engines/chunkers/base_chunker.py:184-226 | In both separator placements the pieces of one level concatenate to the text and none is empty |
| Splitter.Splitter.PiecesPlaced | comet_rag/engines/chunkers/base_chunker.py:193-224 | Kept separators stand at the start or at the end of the pieces as configured, and a piece holds one text and its separators and no more |
| Splitter.Splitter.ChooseSeparator | comet_rag/engines/chunkers/base_chunker.py:145-156 | The first separator of the hierarchy that is empty or occurs, and the ones behind it; else the last one and nothing |
| Splitter.Splitter.SplitTextWithSeparator | comet_rag/engines/chunkers/base_chunker.py:184-226 | The loops that build the pieces compute the pieces of the specification |
| Splitter.Splitter.ShrinkWindow | comet_rag/engines/chunkers/base_chunker.py:262-273 | After shrinking, the running total is the joined length of the window, which respects the overlap and leaves room for the next piece; an overfull window loses at least one piece, and none is dropped that could have stayed |
| Splitter.Splitter.TakePiece | comet_rag/engines/chunkers/base_chunker.py:248-280 | One turn of the merge loop keeps: total is the joined length of the window, the window fits, chunks have length 1 to chunk_size, chunks and window cover what was read, no piece was cut, finished windows and the open one are greedy |
| Splitter.Splitter.MergeSplits | comet_rag/engines/chunkers/base_chunker.py:238-286 | The chunks are the joined greedy windows: a chunk ends only where the next piece no longer fits, and the next one starts at the earliest piece from which what is kept respects the overlap and leaves room; they cover the joined pieces, lose only separators and keep every piece whole |
| Splitter.Splitter.SplitByCharacters | comet_rag/engines/chunkers/base_chunker.py:228-236 | The last resort cuts the text into stretches of exactly chunk_size but the last, which concatenate to it |
| Splitter.Splitter.SplitByHierarchy | comet_rag/engines/chunkers/base_chunker.py:134-182 | One level of the recursion and all below it: sizes, covering, every piece of this level that fits is in one chunk, runs of fitting pieces are merged greedily and longer pieces split at the next separator; it terminates on the separator list |
| Splitter.Splitter.SplitText | comet_rag/engines/chunkers/base_chunker.py:123-132 | For any text and both modes: the chunks are the split of the text at the hierarchy, of which there is only one; their lengths are 1 to chunk_size; with separators kept an exact covering with overlap at most chunk_overlap; without, only separators of the hierarchy are left out; a text that fits is one chunk |
| Splitter.Splitter.SplitIsUnique | comet_rag/engines/chunkers/base_chunker.py:134-182 | Text, hierarchy, sizes and modes determine the chunks: greedy merges of the fitting pieces, even cuts or deeper splits of the others |
| VectorStore.InMemoryVectorStore.EnsureCollection | comet_rag/infrastructure/persistence/vector_store/memory.py:102-111 | A collection is created once; a non-positive or different dimension is refused without a change |
| VectorStore.InMemoryVectorStore.Upsert | comet_rag/infrastructure/persistence/vector_store/memory.py:113-129 | All of the batch is stored, a later record of an id over an earlier one, and other ids keep theirs; or, on a missing collection or a wrong dimension, nothing |
| VectorStore.InMemoryVectorStore.Delete | comet_rag/infrastructure/persistence/vector_store/memory.py:190-210 | Exactly the records named by ids and filter go, and the answer is how many; without either nothing is deleted |
| VectorStore.InMemoryVectorStore.Count | comet_rag/infrastructure/persistence/vector_store/memory.py:216-223 | The loop counts the records that match the filter |
| Ingestion.CountIsPrefix | comet_rag/services/ingestion.py:292-294 | Counting by source is the length of the stored prefix, which is what the stale tail is computed from |
| Ingestion.WindowKeepsInFlight | comet_rag/services/ingestion.py:311-326 | Writing the next window keeps the positions a prefix no shorter than before, puts that window's new chunks in place and touches no other source |
| Ingestion.TailLeavesExactly | comet_rag/services/ingestion.py:249-261 | Dropping the stale tail after all windows leaves exactly the new version |
| Ingestion.IndexedKeeps | comet_rag/services/ingestion.py:263-335 | However an ingest ends, only this source's records of this collection differ, the source is stored without a gap, and success stores exactly the new version |
| Ingestion.UndisturbedDoneIff | comet_rag/services/ingestion.py:287-331 | An undisturbed ingest succeeds if and only if the dimension is positive, the collection has it, and so has every embedding |
| Ingestion.IndexedReadsBack | comet_rag/services/ingestion.py:315-335 | After a successful ingest, for every position the stored record has that chunk's text, its embedding, the number of chunks and the document's metadata; the texts in order are the document, and as many records as chunks bear its source |
| Ingestion.RerunEqualsUndisturbed | comet_rag/services/ingestion.py:263-335 | For every store and every fault point: running an ingest again, whatever became of the first, succeeds exactly when a single undisturbed ingest would and leaves the same store, whatever the window sizes |
| Ingestion.IngestRunner.WriteAll | comet_rag/services/ingestion.py:308-331 | The window loop writes all chunks or stops at a window boundary with a gap-free mixture of new chunks and old tail |
| Ingestion.IngestRunner.Index | comet_rag/services/ingestion.py:263-335 | The method computes the ingest function these results are about. Success stores exactly the new chunks 0..N-1 of the source and leaves everything else alone; any other outcome leaves a prefix not shorter than the old one |
| Ingestion.IngestRunner.DropStaleTail | comet_rag/services/ingestion.py:249-261 | Exactly the positions from the new length to the old one are deleted |
| IngestProtocol.AlwaysGapFree | comet_rag/services/ingestion.py:263-335 | With ingests of many sources interleaved, one at a time per source, each of them abandoned anywhere, every source is stored as 0..m-1 at every moment |
| IngestProtocol.FinishStep | comet_rag/services/ingestion.py:249-261 | Ending a fully written ingest leaves exactly its document, whatever the others are doing |
| IngestProtocol.NeverShorterBeforeTheEnd | comet_rag/services/ingestion.py:333-335 | No step shortens a source except the end of an ingest of it with all new chunks in place |
| IngestProtocol.LastFinishDecides | comet_rag/services/ingestion.py:308-335 | In any interleaved run, whatever was begun, written and abandoned before, a finished ingest leaves exactly its document for its source until the next write to that source |
| IngestProtocol.InterruptionsLeaveNoTrace | comet_rag/services/ingestion.py:308-335 | Two runs in which the same document was finished last store the same of its source, however often either was interrupted |
| IngestProtocol.FinishedReadsBack | comet_rag/services/ingestion.py:308-335 | In an interleaved run a document that was finished last reads back, until the next write to its source |
| IngestProtocol.UndisturbedIngest | comet_rag/services/ingestion.py:263-335 | Begun while no other ingest of its source runs, an ingest that is left alone ends with the document stored and other sources untouched, whatever was there before |
| IngestProtocol.EmptyStoreIsGapFree | comet_rag/infrastructure/persistence/vector_store/memory.py:83-90 | The empty store satisfies the invariant, so it holds of every run from there |
| LoaderMonitor.Monitor.TryBeginActivity | comet_rag/infrastructure/sources/s3.py:206-215 | The locked turn of entering a load is the step that threads and coroutines take in both protocols; what its answer means is S3LoaderProtocol.AnswersAreRight |
| LoaderMonitor.Monitor.EndActivity | comet_rag/infrastructure/sources/s3.py:250-255 | The last load to end notifies every registered waiter |
| LoaderMonitor.Monitor.TryOwnCleanup | comet_rag/infrastructure/sources/s3.py:271-281 | The locked turn of claiming the cleanup is the step that both protocols take; what its answer means is S3LoaderProtocol.AnswersAreRight |
| LoaderMonitor.Monitor.TryDrain | comet_rag/infrastructure/sources/s3.py:283-288 | The locked turn of the owner's wait is the step that both protocols take; what its answer means is S3LoaderProtocol.AnswersAreRight |
| LoaderMonitor.Monitor.Discard | comet_rag/infrastructure/sources/s3.py:222-227 | Leaving an await takes the future out of the registry, as a woken or cancelled coroutine does in the protocol |
| LoaderMonitor.Monitor.ReleaseCleanup | comet_rag/infrastructure/sources/s3.py:265-269 | Giving the cleanup back lowers the flag and notifies everybody |
| S3LoaderProtocol.RunKeepsInv | comet_rag/infrastructure/sources/s3.py:190-292 | Across threads and coroutines with cancellation at any wait: the counter is the number of loads between begin and end, the flag is up exactly while one task owns the cleanup, nothing loads in its critical section, no waiter stays registered once the flag is down |
| S3LoaderProtocol.AnswersAreRight | comet_rag/infrastructure/sources/s3.py:206-292 | In every reachable state a load begins and a cleanup is claimed if and only if no task owns the cleanup, and the owner goes on if and only if no task is between begin and end of a load |
| S3LoaderProtocol.CleanupIsAlone | comet_rag/infrastructure/sources/s3.py:257-292 | While one cleanup is in its critical section no load is active and no other task owns the cleanup |
| S3LoaderProtocol.CancelledOwnerGivesBack | comet_rag/infrastructure/sources/s3.py:283-292 | An owner cancelled while it waits for the loads keeps the flag up until its own next turn, which no step can prevent and which lowers the flag and notifies every waiter |
| S3LoaderProtocol.NoOwnerMeansOpen | comet_rag/infrastructure/sources/s3.py:289-292 | When no task owns the cleanup, cancelled owners included, the flag is down and nobody is left registered |
| S3LoaderProtocol.NeverStuck | comet_rag/infrastructure/sources/s3.py:206-292 | In every reachable state with a task that is not idle, some task can move |
| S3LoaderProtocol.PurposeIsKept | comet_rag/infrastructure/sources/s3.py:206-292 | A task goes on with what it wants through every wait and wake-up, and stops only at the end of its load or cleanup or when it is cancelled |
| HttpLoaderProtocol.RunKeepsInv | comet_rag/infrastructure/sources/http.py:148-185 | With loads entered through helper threads and cancelled anywhere, the counter is the number of registrations not yet undone and the cleanup has one owner |
| HttpLoaderProtocol.CleanupIsAlone | comet_rag/infrastructure/sources/http.py:174-185 | No load and no other cleanup runs beside a cleanup, whatever was cancelled |
| HttpLoaderProtocol.LostIffUndoCancelled | comet_rag/infrastructure/sources/http.py:148-160 | A registration is lost if and only if a coroutine is cancelled a second time while it undoes its entry and the helper thread has started; a job that is still queued is dropped and loses nothing |
| HttpLoaderProtocol.LeakBlocksCleanup | comet_rag/infrastructure/sources/http.py:174-180 | After a lost registration no cleanup is ever reached again |
| HttpLoaderProtocol.TwiceCancelledLeaks | comet_rag/infrastructure/sources/http.py:148-160 | A concrete run in which two cancellations of one coroutine leave one active load for ever |
| HttpLoaderProtocol.NeverStuckUnlessLost | comet_rag/infrastructure/sources/http.py:148-185 | As long as no registration is lost some task can move in every reachable state with a task that is not idle |
| ListTree.AppendAtLeaves | comet_rag/engines/documents/docx/parser.py:854-876 | Appending anywhere on the rightmost spine appends to the reading order |
| ListTree.PrintsEveryLeaf | comet_rag/engines/documents/docx/cleaner.py:328-348 | The printer writes one line entry per leaf, in reading order, and nothing else |
| ListParser.ApplyAdds | comet_rag/engines/documents/docx/parser.py:832-876 | Adding an item appends it to the leaves and keeps the stack a part of the rightmost spine, for any list ids and levels |
| ListParser.NothingLostOrReordered | comet_rag/engines/documents/docx/parser.py:832-881 | For any sequence of items and closes the leaves of the list blocks are the added items in order, and the printed text has one entry for each |
| ListParser.StackIsRightSpine | comet_rag/engines/documents/docx/parser.py:854-876 | In the heap, when the tree's spine is as long as the stack, the stack is exactly the blocks reached from its bottom through last entries |
| ListParser.WholeSpineAlways | comet_rag/engines/documents/docx/parser.py:832-881 | After any sequence of items and closes the open stack is the whole rightmost spine of the last list block |
| ListParser.AppendKeepsAgreement | comet_rag/engines/documents/docx/parser.py:862-876 | Writing one entry into the block on top of the stack keeps every block in agreement with its tree, and changes the trees of the stack blocks only |
| ListParser.ListBuilder.CloseList | comet_rag/engines/documents/docx/parser.py:878-881 | Closing empties the stack and leaves the blocks alone |
| ListParser.ListBuilder.PopTo | comet_rag/engines/documents/docx/parser.py:868-870 | The loop pops the blocks deeper than the level and never the last one |
| ListParser.ListBuilder.OpenChild | comet_rag/engines/documents/docx/parser.py:854-865 | A deeper item opens a list inside the block on top of the stack and is pushed |
| ListParser.ListBuilder.AddListItem | comet_rag/engines/documents/docx/parser.py:832-876 | The in-place update of the nested blocks is the specified operation on their trees |
| ListParser.Build | comet_rag/engines/documents/docx/parser.py:832-881 | Any sequence of items and closes on a fresh builder ends in the specified list blocks, with the stack equal to the right spine of the last one |
| ListParser.ListToText | comet_rag/engines/documents/docx/cleaner.py:328-348 | The recursive printer over the heap prints what the specification prints of the block's tree |
| ListLaws.ItemLands | comet_rag/engines/documents/docx/parser.py:832-876 | Where an item goes: into a new block, a list one deeper, its list, or back to the deepest open list that is not deeper than its level, if any; the stack is then as deep as that list |
| ListLaws.ItemIsPrintedLast | comet_rag/engines/documents/docx/cleaner.py:328-348 | In the printed block the new item is the last line, indented by its depth, with a dash or with its number in its list |
| ListLaws.DecimalReadsBack | comet_rag/engines/documents/docx/cleaner.py:346-346 | Numbers are printed in decimal: reading the digits gives the number back, without leading zeros |
| ListLaws.IndentIsSpaces | comet_rag/engines/documents/docx/cleaner.py:340-340 | The indentation is two spaces per level |
| Markdown.NormalizeLines | comet_rag/engines/documents/normalization/markdown.py:37-73 | The line loop with its fence variables computes the normalised text of the specification |
| Markdown.FixedIffNormal | comet_rag/engines/documents/normalization/markdown.py:37-73 | The normaliser leaves a text alone if and only if it is normal: outside fences clean lines, no two blank lines in a row and none at the start, and no blank line at the end |
| Markdown.NormalLinesAreNormal | comet_rag/engines/documents/normalization/markdown.py:37-73 | Its result is normal whenever no no-break space hides a fence |
| Markdown.IdempotentIffSettled | comet_rag/engines/documents/normalization/markdown.py:37-73 | Normalising twice is normalising once if and only if, in the input, every line that lies in a fence for the first pass but not for the second is clean and no second blank line in a row, the blank end excepted |
| Markdown.Idempotent | comet_rag/engines/documents/normalization/markdown.py:37-73 | Idempotence for every text in which no line turns into a fence when its no-break spaces become spaces |
| Markdown.IdempotentWithoutNbsp | comet_rag/engines/documents/normalization/markdown.py:37-73 | Idempotence for every text without no-break spaces |
| Markdown.FenceIsVerbatim | comet_rag/engines/documents/normalization/markdown.py:47-64 | The interior and the closing line of every closed fence come out verbatim, behind the output of what precedes them |
| Markdown.WordsSurvive | comet_rag/engines/documents/normalization/markdown.py:37-73 | No line of text is lost, added, moved or changed beyond trailing white space and no-break spaces, for all texts |
| MarkdownBlanks.BlankRunCollapses | comet_rag/engines/documents/normalization/markdown.py:66-72 | Outside fences a run of lines of nothing but spaces, tabs and no-break spaces becomes one blank line behind text and vanishes in front of all text |
| MarkdownBlanks.ParagraphsStayApart | comet_rag/engines/documents/normalization/markdown.py:57-69 | Two lines of text with blank lines between them come out cleaned with exactly one blank line between them, and next to each other if there was none |
| Markdown.HiddenFence | comet_rag/engines/documents/normalization/markdown.py:57-62 | Concrete lines on which a second pass changes the result, because the first pass turned a no-break space into the indentation of a fence |
| Markdown.HiddenFenceInText | comet_rag/engines/documents/normalization/markdown.py:57-62 | The same on the text made of these lines: the second pass changes it, and the condition on the input fails |
| CommonMark.OpensIff | comet_rag/engines/documents/normalization/markdown.py:8-8 | The normaliser opens a fence exactly where section 4.5 of CommonMark 0.31 does and, besides, where the info string behind backticks holds a backtick |
| CommonMark.ClosesIff | comet_rag/engines/documents/normalization/markdown.py:47-55 | It closes a fence exactly where that section does and, besides, where the marker is followed by white space other than spaces and tabs |
| CommonMark.BacktickInInfoOpens | comet_rag/engines/documents/normalization/markdown.py:8-8 | A line that opens a fence for the normaliser only |
| CommonMark.NoBreakSpaceCloses | comet_rag/engines/documents/normalization/markdown.py:47-55 | A line that closes a fence for the normaliser only |
| Markdown.SplitJoin | comet_rag/engines/documents/normalization/markdown.py:73-73 | Splitting the joined lines gives the lines back |
| Fusion.RankOf | comet_rag/engines/retrieval/fusion.py:46-57 | The rank that counts is the position of the first hit with the id |
| Fusion.ReciprocalRankFusion | comet_rag/engines/retrieval/fusion.py:30-70 | Errors exactly for a non-positive k and a blank channel name; otherwise every id of the input once, with its summed score, first representative and contributions, in the strict order |
| Fusion.AddHit | comet_rag/engines/retrieval/fusion.py:47-57 | One hit changes the entries of its own id only, and only at its first occurrence in the channel |
| Fusion.SortedIsUnique | comet_rag/engines/retrieval/fusion.py:69-69 | The order by (-score, id) is strict and total: a set of entries has only one sorted list |
| Fusion.FusionIsUnique | comet_rag/engines/retrieval/fusion.py:30-70 | The specification determines the fused list |
| Fusion.ChannelOrderIsIrrelevant | comet_rag/engines/retrieval/fusion.py:43-70 | Permuting the channels changes neither ids, scores, order nor contributions |
| Fusion.DominanceDecides | comet_rag/engines/retrieval/fusion.py:43-70 | An id at least as well placed in every channel that has the other, and better in one, comes first |
| FusionLaws.ScoreIsSumOfReciprocals | comet_rag/engines/retrieval/fusion.py:46-54 | The score of a fused hit is the sum over the channels that have it of 1 / (k + position of its first occurrence) |
| FusionLaws.HitTellsWhereItCameFrom | comet_rag/engines/retrieval/fusion.py:53-67 | Text and metadata come from the first hit of the first channel that has the id, and each channel that has it is named with the raw position and score there |
| FusionLaws.OnlyChannelsThatHaveIt | comet_rag/engines/retrieval/fusion.py:55-57 | A channel that does not have the id is not named |
| FusionLaws.TieGoesToSmallerId | comet_rag/engines/retrieval/fusion.py:69-69 | Of two hits with the same score the one with the lexicographically smaller id comes first |
| Degradation.TargetOf | comet_rag/core/degradation.py:79-85 | The target is the highest level one of whose thresholds is met, whatever the order of the thresholds |
| Degradation.DegradationController.Record | comet_rag/core/degradation.py:63-65 | Recording appends to the bounded window and pushes the oldest outcome out |
| Degradation.DegradationController.ObserveSaturation | comet_rag/core/degradation.py:67-69 | An observation replaces the saturation by waiters per permit, or 0 without a limit, and nothing else, as its step in a run does |
| Degradation.DegradationController.FailureRate | comet_rag/core/degradation.py:71-76 | The counted rate is the number of failed calls in the window over its length, or 0 below min_samples |
| Degradation.DegradationController.TargetLevel | comet_rag/core/degradation.py:79-85 | The search from the top finds the target level |
| Degradation.DegradationController.Ask | comet_rag/core/degradation.py:87-97 | The whole new state of one call of `level()` |
| Degradation.RateIsOfTheLastOutcomes | comet_rag/core/degradation.py:63-76 | After any run the deciding rate is the share of failed calls among the last min(n, window) outcomes recorded in the run, or 0 below min_samples |
| Degradation.AskIsHysteretic | comet_rag/core/degradation.py:87-107 | A call rises to the target at once, or falls by exactly one level and if and only if the cool-down is over, or changes nothing |
| Degradation.NeverBelowTarget | comet_rag/core/degradation.py:87-97 | At the end of any run `level()` returns no less than the current target |
| Degradation.RecoveryTakesTime | comet_rag/core/degradation.py:87-107 | Between any two moments of a run with a non-decreasing clock, one cool-down has passed from switch to switch for every level lost |
| Degradation.FullRecoveryTakesThree | comet_rag/core/degradation.py:87-107 | From REJECT_WRITES to NORMAL takes at least three cool-downs |
| Degradation.CalmServiceRecovers | comet_rag/core/degradation.py:87-107 | The bound is tight: with nothing wrong any more, one call per cool-down brings the level to normal |
| Degradation.TransitionsCountSwitches | comet_rag/core/degradation.py:99-102 | The transition counters are the number of switches to each level in the run |
| DegradationRuns.SaturationIsTheLastObserved | comet_rag/core/degradation.py:67-69 | The deciding saturation is waiters per permit as observed last, or 0 without a limit |
| DegradationRuns.TargetReaches | comet_rag/core/degradation.py:79-85 | The target is at least a level if and only if a threshold of that or a higher level is reached |
| DegradationRuns.HealthyStaysNormal | comet_rag/core/degradation.py:63-97 | With positive thresholds a service whose calls all succeed and for which nobody waits is never degraded |
| DegradationRuns.FailingIsDegraded | comet_rag/core/degradation.py:63-97 | When the last calls all failed and are enough, the rate is 1 and the next answer is at least every level whose failure threshold is at most 1 |

## Left out

- TaskStore.InMemoryTaskStore.Cas: what other processes do at an await is any change of the table in which a replaced row has a newer version or a new heartbeat only; deletion in mid-call ends in the not-found error.
- TaskTheorems.NoLostUpdate: deletion of the record, the event log and the fields owner, request, result_uri and created_at are not modelled; a stage body may only write context, progress and message.
- TaskBudget.BudgetHolds: requires that the version a decision was read from is still current at the write, which the code does not enforce, and that retries reset the attempts; without it see the counterexample.
- TaskLanes.LaneRefinement: about runs that succeed in which no stage body returns the final result early; that a queue delivers a job at all is not claimed, because job ids repeat.
- TaskTheorems.NoStageSkipped: says nothing against running a completed stage again, which a retry may do.
- Leases: which running task is stale is a free choice, so the results hold for any lease and clock; that a stale task is ever swept is not claimed.
- Fencing between two attempts of one worker: the fence names a worker, not an attempt, and the model has the same gap.
- Records are values: the in-memory store hands out deep copies, so aliasing between copies and rows cannot occur.
- Gate.Gate.Release: the set of waiters whose loop is closed is a parameter; a caller whose loop is closed never acts again. Failure reporting to the degradation controller is left out.
- Ingestion.IngestRunner.Index: the hash of source and position is taken to be injective, embedding is a given function, and a failure or cancellation is a fault at a window boundary; extraction and chunking stages are left out.
- VectorStore.InMemoryVectorStore.Upsert: the returned id list and filters other than equality on the source are left out.
- S3LoaderProtocol.NeverStuck: progress of some task, not fairness to each.
- ListParser.ListBuilder.AddListItem: paragraph traversal, numbering styles and the other block kinds are left out; text cells carry any string.
- Markdown.NormalizeLines: Unicode composition, line-ending conversion and the removal of byte order marks and null characters happen before it and are left out.
- Fusion.ReciprocalRankFusion: scores are exact reals, rounding of sums is not modelled; metadata is a map of strings.
- Degradation.DegradationController.Ask: clock readings and thresholds are reals; a `min_samples` below 1 divides by zero on an empty window and is excluded; logging, `adjust_top_k` and the two yes-or-no helpers are left out.
- Splitter.Splitter.SplitText: the constructor's argument checks appear as the precondition; measuring by characters only, as the code does.
- Retrieval scoring, HTTP and S3 transfer, databases, queues, document parsing, configuration and the command line: plumbing around libraries.

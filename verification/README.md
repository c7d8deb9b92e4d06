# Verified models of the retrieval backend and its streaming client

The project models the stateful parts of a retrieval-augmented question answering service and proves
what they are for.  `dafny verify dfyconfig.toml` checks everything.

Where a class or a loop of the program changes state in place, the model is a class or a method with
the same branches, proved equal to a specification function; the laws are then proved about that
function over every run, every interleaving or every input.

**The query embedding cache** (`Lru`, `CacheRegions`, `CacheProtocol`, `CacheLiveness`,
`CacheTransparency`, `CacheAccounting`, `CacheStampede`, `CacheCancellation`, `CacheViews`,
`QueryEmbeddingCache`, `CacheKey`).  A bounded dictionary in recency order, a table
of computations in flight, and any number of interleaved callers.  No locked region awaits anything,
so each is one atomic step: lookup, wake-up, completion, `get`, `clear`.  The awkward steps are all
there: a waiter whose future failed goes on as an executor that is not registered; an executor pops
whatever future is under its key, also one that another executor created; cancelling a waiter cancels
the shared future, which stays registered until an executor is done; an exception that is not an
`Exception` aborts waiters.  Vectors live on a heap of references, so that handing out, sharing and
overwriting lists is explicit.  What a caller does between two suspensions is written once, as a
function on the shared state with an answer, in `CacheRegions`.  The class has a method for each region,
proved equal to that function; each step of the step system is proved equal to it as well, answers
included; and `RunInterleaving` takes any interleaving of callers and carries it out on the class.

**The event stream readers** (`SseText`, `SseReader`, `SseDialects`, `SseRoundTrip`).  `ApiClient.stream` and
`streamGet` cut decoded chunks into blocks and fields as sections 9.2.5 and 9.2.6 of the WHATWG HTML
Living Standard describe for line feeds only, with trimmed values and without `id` and `retry`.

**Refresh tokens** (`RefreshTokens`, `TokenFates`).  A growing table of linked rows under login, rotation, logout
and reuse detection, as in section 5.2.2.3 of RFC 6819 and section 4.14.2 of RFC 9700.

**The embedding job** (`EmbeddingJob`, `EmbeddingRecords`).  Batches, a commit for each, a failure handler that commits
too, process death between any two commits, and further attempts.

**Request tracing** (`TraceContext`, `TraceResults`, `RequestTrace`, `ParallelMetrics`, `Rounding`).  Saving and
restoring three context variables around every step of interleaved generators; and the arithmetic of
durations rounded to hundredths, ties to even, over exact numbers.

**Document upload** (`DocumentStore`, `DocumentHistories`) and **percentile statistics** (`Percentile`).

`Prelude` and `Text` hold small shared definitions.

## What the proofs say that the documentation does not

- Rows and files of documents do not agree after every failure.  `refresh` stands in the same `try` as
  `commit`, so if it fails the clean-up deletes the file of a row that is committed; and a write that
  fails after opening its file leaves it behind, because `upload_file` stands before the `try`.
  `RowsAndFilesAgree` says exactly when they agree, `OneUploadSeparates` shows each fault at work.
- `stream` and `streamGet` are not the same parser: an indented field line is a field for one and
  nothing for the other.  `DialectsAgree` says exactly for which texts that shows in the events;
  `IndentedDataDivides` gives a family of texts.
- An exception thrown into a wrapped generator is passed on only when the generator last answered an
  `anext`, not when it last answered an exception.  `ThrownExceptionsReachTheGenerator` says exactly
  when, for all runs; `SecondExceptionIsNotPassedOn` is a run in which it is lost.
- Wall time plus overlap can be off by the full 0.02 that four roundings allow
  (`ParallelMetrics.TheBoundIsAttained`).
- Progress of an embedding job can claim more than is embedded with the job's model, after a change of
  model.  `ProgressIsHonestUnlessStrayed` says exactly when, for all histories;
  `ProgressIsStaleAfterModelChange` gives the histories of two attempts and `ProgressDoesGoStale` one.
- A cache key does not tell a colon in a name from the one that separates names.  `EntriesMeetExactly`
  says for which configured names two models can get the same entry.
- A caller that nobody cancels can be aborted, by coming after a cancelled waiter
  (`NewcomerIsAborted`).  `AbortedByTheRun` says exactly which events of a run abort a caller.
- The in-flight table does not always keep to one computation per key: when a computation fails, the
  waiters it releases compute beside a newcomer (`FailureLetsTwoCompute`, `StampedeHappens`).
  `OneExecutorPerKey` says exactly which runs keep to one.
- A message with data whose first line is empty does not come back from the event stream readers, nor
  does one with white space around its type or a line (`EmptyFirstLineIsLost`); all others do
  (`PrintedMessagesAreReported`).
- Progress of an embedding job can fall short of what is embedded, if the document had vectors before
  its job and every attempt dies in its first batch (`ProgressFallsShort`); `ProgressIsExact` says
  when it is exact.

## Model

| member | source | states |
|---|---|---|
| CacheProtocol.ReachableStatesAreSound | backend/app/services/embeddings/cache.py:59-188 | In every reachable state of any interleaving the dictionary is well formed and within capacity; a registered future is under its own key, completed by nobody but a cancelled waiter, and its creator still executes; a waiter's pending future is registered; no list is shared with a caller. |
| CacheProtocol.StepKeepsInv | backend/app/services/embeddings/cache.py:59-188 | Each atomic step, disabled ones included, keeps that invariant. |
| CacheProtocol.SettleKeepsFutures | backend/app/services/embeddings/cache.py:137-153 | When an executor pops and completes whatever future is under its key, nothing registered depends on it any more and nobody waits on a forgotten future. |
| CacheProtocol.SequentialClosedForm | backend/app/services/embeddings/cache.py:59-142 | A client of the shared cache that makes its calls one after the other leaves the last max(1, max_size) distinct keys, by most recent request. |
| CacheLiveness.NoLostWakeups | backend/app/services/embeddings/cache.py:93-153 | A caller that waits finds its future done, or registered under its own key with the creating executor still running. |
| CacheLiveness.NoExecutorMeansNothingPending | backend/app/services/embeddings/cache.py:144-153 | When no executor is left, the in-flight table is empty and no caller waits on a pending future. |
| CacheLiveness.EveryRunCanComeToRest | backend/app/services/embeddings/cache.py:103-153 | From every reachable state a bounded number of wake-ups and completions, even if all of them fail, lets every call return and empties the table. |
| CacheLiveness.EveryScheduleComesToRest | backend/app/services/embeddings/cache.py:103-153 | However wake-ups and completions are scheduled and computations end, a bounded number of them changes anything, and none is enabled exactly when every call has returned and nothing is in flight. |
| CacheCancellation.AbortedByTheRun | backend/app/services/embeddings/cache.py:103-188 | A caller whose future is done is aborted when it runs again if and only if some event of the run cancelled it while it waited, cancelled another caller that waited on the future, cleared the table with the future in it, or ended a computation of its key by cancellation or an exception that is no Exception. |
| CacheCancellation.GentleRunsAbortNobody | backend/app/services/embeddings/cache.py:103-153 | Without cancellations, clear and uncatchable exceptions nobody is aborted, whatever computations fail. |
| CacheCancellation.NewcomerIsAborted | backend/app/services/embeddings/cache.py:93-105 | From any reachable state: after a waiter is cancelled, a caller that comes next joins the cancelled future, which is still registered, and is aborted. |
| CacheTransparency.AnswersComeFromComputations | backend/app/services/embeddings/cache.py:59-142 | A vector from a fast hit, a joined future or an own computation has the provider's dimension and every property that all successful computations for its key have, also when callers overwrite what they got. |
| CacheTransparency.CacheIsTransparent | backend/app/services/embeddings/cache.py:59-142 | If compute_fn is a function of the key, every vector handed out is that function's value, in every interleaving. |
| CacheTransparency.MutationStaysWithItsCaller | backend/app/services/embeddings/cache.py:84-91 | Overwriting a returned vector changes nothing that the cache, a future or another caller holds. |
| CacheTransparency.VectorsOnlyChangeByTheirOwner | backend/app/services/embeddings/cache.py:103-142 | No step of anybody else changes a vector that a caller was given. |
| CacheStampede.OneExecutorPerKey | backend/app/services/embeddings/cache.py:93-153 | Throughout a run every key has exactly one executor while it is in flight and none otherwise, if and only if no step wakes a waiter, not cancelled itself, whose future failed with an Exception, or clears a table that is not empty. |
| CacheStampede.CalmRunsHaveOneExecutor | backend/app/services/embeddings/cache.py:93-101 | That is so without clear and without raising computations, cancellations allowed. |
| CacheStampede.FailureLetsTwoCompute | backend/app/services/embeddings/cache.py:111-126 | From any reachable state: after a computation that somebody waits for fails, a newcomer and the waiter execute the key at the same time. |
| CacheAccounting.CapacityAndRecency | backend/app/services/embeddings/cache.py:84-91 | At most max(1, max_size) entries, in strictly increasing order of last touch: first insertion, fast hit or get hit. |
| CacheAccounting.EvictsLeastRecentlyTouched | backend/app/services/embeddings/cache.py:130-136 | Only a full cache loses a key, and that key was touched before all the others. |
| CacheAccounting.CounterLedger | backend/app/services/embeddings/cache.py:105-136 | Without clear, calls = hits + misses + waiting + left cancelled waits; hits = calls avoided; entries + evictions + executors never exceed misses. |
| CacheAccounting.EvictionsAreExact | backend/app/services/embeddings/cache.py:130-136 | Without clear, entries and evictions add up exactly to the insertions under keys that had no entry. |
| CacheAccounting.ClearStartsOver | backend/app/services/embeddings/cache.py:176-188 | Clear takes dictionary, counters and table back to those of a fresh cache and leaves callers and their vectors alone. |
| Lru.LruClosedForm | backend/app/services/embeddings/cache.py:84-136 | After any sequence of successful requests the keys are the last max(1, max_size) of the recency order. |
| Lru.RecencyOrderMeetsItsDefinition | backend/app/services/embeddings/cache.py:84-91 | The recency order lists exactly the keys requested, by the position of their last request. |
| Lru.RecencyOrderIsUnique | backend/app/services/embeddings/cache.py:84-91 | Only one sequence meets that definition. |
| Lru.LruInclusion | backend/app/services/embeddings/cache.py:33-34 | On the same requests a larger cache holds everything a smaller one does, and its hit count is no lower. |
| CacheViews.StepIsPerform | backend/app/services/embeddings/cache.py:59-188 | Every step of the step system does to dictionary, counters, table and futures what the operation of its caller does, and gives the caller the operation's answer: the vector, the future to await, the computation to run or the exception. |
| CacheViews.RunsAreReplays | backend/app/services/embeddings/cache.py:59-188 | Every interleaving of callers leaves the shared state as the sequence of their operations does. |
| CacheRegions.UndisturbedCallIsRequest | backend/app/services/embeddings/cache.py:59-142 | A call that nobody comes in between is the sequential request. |
| QueryEmbeddingCache.Cache.constructor | backend/app/services/embeddings/cache.py:33-43 | An empty cache of capacity max(1, max_size). |
| QueryEmbeddingCache.Cache.Lookup | backend/app/services/embeddings/cache.py:82-118 | First locked region: state and answer are those of the look-up; a vector handed out is fresh, a future handed out is the registered one. |
| QueryEmbeddingCache.Cache.TakeJoined | backend/app/services/embeddings/cache.py:103-110 | A joined result counts as a hit, leaves the dictionary alone and is a fresh copy. |
| QueryEmbeddingCache.Cache.FallBack | backend/app/services/embeddings/cache.py:111-118 | A waiter whose future failed goes on as an executor with a counted miss and registers nothing. |
| QueryEmbeddingCache.Cache.Awaken | backend/app/services/embeddings/cache.py:103-114 | From the await to the end or to compute_fn: state and answer are those of a wake-up, for a caller that was cancelled or was not. |
| QueryEmbeddingCache.Cache.Withdraw | backend/app/services/embeddings/cache.py:103-105 | Cancelling a waiter cancels its future unless that is done, and leaves it registered. |
| QueryEmbeddingCache.Cache.StoreCopy | backend/app/services/embeddings/cache.py:130-136 | Evicts the oldest entry of a full cache for a new key, then stores a fresh copy. |
| QueryEmbeddingCache.Cache.Publish | backend/app/services/embeddings/cache.py:128-142 | Second locked region: stores a copy, completes the future under the key with the computed list unless it is done, returns a list that the cache does not hold. |
| QueryEmbeddingCache.Cache.Settle | backend/app/services/embeddings/cache.py:144-153 | Pops the future of the key and completes it unless it is done; no other future changes. |
| QueryEmbeddingCache.Cache.Get | backend/app/services/embeddings/cache.py:155-174 | State and answer are those of reading: a hit with a fresh copy, or a counted miss and nothing. |
| QueryEmbeddingCache.Cache.Clear | backend/app/services/embeddings/cache.py:176-188 | Empties dictionary, table and counters and cancels exactly the registered futures that are not done. |
| QueryEmbeddingCache.Cache.RunExecutor | backend/app/services/embeddings/cache.py:116-153 | State and answer are those of a completion, for vectors of right and wrong dimension, exceptions and cancellations. |
| QueryEmbeddingCache.Cache.GetOrCompute | backend/app/services/embeddings/cache.py:59-153 | The call up to its end or its await, when nobody comes in between look-up and completion. |
| QueryEmbeddingCache.Cache.Resume | backend/app/services/embeddings/cache.py:103-153 | The call from the moment the awaited future is done, for a caller that was cancelled or was not. |
| QueryEmbeddingCache.RunInterleaving | backend/app/services/embeddings/cache.py:59-188 | Any interleaving of concurrent callers, carried out on the class, ends with the dictionary, counters, table and futures of the step system. |
| QueryEmbeddingCache.ServeInSequence | backend/app/services/embeddings/cache.py:59-142 | Running the class on any sequence of calls ends in the closed form. |
| CacheKey.OneModelSharesByQuery | backend/app/services/embeddings/cache.py:45-57 | Under one provider and model, keys agree exactly when the dimension does and the queries are the same up to the white space around them. |
| CacheKey.StripIsTheCore | backend/app/services/embeddings/cache.py:56 | Stripping takes away exactly the white space around the query. |
| CacheKey.EntriesMeetExactly | backend/app/services/embeddings/cache.py:45-57 | Two identities can get the same key, for some queries, if and only if the text in front of the query of one goes on, not with white space, where that of the other ends. |
| CacheKey.ColonFreeNamesNeverClash | backend/app/services/embeddings/cache.py:45-57 | Between models with colon-free names, keys agree exactly when everything but the white space around the query does, and the condition above means the same model. |
| CacheKey.ColonsClash | backend/app/services/embeddings/cache.py:56-57 | A colon moved between provider and model name gives the same key for another model. |
| SseText.SplitInInstalments | frontend/src/api/client.ts:170-172 | Splitting text in two instalments, with the unfinished part carried over, gives the parts of the whole text. |
| SseText.JoinSplit | frontend/src/api/client.ts:171 | Splitting loses and moves nothing. |
| SseReader.ReadBlock | frontend/src/api/client.ts:174-198 | The field loop of a block reports what the lines mean: the last event type, the data lines joined, nothing without data. |
| SseReader.ReadChunks | frontend/src/api/client.ts:163-199 | However the text is cut into chunks, the events are those of the whole text without its unterminated last block, and the buffer carried over is that block and has no blank line. |
| SseReader.Read | frontend/src/api/client.ts:142-224 | The events of the text received, in order, then exactly one closing callback: onComplete if and only if the request was aborted, in fetch or while reading, or the body was read to its end; otherwise onError with the code of the server, of the status, STREAM_ERROR without a body, or NETWORK_ERROR. |
| SseDialects.DialectsAgreeOnLine | frontend/src/api/client.ts:288-300 | Both functions understand a line alike if and only if it is not an indented field. |
| SseDialects.DialectsAgreeOnBlock | frontend/src/api/client.ts:282-310 | Both report the same of a block if and only if it is blank, or no indented data line adds text and, if there is text, both see the same event type named last. |
| SseDialects.DialectsAgree | frontend/src/api/client.ts:282-310 | stream and streamGet report identical events of a text if and only if that holds of each completed block. |
| SseDialects.DialectsAgreeWithoutIndentation | frontend/src/api/client.ts:282-310 | They do when no completed block has an indented field. |
| SseRoundTrip.PrintedMessagesAreReported | frontend/src/api/client.ts:174-198 | Events printed as an event line and one data line for each line of data, with comment lines anywhere, are reported with the same type and newline-joined data, in order, by both functions, if and only if types and lines are trimmed and no first line is empty. |
| SseRoundTrip.Receive | frontend/src/api/client.ts:163-199 | The same, both ways, for any way of cutting the printed text into chunks. |
| SseRoundTrip.ReadSkipsComments | frontend/src/api/client.ts:290-293 | Comment lines have no effect on what a block says. |
| SseRoundTrip.ReadField | frontend/src/api/client.ts:180-188 | A line that starts with a field name carries the trimmed rest, with or without a space after the colon. |
| SseRoundTrip.OtherLinesSayNothing | frontend/src/api/client.ts:180-188 | No other line carries a field. |
| SseRoundTrip.IndentedDataDivides | frontend/src/api/client.ts:288-299 | An indented data line, whatever it carries, is an event for streamGet and nothing for stream. |
| RefreshTokens.TokenTable.CreateRefreshToken | backend/app/services/auth/tokens.py:29-46 | Appends a row, unless its hash is taken. |
| RefreshTokens.TokenTable.RotateRefreshToken | backend/app/services/auth/tokens.py:48-112 | Rows and answer are those of a rotation step: unknown, reused, expired or rotated. |
| RefreshTokens.TokenTable.RevokeRefreshToken | backend/app/services/auth/tokens.py:114-130 | Revokes an unrevoked token once; otherwise nothing changes. |
| TokenFates.FateOfRotation | backend/app/services/auth/tokens.py:70-112 | For all runs, from the events alone: a presented token is invalid if and only if it was never issued; reused if and only if its rotation, its logout or reuse detection for its owner ended it since; expired if and only if it was not ended and the expiry of the event that issued it is not later than now; and rotated if and only if it was not ended, has not expired and the new hash was never issued. |
| TokenFates.FateOfLogout | backend/app/services/auth/tokens.py:120-130 | A token is logged out if and only if it was issued and not ended since, expired or not. |
| TokenFates.FateOfLogin | backend/app/services/auth/tokens.py:35-46 | A login issues a token if and only if its hash was never issued. |
| TokenFates.TableTellsTheRun | backend/app/services/auth/tokens.py:75-130 | The row of a token has the owner and expiry of the event that issued it and, if it is revoked, the time of the first event that ended it. |
| RefreshTokens.TablesAreChains | backend/app/services/auth/tokens.py:75-112 | In every run links go to later tokens of the same user, replaced tokens are revoked and no two tokens share a successor. |
| RefreshTokens.ChainsAreLinked | backend/app/services/auth/tokens.py:98-105 | A token and its successor belong to the same login, which is the user's and no later. |
| RefreshTokens.LiveTokensCountOpenChains | backend/app/services/auth/tokens.py:75-130 | A user's unrevoked tokens number exactly the logins not yet ended by logout or reuse detection. |
| RefreshTokens.LinksLeadToTheLiveToken | backend/app/services/auth/tokens.py:98-105 | Following links from any token of an open chain ends at the chain's one unrevoked token. |
| RefreshTokens.RevocationIsForever | backend/app/services/auth/tokens.py:82-130 | A revocation time or link once set is never changed or cleared, in any continuation of any run. |
| RefreshTokens.RotationHappensOnce | backend/app/services/auth/tokens.py:75-112 | A raw token rotates successfully at most once; presenting it again is taken for reuse. |
| RefreshTokens.ReuseRevokesTheUser | backend/app/services/auth/tokens.py:76-92 | Reuse detection leaves the user no unrevoked token and other users' tokens untouched. |
| RefreshTokens.NoRotationAfterReuse | backend/app/services/auth/tokens.py:75-112 | After reuse is detected no rotation for that user succeeds until a new login. |
| EmbeddingJob.Session.StoreVectors | backend/app/services/embeddings/service.py:152-158 | The strict zip stores pairs until one side runs out and reports unequal lengths. |
| EmbeddingJob.Session.RunBatches | backend/app/services/embeddings/service.py:141-221 | The batch loop commits what the batches specify, also when it fails or the process dies. |
| EmbeddingJob.Session.ProcessDocumentEmbeddings | backend/app/services/embeddings/service.py:70-221 | One call leaves the database as specified, refusals included. |
| EmbeddingRecords.AttemptRecords | backend/app/services/embeddings/service.py:85-221 | An accepted attempt fails with a code if and only if its first batch that is not answered in full raises that code, or has the wrong number of vectors and the code is INTERNAL_ERROR; it dies if and only if it is killed there or after the last batch; otherwise it succeeds. Job and document get the same status, the job the code, the attempt's model and one more attempt. |
| EmbeddingRecords.HistoryRecords | backend/app/services/embeddings/service.py:85-221 | After any history, with any models: there is a job if and only if an attempt was accepted; its status and error code and the document status are those of the last accepted attempt, as above. |
| EmbeddingRecords.RefusalsChangeNothing | backend/app/services/embeddings/service.py:40-83 | Which attempts are refused with which code; a refused attempt changes nothing. |
| EmbeddingRecords.CutIsExact | backend/app/services/embeddings/service.py:142-145 | Cutting into batches loses and repeats nothing, and every batch but the last is full. |
| EmbeddingJob.ChunksHoldTheirVectors | backend/app/services/embeddings/service.py:141-158 | If the provider answers each text of a batch with embed(model, text), then after any history with any models, partial strict-zip batches included, every chunk is untouched or holds embed of its own text. |
| EmbeddingJob.CompletedJobsAreComplete | backend/app/services/embeddings/service.py:169-174 | After any history of attempts, with any models, a COMPLETED job means every chunk has a vector of the job's model, embed(model, content) if the provider answers so, and processed = total = number of chunks. |
| EmbeddingJob.VectorsArePersistent | backend/app/services/embeddings/service.py:131-137 | With one model a persisted vector is never lost or changed by later attempts. |
| EmbeddingJob.NothingIsRecomputed | backend/app/services/embeddings/service.py:131-150 | With one model no later attempt sends a chunk whose vector is persisted, and no attempt sends a chunk twice. |
| EmbeddingJob.ProgressIsHonest | backend/app/services/embeddings/service.py:138-214 | With one model processed_chunks never exceeds the chunks embedded, also when a strict zip stops midway. |
| EmbeddingJob.ProgressIsExact | backend/app/services/embeddings/service.py:138-172 | When all answers have the right length it equals them, also after kills, if and only if nothing was embedded with the model at the start or some accepted attempt was not killed in its first batch. |
| EmbeddingJob.FewAttemptsSuffice | backend/app/services/embeddings/service.py:131-186 | ceil(n / batch_size) attempts that each finish a batch embed everything, and the last one completes the job unless it is killed. |
| EmbeddingJob.HonestUnlessStraying | backend/app/services/embeddings/service.py:106-172 | From any state, an accepted attempt leaves progress no higher than what is embedded with the job's model if and only if it is not killed in its first batch with higher progress on record; from honest progress only another model can do that. |
| EmbeddingJob.ProgressIsHonestUnlessStrayed | backend/app/services/embeddings/service.py:106-172 | For all histories with any models: progress is honest if and only if no attempt did that without another being accepted since. |
| EmbeddingJob.ProgressIsStaleAfterModelChange | backend/app/services/embeddings/service.py:106-119 | After a first attempt that succeeds and a second with another model that is killed in its first batch, progress claims all chunks and none is embedded with the job's model. |
| TraceContext.ContextVars.RunInTraceContext | backend/app/core/tracing.py:628-638 | The body sees exactly the trace, its trace id and its request id, and all three variables are back afterwards whatever the body wrote. |
| TraceContext.IsolatedStream.Resume | backend/app/core/tracing.py:641-676 | One step of the wrapper, from one suspension to the next, for anext, athrow and aclose. |
| TraceResults.CallsDecideResults | backend/app/core/tracing.py:656-676 | After any run, a step that calls the generator delivers the item it yields, ends if it stops and raises what it raises; in the last two cases an exception from closing it replaces the result. |
| TraceResults.WhichStepsCall | backend/app/core/tracing.py:651-673 | An anext calls the generator until the wrapper has ended; a thrown exception reaches it exactly after an anext answered with an item, unless it is GeneratorExit or there is no trace. |
| TraceResults.OtherResults | backend/app/core/tracing.py:651-676 | What every step gives that does not call the generator: the end, or the thrown exception, or what closing raises. |
| TraceResults.IterationIsDirect | backend/app/core/tracing.py:651-662 | Iterating a wrapper, among any others, gives exactly what iterating the generator itself gives: its items, its end or its exception, and its end from then on. |
| TraceContext.EveryStepRunsUnderItsTrace | backend/app/core/tracing.py:641-676 | For any number of wrapped generators in any order, every inner call starts under its own trace, items pass unchanged and in order, and a started generator is closed once, last. |
| TraceContext.DriveRestoresContext | backend/app/core/tracing.py:628-638 | A step of a traced wrapper puts all three variables back, whether the generator returns or raises. |
| TraceContext.ContextIsAmbient | backend/app/core/tracing.py:656-676 | Between steps the context is what the consumer set last. |
| TraceContext.ThrownExceptionsReachTheGenerator | backend/app/core/tracing.py:663-673 | After any run, a thrown exception is passed on if and only if the generator's last call was an anext answered with an item and it is not GeneratorExit; after an athrow answered with an item it closes the generator instead. |
| TraceContext.SecondExceptionIsNotPassedOn | backend/app/core/tracing.py:663-676 | A run in which the second of two exceptions never reaches the generator. |
| RequestTrace.RequestTrace.RecordEvent | backend/app/core/tracing.py:45-56 | The exact time is kept under the name and the rounded one appended, so a timestamp is always that of the last mark of its name. |
| RequestTrace.RequestTrace.Record | backend/app/core/tracing.py:58-59 | A stage is stored in whole hundredths; everything else stays. |
| RequestTrace.RequestTrace.RecordDbQuery | backend/app/core/tracing.py:71-84 | The rounded running total stays the exact sum of the logged durations, and the slowest query is the first of the greatest duration. |
| RequestTrace.CriticalPathIsExact | backend/app/core/tracing.py:170-231 | Rounding the sum of the sequential steps and the parallel wall time loses nothing. |
| RequestTrace.CriticalPathByName | backend/app/core/tracing.py:175-221 | The critical path is exactly the sum of the named stages, each under its own name or the one it falls back to, of the token generation and of the wall time. |
| RequestTrace.TasksByName | backend/app/core/tracing.py:114-128 | The stages and timestamps that the two searches are taken from. |
| RequestTrace.CriticalPathPlusOverlapIsTotal | backend/app/core/tracing.py:188-221 | Without timestamps of both searches, critical path plus overlap is the total of all recorded steps. |
| RequestTrace.CriticalPathPlusOverlapIsTotalPlusGap | backend/app/core/tracing.py:188-221 | With measured timestamps, critical path plus overlap is that total plus the gap between disjoint searches, within 0.02. |
| ParallelMetrics.ExactWithoutTimestamps | backend/app/core/tracing.py:146-152 | Without timestamps or with a single task, wall + overlap = sum of the task times, exactly. |
| ParallelMetrics.UntimedMetrics | backend/app/core/tracing.py:146-154 | Two tasks without timestamps have the longer as wall time and the shorter as overlap; a single task is its own wall time with efficiency 1. |
| ParallelMetrics.OverlapByOrder | backend/app/core/tracing.py:140-145 | Timestamped tasks: wall time to the later end, and as overlap what the second shares with the first, in every order of their ends. |
| ParallelMetrics.TasksCommute | backend/app/core/tracing.py:112-168 | It makes no difference which search is which. |
| ParallelMetrics.TasksAreCounted | backend/app/core/tracing.py:157 | The number of tasks that took time. |
| ParallelMetrics.WallPlusOverlapIsSumPlusGap | backend/app/core/tracing.py:133-145 | With timestamps, wall + overlap = sum + gap between disjoint intervals, within 0.02. |
| ParallelMetrics.DisjointTasks | backend/app/core/tracing.py:140-145 | Disjoint tasks have no overlap and a wall time that exceeds the sum by the gap, within 0.02. |
| ParallelMetrics.EfficiencyIsAtMostTwo | backend/app/core/tracing.py:133-154 | Two tasks, with measured timestamps or none, have an efficiency between 0 and 2, at least 1 if the wall time is no more than the sum and at most 1 otherwise. |
| DocumentStore.StorageKeyIsInjective | backend/app/services/documents/service.py:45-56 | For slash-free parts the storage key determines all five parts. |
| DocumentStore.DocumentService.Upload | backend/app/services/documents/service.py:58-165 | Checks, duplicate detection, storage that may fail with a part written, commit, refresh and clean-up leave rows and files as specified. |
| DocumentStore.DocumentService.Delete | backend/app/services/documents/service.py:341-351 | Marks the document deleted and leaves its file. |
| DocumentHistories.FateOfUpload | backend/app/services/documents/service.py:72-165 | For all runs, from the events alone: an upload is invalid, a duplicate, successful or failed, exactly under the conditions on its organization and validation, on earlier uploads to the knowledge base that were committed and not deleted since, and on its faults. |
| DocumentHistories.RowsAreTheUploads | backend/app/services/documents/service.py:126-165 | The rows are those of the committed uploads, with the uploads' data, each deleted if and only if a later event deleted that document. |
| DocumentStore.UploadsUseNewKeys | backend/app/services/documents/service.py:108-124 | No upload overwrites a stored file or reuses the key of a row. |
| DocumentStore.NoLiveDuplicates | backend/app/services/documents/service.py:90-106 | Live documents of one knowledge base have pairwise distinct checksums after any run, whatever fails. |
| DocumentStore.KeyAgreesUnlessSeparated | backend/app/services/documents/service.py:126-165 | A row and its file stay together for good if and only if their upload did not separate them. |
| DocumentStore.RowsAndFilesAgree | backend/app/services/documents/service.py:119-165 | After any serial run the files are exactly those of the rows, deleted ones included, with content matching the checksum, if and only if no write failed after opening its file, no failed commit went without clean-up and no failure after a commit was cleaned up. |
| DocumentStore.OneUploadSeparates | backend/app/services/documents/service.py:119-165 | Each of those faults separates row and file in a single upload to an empty store. |
| Percentile.OrderDoesNotMatter | backend/scripts/benchmark_end_to_end.py:52-67 | The percentile depends on the values, not on their order. |
| Percentile.PercentileIsMonotone | backend/scripts/benchmark_end_to_end.py:60-67 | It is monotone in p, across segment boundaries, before and after rounding. |
| Percentile.PercentileEnds | backend/scripts/benchmark_end_to_end.py:52-67 | It is the minimum at 0 and the maximum at 100. |
| Percentile.PercentileInterpolates | backend/scripts/benchmark_end_to_end.py:60-67 | Among n sorted values, the percentile that lies the share t of the way from value k to the next, 100 (k + t) / (n - 1), is that share of the way between the two. |
| Percentile.PercentileOfOne | backend/scripts/benchmark_end_to_end.py:58-59 | A single value is every percentile. |
| Percentile.MedianOfOdd | backend/scripts/benchmark_end_to_end.py:60-64 | The 50th percentile of an odd number of values is the middle one. |
| Percentile.MedianOfEven | backend/scripts/benchmark_end_to_end.py:60-67 | The 50th percentile of an even number of values is half-way between the middle two. |
| Percentile.PercentileIsRounded | backend/scripts/benchmark_end_to_end.py:52-67 | What is returned is that value, rounded. |
| Percentile.ComputeStatistics | backend/scripts/benchmark_end_to_end.py:70-105 | min <= p50 <= p95 <= p99 <= max and min <= average <= max after rounding, for any data. |
| Rounding.RoundingMovesLittle | backend/app/core/tracing.py:58-59 | Rounding gives whole hundredths and moves a number by at most half of one. |
| Rounding.NearestEvenExactly | backend/app/core/tracing.py:58-59 | Rounding goes to the nearest number and, half-way, to the even one. |
| Rounding.RoundingIsMonotone | backend/scripts/benchmark_end_to_end.py:64-67 | Rounding keeps order. |

## Left out

- The cache's SHA-256 digest and the hash of raw tokens: taken to be injective; `CacheKey` speaks of the text that is digested, the step system of abstract keys.
- `QueryEmbeddingCache.stats` and reported latencies: only derived figures and wall-clock times.
- QueryEmbeddingCache.Cache.GetOrCompute: an executor goes through its computation undisturbed, because Dafny methods do not suspend; calls that others interrupt are the operations of `RunInterleaving`.
- EmbeddingJob.ProgressIsHonest: speaks of histories with one model; `ProgressIsHonestUnlessStrayed` has the exact condition for any models.
- DocumentStore.DocumentService.Upload: a failed clean-up leaves the file as it is.  A commit that took effect but reports a failure is a failure after the commit.
- CacheProtocol.SequentialClosedForm: calls whose computation succeeds; failing calls count a miss and leave the dictionary alone.
- Fetching, UTF-8 decoding and JSON parsing of event data: the readers take decoded text and report it as text; callbacks return.  Of an error only its code is kept, not its message.
- JWT access tokens and random generation: a new token's hash is an input of login and rotation, refused if it is taken.
- Database races: transactions are serial.  The source takes no row locks when it rotates, uploads or embeds.
- Failing commits of token and embedding transactions, and failing refreshes of the embedding job: commits succeed there; process death covers what a lost commit leaves in the embedding job.
- `retry_job` looks up the job and document and calls the same function again: an attempt of the history; its not-found answers are not modelled.
- Chunk provider, dimension and time stamps, error messages and logging of the embedding job.
- TraceContext.ContextIsAmbient: wrappers with a trace only, because a wrapper without one passes the generator's own changes on.
- StopAsyncIteration thrown in by the consumer, and steps of one wrapper that overlap in time: each step of a wrapper is atomic for its context.
- Floating point: durations and data are exact numbers, so the rounding claims are about the formulas and not about binary representation.
- `parallel_start_ms`, `parallel_end_ms`, `total_request_ms` and the list of steps in the critical path; pool, commit and session counters, which are like the query counters.
- Standard deviation and share of the total in the statistics: neither takes part in the ordering laws.
- Validation of uploads and generation of ids: inputs; file names are sanitized and ids are fresh.  `DocumentVersion` rows repeat the document's key and checksum.
- `update_document` and `archive_document`: neither touches keys, checksums, deletion or files.
- Investigations, remediation, retrieval, ranking, chunking, the language model gateway, routes, configuration and the React hooks.

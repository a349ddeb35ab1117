# Hypern core: a Dafny model

Hypern is a Python web framework on a Rust runtime. This project models the parts of it that keep
state, run concurrently or parse bytes, and proves what they promise over every input, every run or
every interleaving. Imperative code stays imperative (classes, loops over mutable state); each method is
proved against a function or relation on values, and the theorems are about those. Concurrent code is
a step system, and its theorems quantify over all runs. `dafny verify dfyconfig.toml` checks everything.

| file | models |
|---|---|
| `Multipart.dfy`, `MultipartRoundTrip.dfy` | the multipart form parser, and an encoder after section 4 of RFC 7578 and section 5.1.1 of RFC 2046 that it inverts |
| `Chunking.dfy`, `MapExecutor.dfy` | the parallel `map` of the blocking executor, with its queue, workers and the interpreter lock |
| `MapProgress.dfy`, `MapCalls.dfy`, `MapShutdown.dfy` | what its runs achieve, which calls can return, and what shutdown leaves behind |
| `TenantPools.dfy` | the LRU of tenants over the registry of pools |
| `Tasks.dfy`, `TaskHistory.dfy`, `TaskLock.dfy` | the background task executor, its records told from the steps of a run, and the same with the interpreter lock |
| `RequestContext.dfy` | the request-scoped transaction state machine and the table of contexts |
| `RateLimit.dfy`, `CircuitBreaker.dfy`, `Base64.dfy` | limiters, breaker, and the base64 decoder with the encoder of section 4 of RFC 4648 |
| `Drain.dfy` | request admission, the in-flight counter and drain |
| `Sse.dfy` | the event printer, and a parser after sections 9.2.5 and 9.2.6 of the WHATWG HTML Living Standard |
| `Channels.dfy`, `Presence.dfy`, `Heartbeat.dfy`, `Hub.dfy` | topic patterns, subscriptions, presence, liveness, and the hub that drives them together |
| `Broadcast.dfy` | deduplicated sending and lagging subscribers |
| `JsonCache.dfy` | the TTL response cache |
| `Text.dfy`, `Lists.dfy`, `Counting.dfy`, `Wrappers.dfy` | string search and splitting, list and counting lemmas, `Option` |

## Where the code does not do what one would expect

Each of these is a theorem with the exact condition.

- A `map` on a bounded queue can hang: the call keeps the interpreter lock while it waits for room, and the
  workers need that lock to run what they took or to come back to the queue. Some run hangs if and only if
  `0 < capacity < number of all chunks` (`MapProgress.BlocksIff`). A call with more than `capacity + threads` chunks
  hangs in every run, and every other call returns in some run (`MapCalls.ReturnsIff`); automatic chunking makes up to
  `4 * threads` chunks. With the default unbounded queue every call can still be finished from every
  running state (`MapProgress.AlwaysFinishesIff`).
- `shutdown` documents that pending tasks are drained; they are if and only if as many workers wait on the queue as
  chunks are in it, and the chunks further back stay there for ever (`MapShutdown.DrainedIff`, `MapShutdown.ReceivedIff`). A call that had seen
  `running` still queues its chunks afterwards (`MapShutdown.StrandsIff`).
- A BEGIN that reports a failure but took effect leaves a transaction open on a connection that goes back to the pool;
  nothing else does (`RequestContext.ReleasesOpenIff`).
- A tenant whose pool could not be created stays configured, so its next request raises "already configured"; apart
  from an alias that someone else configured, that is the only cause (`TenantPools.AlreadyConfiguredIff`).
- A request that fails, for whatever reason, still evicts the oldest tenant and closes its pool if and only if the
  dictionary was full (`TenantPools.FailureEvictsIff`). With `max_tenants` 1, one tenant that cannot connect leaves none.
- A `submit` on a full task queue keeps the interpreter lock that the workers need, and everything can stop for ever
  (`TaskLock.DeadlockIff`, `TaskLock.HangsIff`).
- A task cancelled during its delay still runs, exactly if its worker has passed the check (`Tasks.CancelledRunsIff`).
- The sliding-window limiter admits every request of a run if and only if no more than `max_requests` come at any one
  instant at which a window starts, however many come in between (`RateLimit.SlidingAdmitsAllIff`), and a fixed window
  with limit 0 still admits one request per window (`RateLimit.ZeroLimitStillAdmits`).
- While draining, a counter of zero does not mean that nobody is admitted any more (`Drain.ZeroIsNotDrained`,
  `Drain.StaysZeroIff`).
- Heartbeat retries do not accumulate, so with `max_retries` above 0 `evict_dead` never evicts (`Heartbeat.DeadIff`).
- Leaving one channel stops the monitoring of a client that is still in another (`Hub.MemberNotMonitored`,
  `Hub.MonitoredIff`).
- Segments after `#` in a topic pattern are ignored (`Channels.AfterHashIgnored`).
- A cache whose live entries all reached 2^64 - 1 hits grows past its limit (`JsonCache.InsertOverflowsIff`,
  `JsonCache.LimitCanBePassed`).

## Model

The one-step updates of the classes carry contracts of the same kind, which state the whole new value; only those with
loops or branches worth a reader's time have a row.

| member | source | states |
|---|---|---|
| `Multipart.SkipLineEnd` | src/http/multipart.rs:335-338 | the cursor skips a CRLF only if more than it is left |
| `Multipart.NextPiece` | src/http/multipart.rs:341-364 | one turn of the loop cuts off exactly the head of the recursive split, and moves forward unless it ends |
| `Multipart.SplitMultipart` | src/http/multipart.rs:328-367 | the cursor loop returns the pieces of the recursive split, for every body and delimiter |
| `Multipart.SplitIsOrderedAndDelimiterFree` | src/http/multipart.rs:328-367 | for every body the pieces are ordered, disjoint slices of it with a delimiter's room between them, and none contains the delimiter |
| `Multipart.SplitIsExact` | src/http/multipart.rs:328-367 | for every body the pieces are exactly its slices from the first delimiter on, each up to the next delimiter, with nothing between them but that and at most one CRLF, and the last one ends at a closing delimiter or where the body does |
| `Multipart.FindDoubleCrlf` | src/http/multipart.rs:369-377 | the search loop finds the first blank line, or none if there is none |
| `Multipart.ParsePartHeaders` | src/http/multipart.rs:386-400 | the loop builds the table of trimmed, lower-cased headers in which later lines win |
| `Multipart.ParseContentDisposition` | src/http/multipart.rs:402-419 | the loop finds the last `name` and `filename` parameters, unquoted as `UnquoteIs`, `NameIs` and `FilenameIs` say |
| `Multipart.UnquoteIs` | src/http/multipart.rs:409-415 | a value loses exactly the quotes around it, so a token without quotes is unchanged |
| `Multipart.NameIs` | src/http/multipart.rs:404-411 | a piece `name=v`, with white space or not, sets the name to `v` unquoted and leaves the file name alone |
| `Multipart.FilenameIs` | src/http/multipart.rs:412-415 | the same for `filename=v` |
| `Multipart.HeaderLineIs` | src/http/multipart.rs:390-396 | a line `name:value`, with a space or not, sets the trimmed, lower-cased name to the trimmed value; a line without a colon sets nothing |
| `Multipart.LaterLineWins` | src/http/multipart.rs:386-400 | a later line of the same name replaces the earlier value |
| `Multipart.ParseOnePart` | src/http/multipart.rs:273-322 | one part adds what its headers say: a file with one CRLF stripped, a text with all trailing CRLFs stripped, or nothing |
| `Multipart.ParseMultipart` | src/http/multipart.rs:267-325 | the whole parser is the collection of the parts read from the split |
| `MultipartRoundTrip.NoStraddle` | src/http/multipart.rs:328-367 | a delimiter without CR or LF that is in neither side is not in `a CRLF b` |
| `MultipartRoundTrip.FindDelimiter` | src/http/multipart.rs:379-384 | the first delimiter after a delimiter-free text and a CRLF is right there |
| `MultipartRoundTrip.SplitEncoded` | src/http/multipart.rs:328-367 | splitting an encoded body gives back exactly its blocks, whatever the epilogue |
| `MultipartRoundTrip.PartRead` | src/http/multipart.rs:273-322 | reading an encoded part recovers name, file name, content type and content |
| `MultipartRoundTrip.PartReadUnclosed` | src/http/multipart.rs:273-322 | a part at the end of a body without a closing delimiter is read too; a file loses one final CRLF and a text all of them |
| `MultipartRoundTrip.ParseUndoesEncode` | src/http/multipart.rs:267-419 | for every part list with quoted or token parameters, every boundary, preamble and epilogue, parsing the encoding gives every file's exact bytes in order per name and the last text of each name |
| `MultipartRoundTrip.TextSurvivesIff` | src/http/multipart.rs:312-318 | in a form of any parts the last text of a name survives unchanged if and only if it does not end in CRLF |
| `Chunking.BuildChunks` | src/core/blocking_executor.rs:273-313 | the slicing loop makes the consecutive chunks of the given size |
| `Chunking.ChunkIs` | src/core/blocking_executor.rs:277-282 | chunk `i` is the items from `i * size` up to `(i + 1) * size` or the end |
| `Chunking.ChunkSizeIs` | src/core/blocking_executor.rs:258-265 | the size is the requested one, or the smallest that makes at most 4 × `max_threads` chunks |
| `Chunking.AutoChunkingIsBounded` | src/core/blocking_executor.rs:258-265 | automatic chunking makes at most 4 × `max_threads` chunks, for every list |
| `Chunking.MergeResults` | src/core/blocking_executor.rs:328-354 | the flattening loop concatenates in order and stops at the first failed chunk |
| `Chunking.MergeOfChunks` | src/core/blocking_executor.rs:240-355 | merging the results of the chunks is the sequential map, including which error is reported, for every chunk size |
| `Chunking.SequentialMapIff` | src/core/blocking_executor.rs:268-270 | `[fn(item) for item in items]` item by item: all values in their places, or the error of the first item that raises; exactly one outcome is that |
| `Chunking.MergeIsMap` | src/core/blocking_executor.rs:328-354 | merging any chunk replies that are item-by-item maps of their chunks is the item-by-item map of the list |
| `MapExecutor.StepInv` | src/core/blocking_executor.rs:240-485 | every step, among them shutdown between a call's look at `running` and its first chunk, and a running chunk giving up the interpreter lock and taking it back, keeps each outstanding chunk in exactly one of the queue, one worker's hands, or its reply channel |
| `MapExecutor.MapIsSequential` | src/core/blocking_executor.rs:240-355 | in every interleaving of any number of calls and workers, a `map` that returns gives the value of every item in its place, or the error of the first item that raises, and is refused only after shutdown |
| `MapProgress.WorkIsBounded` | src/core/blocking_executor.rs:429-485 | apart from idle turns of the workers, no run does more steps than the work it started with |
| `MapProgress.Progress` | src/core/blocking_executor.rs:429-485 | while running, unless all calls are done or sending is blocked, a state with less work left can be reached |
| `MapProgress.BlockedForever` | src/core/blocking_executor.rs:301-310 | a call blocked on a full queue with the lock stays blocked, and only replies already sent are received |
| `MapProgress.BlocksIff` | src/core/blocking_executor.rs:277-313 | for any calls, sending can block for ever if and only if the queue is bounded and smaller than the number of all their chunks |
| `MapProgress.AlwaysFinishesIff` | src/core/blocking_executor.rs:277-355 | from every running state all calls can still be finished if and only if the queue is unbounded or holds all their chunks |
| `MapCalls.TooLargeNeverReturns` | src/core/blocking_executor.rs:277-313 | a call with more chunks than a bounded queue and the workers can hold never gets its last chunk out, in any run |
| `MapCalls.ReturnsIff` | src/core/blocking_executor.rs:277-355 | among any other calls, a call returns in some run if and only if the queue is unbounded or its chunks fit into the queue and the workers' hands |
| `MapShutdown.AfterShutdown` | src/core/blocking_executor.rs:379-395 | in every run since shutdown a prefix was received of what was queued then and what admitted calls queued later; while one of the former is left, a worker stops waiting only by receiving |
| `MapShutdown.ReceivedIff` | src/core/blocking_executor.rs:437-454 | after shutdown a queued chunk can be received if and only if more workers wait on the queue than chunks are before it |
| `MapShutdown.DrainedIff` | src/core/blocking_executor.rs:377-395 | everything pending can be drained if and only if as many workers wait on the queue as chunks are in it |
| `MapShutdown.NoneIsPassedOver` | src/core/blocking_executor.rs:437-454 | when nobody waits any more or nothing is queued, of the chunks queued at shutdown exactly the first ones are gone, one per worker that waited, and the others are in front of the queue |
| `MapShutdown.StrandedNeverReturns` | src/core/blocking_executor.rs:377-395 | a call with a chunk further back never returns |
| `MapShutdown.StrandsIff` | src/core/blocking_executor.rs:247-313 | shutdown can strand chunks if and only if some call has any, since it may fall between the look at `running` and the first chunk |
| `MapShutdown.FindsTooManyIff` | src/core/blocking_executor.rs:377-395 | shutdown can find more chunks queued than workers wait for if and only if some call with items fits into the queue and the workers' hands |
| `TenantPools.Database.Configure` | hypern/database.py:40-93 | a configured alias and an unsupported scheme raise and change nothing; otherwise the alias is recorded as not initialized |
| `TenantPools.Database.EnsureInitialized` | hypern/database.py:95-123 | the pool is created once; an unknown alias or a failed creation raises and changes nothing |
| `TenantPools.Database.Close` | hypern/database.py:143-166 | the alias leaves every table |
| `TenantPools.MultiTenantDatabase.EnsureTenant` | hypern/database.py:550-567 | the eviction loop and the registry calls do what the value-level step says, including an empty dictionary with `max_tenants` 0 or less |
| `TenantPools.MultiTenantDatabase.CloseAll` | hypern/database.py:585-590 | every tenant is closed and the dictionary is empty |
| `TenantPools.EnsuredInv` | hypern/database.py:550-567 | every call keeps: kept tenants have alias, flag and pool, stranded ones only the alias, every other alias is as it was, whoever configured it, and no more than `max_tenants` are kept; it says which calls succeed and what the dictionary becomes |
| `TenantPools.RunInv` | hypern/database.py:550-567 | that holds after every sequence of calls, with arbitrary failures, on every registry its own operations can produce |
| `TenantPools.AlreadyConfiguredIff` | hypern/database.py:76-93 | a call raises "already configured" if and only if someone else configured the alias or an earlier call for the same tenant failed to create its pool |
| `TenantPools.StatusIs` | hypern/database.py:76-121 | how every request ends, by what came before it: served, already configured, unsupported scheme or failed pool, in this order |
| `TenantPools.KeptDriver` | hypern/database.py:79-121 | after every sequence of calls a kept tenant is configured with the driver of the request that last added it, and its pool is a native one if and only if that is PostgreSQL |
| `TenantPools.StrandedDriver` | hypern/database.py:79-92 | a stranded alias has the driver of the request whose pool could not be created |
| `TenantPools.LruUnderFailures` | hypern/database.py:550-567 | with arbitrary failures, the dictionary in order is the most recent distinct tenants among the successful requests, as many as it holds |
| `TenantPools.KeptCount` | hypern/database.py:555-566 | a new tenant adds one up to the limit, a failed request leaves at most `max_tenants - 1` |
| `TenantPools.FailureEvictsIff` | hypern/database.py:555-566 | a failed request evicts the oldest tenant and closes its pool if and only if the dictionary was full |
| `TenantPools.ConfiguredIff` | hypern/database.py:76-93 | an alias is configured if and only if its tenant is kept or stranded or someone else configured it |
| `TenantPools.StaysCoherent` | hypern/database.py:40-166 | every operation of the registry keeps its four tables coherent |
| `TenantPools.KeepsMostRecentTenants` | hypern/database.py:550-567 | if every request can be served, the dictionary in order is the last `max_tenants` distinct tenants by most recent use, and of the aliases nobody else configured exactly theirs are configured and have a pool |
| `TenantPools.RecentStep` | hypern/database.py:551-566 | moving to the end and evicting the first is one step of most-recent-use order |
| `TenantPools.CloseAllInv` | hypern/database.py:585-590 | closing all keeps the two registries in step |
| `Tasks.RunInv` | src/core/tasks.rs:122-329 | that holds in every state of every run |
| `Tasks.StepInv` | src/core/tasks.rs:122-329 | every step keeps each task in exactly one of pre-send, queue, one worker's hands or done, where a send after the last worker stopped is refused, and the status table consistent with it |
| `Tasks.HandlerRunsAtMostOnce` | src/core/tasks.rs:231-329 | in every interleaving no task's handler is called twice |
| `Tasks.FinalForever` | src/core/tasks.rs:181-222 | a completed or failed record never changes; clean-up may drop it and it never comes back |
| `TaskHistory.RecordIsStory` | src/core/tasks.rs:181-329 | in every state of every run a task has a record unless it was cleaned up after it was published, and status, result, error and both times are those told by its start, handler call, publication and cancellation |
| `TaskHistory.FinalIff` | src/core/tasks.rs:300-329 | a record is final if and only if it was published; it is Completed with result `r` and no error if the task's one `Run` step returned `r`, Failed with `e` and no result if it raised `e`, with the times of the `Start` and `Publish` steps |
| `TaskHistory.SkippedWasCancelled` | src/core/tasks.rs:242-247 | a worker drops a task only if it was cancelled before it started |
| `TaskHistory.QueueIsFifo` | src/core/tasks.rs:122-160 | tasks are taken in the order in which they were sent |
| `Tasks.CancelledInTimeNeverRuns` | src/core/tasks.rs:242-247 | a task cancelled before its worker's check never runs, whatever follows |
| `Tasks.CancelledRunsIff` | src/core/tasks.rs:242-266 | a cancelled task can still run if and only if a worker had passed its check |
| `Tasks.CancelCanBeTooLate` | src/core/tasks.rs:249-266 | every executor has a run in which a cancelled task runs |
| `TaskLock.DeadlockIff` | src/core/tasks.rs:122-160 | while a `submit` has the interpreter lock, nothing at all can happen any more if and only if the queue is full and every worker that has not stopped waits for that lock |
| `TaskLock.HangsIff` | src/core/tasks.rs:122-160 | a running executor with workers can come there within n submissions if and only if n exceeds the queue's capacity plus the workers; after a shutdown, if and only if n exceeds the capacity plus one |
| `RequestContext.DatabaseContext.Begin` | src/database/request_context.rs:143-163 | starts a transaction once, connecting first; failures change only what the source changes |
| `RequestContext.DatabaseContext.Commit` | src/database/request_context.rs:165-183 | commits only in a transaction, and leaves it only if the server agreed |
| `RequestContext.DatabaseContext.Rollback` | src/database/request_context.rs:185-203 | the same for rolling back |
| `RequestContext.DatabaseContext.Finalize` | src/database/request_context.rs:241-285 | ends an open transaction by its error and auto-commit flags, then gives the connection back |
| `RequestContext.EveryRunIsBracketed` | src/database/request_context.rs:125-285 | in every run with arbitrary server errors BEGIN, COMMIT and ROLLBACK are well bracketed on held connections and `in_transaction` implies a connection |
| `RequestContext.ReleasesOpenIff` | src/database/request_context.rs:241-285 | if failed statements may or may not have taken effect, a connection can go back with a transaction open if and only if the last BEGIN, COMMIT or ROLLBACK on it is a failed BEGIN |
| `RequestContext.NeverReleasesOpenTransaction` | src/database/request_context.rs:241-285 | so without a failed BEGIN before it, no connection goes back with a transaction open |
| `RequestContext.FailedBeginCanLeak` | src/database/request_context.rs:143-163 | a failed BEGIN and the end of the request is such a run |
| `RequestContext.FinalizeAfterErrorNeverCommits` | src/database/request_context.rs:241-285 | after `set_error` and any further calls, finalizing never commits, and rolls back if it succeeds in a transaction |
| `RequestContext.EveryCallAdds` | src/database/request_context.rs:125-285 | for every run and next call, exactly which events it adds and whether it succeeds, from the calls made and the log: in a transaction `finalize` adds COMMIT if and only if there was no `set_error` and the last `set_auto_commit`, if any, was on, otherwise ROLLBACK; outside one it adds no statement |
| `RequestContext.FlagsAreHistory` | src/database/request_context.rs:101-111 | the error flag is set if and only if `set_error` was called, auto-commit is off if and only if it was last switched off |
| `RequestContext.StateIsHistory` | src/database/request_context.rs:97-285 | the reported state is the one the calls and the log tell |
| `RequestContext.ContextMap.GetOrCreate` | src/database/request_context.rs:442-494 | returns the one shared context object of the request and alias, new if there was none, and leaves all others in place |
| `RequestContext.ContextMap.FinalizeOne` | src/database/request_context.rs:461-473 | finalizes the shared object and forgets it, keeps it on failure, and does nothing without one |
| `RequestContext.ContextMap.FinalizeAll` | src/database/request_context.rs:475-485 | succeeds if and only if every context's finalization does; then none is left for that request. What left the table was finalized with success, and other requests are untouched |
| `RateLimit.RateLimitState.CheckFixedWindow` | src/middleware/builtin.rs:347-361 | the in-place check is the value-level one, wrap-around of `remaining` included |
| `RateLimit.RateLimitState.CheckSlidingWindow` | src/middleware/builtin.rs:363-385 | the same for the weighted count |
| `RateLimit.RateLimitState.CheckTokenBucket` | src/middleware/builtin.rs:387-409 | the same for refill and consumption |
| `RateLimit.BucketAccount` | src/middleware/builtin.rs:387-409 | over any run tokens stay in `[0, bucket_size]` and admissions plus tokens left never exceed tokens held plus tokens earned |
| `RateLimit.TokenIff` | src/middleware/builtin.rs:387-409 | a request is admitted if and only if the bucket, refilled and capped, holds a whole token; it pays one and is told the whole ones left |
| `RateLimit.BurstAfterPause` | src/middleware/builtin.rs:387-409 | after a pause that fills the bucket, exactly `bucket_size` of a burst pass |
| `RateLimit.AdmissionsSinceCreation` | src/middleware/builtin.rs:293-303 | admissions since the client was created are at most `refill_rate` × elapsed |
| `RateLimit.AdmissionsInInterval` | src/middleware/builtin.rs:387-409 | after any past, admissions in `[s, t]` are at most `bucket_size + refill_rate·(t - s)` |
| `RateLimit.WholeWindow` | src/middleware/builtin.rs:347-361 | after any past, at most `max_requests` of a window pass, the request that opens it included |
| `RateLimit.FixedWindowBound` | src/middleware/builtin.rs:347-361 | at most `max_requests` in the window that starts at creation and in every later one with its opening request, and twice that in any half-open interval one window long |
| `RateLimit.WindowVerdicts` | src/middleware/builtin.rs:347-361 | in every window exactly the first `max_requests` pass, and the i-th is told `max_requests - i`, not below 0 |
| `RateLimit.ZeroLimitStillAdmits` | src/middleware/builtin.rs:352-360 | with a limit of 0 exactly one request of every later window is admitted, the one that opens it, and it is told 2^64 - 1 remain |
| `RateLimit.SlidingCountShrinks` | src/middleware/builtin.rs:363-385 | a check at positive elapsed time leaves the count at most `max(1, previous count)` |
| `RateLimit.SlidingCountIs` | src/middleware/builtin.rs:363-385 | the new count is one more than the whole part of the old one weighted by the share of the window left, and the check passes if and only if it is within the limit |
| `RateLimit.SlidingCheckIff` | src/middleware/builtin.rs:363-385 | a check within the limit is rejected if and only if it comes at the instant the window starts and the limit is used up |
| `RateLimit.SlidingAdmitsAllIff` | src/middleware/builtin.rs:363-385 | every request of a run is admitted if and only if no more than `max_requests` come at any instant at which a window starts |
| `RateLimit.SlidingWindowNeverRejects` | src/middleware/builtin.rs:363-385 | so requests at distinct instants are all admitted |
| `RateLimit.SlidingBurst` | src/middleware/builtin.rs:375-384 | of a burst at the instant the window starts exactly the first `max_requests` pass |
| `CircuitBreaker.CircuitBreakerMiddleware.OnSuccess` | src/middleware/builtin.rs:1188-1208 | only this path's circuit changes, as the transition function says |
| `CircuitBreaker.CircuitBreakerMiddleware.OnFailure` | src/middleware/builtin.rs:1210-1231 | the same for a failure |
| `CircuitBreaker.CircuitBreakerMiddleware.Execute` | src/middleware/builtin.rs:1255-1317 | paths outside the configured prefixes pass; others are admitted by their circuit |
| `CircuitBreaker.RunRefines` | src/middleware/builtin.rs:1188-1317 | after every run the counters are those computed from the trace since the last state change, and the admission decision is the trace's |
| `CircuitBreaker.SegmentOfRun` | src/middleware/builtin.rs:1188-1317 | the trace's current segment is exactly the stretch of the run since the last state change |
| `CircuitBreaker.OpenBlocksUntilTimeout` | src/middleware/builtin.rs:1269-1298 | while open a request is admitted if and only if the timeout has passed since the latest recorded failure |
| `CircuitBreaker.ClosedCountsFailures` | src/middleware/builtin.rs:1188-1231 | while closed the count is the consecutive failures since the last success or closing, below the threshold |
| `CircuitBreaker.ClosesOnlyAfterSuccesses` | src/middleware/builtin.rs:1188-1208 | a half-open circuit closes only at the `success_threshold`th success with no failure since it became half-open |
| `Base64.TakeDigit` | src/middleware/builtin.rs:962-972 | cutting the buffer to 32 bits and the pushed byte to 8 loses no bit |
| `Base64.Base64Decode` | src/middleware/builtin.rs:954-975 | the bit-buffer loop computes the digit-wise decoding, failing on a foreign character |
| `Base64.DecodeUndoesEncode` | src/middleware/builtin.rs:954-975 | decoding inverts the encoding of every byte string |
| `Base64.AlphabetIs` | src/middleware/builtin.rs:955-956 | the table is Table 1 of RFC 4648 |
| `Base64.DecodesIff` | src/middleware/builtin.rs:954-975 | an input is decoded if and only if it is alphabet characters followed by padding |
| `Base64.BasicAuthIff` | src/middleware/builtin.rs:942-950 | a header gives a user and a password if and only if it is `Basic ` and decodes to valid UTF-8 that is the user, the first colon and the password |
| `Base64.BasicAuthRoundTrip` | src/middleware/builtin.rs:942-950 | any user without a colon and any password survive (section 2 of RFC 7617) |
| `Drain.CounterIsExact` | src/core/reload.rs:104-111 | in every interleaving `in_flight` is the number of requests between increment and decrement, and no decrement underflows |
| `Drain.UnfinishedOnlyShrinks` | src/core/worker.rs:136-172 | once draining, the set of admitted and unfinished requests only shrinks |
| `Drain.StaysZeroIff` | src/core/reload.rs:295-318 | while draining the counter stays zero for ever if and only if nobody is admitted and unfinished |
| `Drain.ZeroIsNotDrained` | src/core/worker.rs:138-150 | there is a run in which the counter is zero while draining and rises again |
| `Drain.LeaveToZero` | src/core/reload.rs:312-318 | a request sees remaining zero exactly if its decrement brought the counter to zero |
| `Drain.LastLeaverNotifies` | src/core/reload.rs:312-318 | in every run a decrement to zero taken while draining is followed by a notification before the request ends |
| `Drain.NoticeOnlyWhenDrained` | src/core/reload.rs:312-318 | in every run a notification comes only while draining, one at a time, from a request that counted out to zero |
| `Sse.Format` | src/http/streaming.rs:50-80 | the string-pushing code prints exactly the event's lines, each ended by LF |
| `Sse.PrintedIs` | src/http/streaming.rs:50-80 | the text is the id, event and retry lines that are present, the data lines and a blank line, in this order |
| `Sse.LinesCut` | src/http/streaming.rs:73 | data is cut at LF, a line loses at most one CR before it, and only there |
| `Sse.CommentIs` | src/http/streaming.rs:89-91 | a keep-alive is one comment line and a blank one |
| `Sse.DataJoined` | src/http/streaming.rs:72-76 | the data lines, joined, are the data with a final LF |
| `Sse.DecimalRead` | src/http/streaming.rs:65-69 | the printed retry is read back as the same number |
| `Sse.ParseUndoesPrint` | src/http/streaming.rs:50-91 | for every list of events and keep-alive comments, a standard parser recovers name, multi-line data, and the id and retry in force, in order |
| `Sse.DataSurvivesIff` | src/http/streaming.rs:72-79 | an event arrives with exactly its data if and only if that has no CR, is not empty and does not end in LF |
| `Channels.PatternMatches` | src/realtime/channel.rs:227-258 | the two-index loop with its shortcut is the recursive meaning of `*` and `#`, for all patterns and topics |
| `Channels.MatchesIsMeaning` | src/realtime/channel.rs:227-258 | that is: segment by segment, or up to a `#` with at least one segment left |
| `Channels.AfterHashIgnored` | src/realtime/channel.rs:240-241 | what follows `#` never matters |
| `Channels.TopicMatcher.UnsubscribeAll` | src/realtime/channel.rs:187-205 | the two loops remove the client from all patterns, drop the empty ones and count the removals |
| `Channels.TopicMatcher.MatchTopic` | src/realtime/channel.rs:208-223 | returns exactly the union over matching patterns |
| `Channels.RunIsHistory` | src/realtime/channel.rs:165-205 | after any calls a client is subscribed to a pattern if and only if it subscribed and nothing has undone it since; no pattern is empty |
| `Channels.GoneUntilItSubscribes` | src/realtime/channel.rs:187-223 | after `unsubscribe_all` a client is returned for no topic until it subscribes again |
| `Presence.PresenceTracker.Untrack` | src/realtime/presence.rs:173-203 | a departure followed by a clean-up of the channel |
| `Presence.PresenceTracker.UntrackAll` | src/realtime/presence.rs:206-222 | is a run of departures from every listed channel, repeated names included |
| `Presence.PresenceTracker.EvictStale` | src/realtime/presence.rs:311-344 | the nested loops evict exactly the stale members, each once, as a run of departures |
| `Presence.IndexAgrees` | src/realtime/presence.rs:139-222 | in every reachable state a channel is in a client's list if and only if the client is in it, once plus once per re-tracking, and no list is empty |
| `Presence.LeftAllMembers` | src/realtime/presence.rs:213-219 | a run of departures vacates exactly the named places |
| `Presence.DiffsAreHistory` | src/realtime/presence.rs:173-286 | reported diffs followed by the pending one are the whole history of joins and leaves in order, so clean-up never discards a change |
| `Presence.DiffsBalance` | src/realtime/presence.rs:139-286 | reported and pending together, joins minus leaves is 1 if present and 0 if not, plus the re-trackings while present |
| `Presence.MemberInfoIs` | src/realtime/presence.rs:139-241 | a member's record is that of its latest entry with the updates since |
| `Heartbeat.HeartbeatMonitor.CheckTimeouts` | src/realtime/heartbeat.rs:206-224 | the loop marks and reports exactly the clients that go from alive to silent, and counts them |
| `Heartbeat.HeartbeatMonitor.EvictDead` | src/realtime/heartbeat.rs:243-259 | removes exactly the clients above the retry limit |
| `Heartbeat.RetryCountIsLiveness` | src/realtime/heartbeat.rs:161-224 | in every reachable state the retry count is 0 if alive and 1 if not |
| `Heartbeat.DeadIff` | src/realtime/heartbeat.rs:243-259 | a client counts as dead if and only if `max_retries` is 0 and it timed out |
| `Heartbeat.TimedOutIff` | src/realtime/heartbeat.rs:192-224 | a client is timed out if and only if some check found it silent too long and nothing has revived or removed it since |
| `Heartbeat.TableIsHistory` | src/realtime/heartbeat.rs:161-259 | the table holds exactly the clients registered and not removed since, with the times and ids of their history |
| `Hub.RealtimeHub.Join` | hypern/realtime.py:536-556 | subscribe, track and register together, or raise with nothing changed |
| `Hub.RealtimeHub.Leave` | hypern/realtime.py:558-564 | unsubscribe, untrack and unregister |
| `Hub.RealtimeHub.Disconnect` | hypern/realtime.py:566-577 | the loop unsubscribes every listed channel |
| `Hub.RunInv` | hypern/realtime.py:518-577 | after any hub operations the tables agree and every monitored client is in some channel |
| `Hub.SameSets` | hypern/realtime.py:518-577 | per channel the subscribers, the pattern's clients and the presence members are the same set |
| `Hub.MemberIff` | hypern/realtime.py:518-577 | a client is in a channel if and only if it joined after the channel was created and neither left nor disconnected since |
| `Hub.MonitoredIff` | hypern/realtime.py:536-577 | a client is monitored if and only if it joined some channel and has left none since |
| `Hub.MemberNotMonitored` | hypern/realtime.py:558-564 | leaving one of two channels leaves a member unmonitored |
| `Hub.DisconnectRemoves` | hypern/realtime.py:566-577 | disconnect removes the client from every table and nobody else, and returns the channels it was in |
| `Broadcast.BroadcastChannel.Send` | src/realtime/broadcast.rs:296-329 | window, counters, log and outcome change as the value-level send says, for both policies |
| `Broadcast.RealtimeBroadcast.Create` | src/realtime/broadcast.rs:232-253 | a new name gets a channel of its own; an existing one is left alone |
| `Broadcast.RealtimeBroadcast.Send` | src/realtime/broadcast.rs:283-330 | a missing channel raises, an existing one sends, and no other channel changes |
| `Broadcast.WindowIsHistory` | src/realtime/broadcast.rs:296-311 | the stored ids are always the last `dedup_window` accepted ones |
| `Broadcast.BroadcastSubscriber.TryRecv` | src/realtime/broadcast.rs:157-177 | returns the oldest message still readable, and nothing only if all was read; the lag is counted |
| `Broadcast.BroadcastSubscriber.Drain` | src/realtime/broadcast.rs:180-197 | returns everything still readable, in order |
| `Broadcast.SkippedIff` | src/realtime/broadcast.rs:296-311 | a send is skipped if and only if deduplication is on and its id is among the last `dedup_window` accepted ones |
| `Broadcast.RepeatsAreFarApart` | src/realtime/broadcast.rs:296-311 | two accepted occurrences of an id are more than `dedup_window` acceptances apart |
| `Broadcast.SendsAreCounted` | src/realtime/broadcast.rs:283-343 | sends to an existing channel are `total_sent + total_deduped` |
| `Broadcast.ChannelIsHistory` | src/realtime/broadcast.rs:261-330 | the log is exactly the accepted messages sent while someone listened, and receivers, dropped and sent are counted by the history |
| `Broadcast.OutcomeIs` | src/realtime/broadcast.rs:283-330 | a send answers 0 for a repeated id, else the number of subscribers, and without any an error or 0 by the policy |
| `Broadcast.MessagesAreConserved` | src/realtime/broadcast.rs:157-197 | in every run, received + lagged + readable + overwritten but unreported is the number sent since subscribing, the last term is 0 right after a receive, and receipts are an in-order subsequence |
| `Broadcast.NothingMissedIff` | src/realtime/broadcast.rs:157-197 | nothing is missed if and only if every receive finds at most the ring's capacity unread, and then every message arrives |
| `JsonCache.JsonResponseCache.Get` | src/fast_path/json_cache.rs:56-69 | answers from a live entry and counts the hit, removes an expired one |
| `JsonCache.JsonResponseCache.InsertWithTtl` | src/fast_path/json_cache.rs:77-91 | makes room, then stores the entry |
| `JsonCache.JsonResponseCache.EvictLru` | src/fast_path/json_cache.rs:99-113 | the minimum search removes an entry with the fewest hits, none if all are saturated |
| `JsonCache.HitIsLatest` | src/fast_path/json_cache.rs:56-123 | in every run a hit returns the latest inserted bytes of the key with no invalidation or clearing since, and no older than the TTL |
| `JsonCache.RoomyCacheIsHistory` | src/fast_path/json_cache.rs:56-123 | if fewer keys than `max_size` are ever inserted, a get is exactly a look at the history |
| `JsonCache.LiveLostOnlyIf` | src/fast_path/json_cache.rs:77-113 | an insert loses a live entry only if the live ones fill the cache; then all expired ones go too, it is the only one, and it has the fewest hits |
| `JsonCache.InsertLosesIff` | src/fast_path/json_cache.rs:77-113 | an insert drops the expired entries if and only if the cache is full, and a live one exactly if the live ones still fill it and one can be found |
| `JsonCache.HitsAreGetsSince` | src/fast_path/json_cache.rs:56-69 | an entry's hits are the gets of its key since its insert, modulo 2^64 |
| `JsonCache.InsertOverflowsIff` | src/fast_path/json_cache.rs:77-113 | an insert passes the size limit if and only if the key is new and the live entries fill the cache with saturated hits |
| `JsonCache.SizeIsBounded` | src/fast_path/json_cache.rs:77-113 | before 2^64 - 1 gets the cache holds at most `max(1, max_size)` entries |
| `JsonCache.LimitCanBePassed` | src/fast_path/json_cache.rs:99-113 | after that many gets a run with one entry too many exists |

## Left out

- Sockets, HTTP serving, PyO3 and FFI calls, database drivers, Redis, gRPC, the HTTP client, logging, the CLI and OpenAPI: foreign calls without a core of their own.
- `matchit` routing, xxh3 hashing and hash collisions: keys are compared directly.
- Bytes are characters; UTF-8 decoding of headers, texts and credentials is the identity or a parameter, and white space is ASCII.
- Floating point: times, tokens and ratios are reals, so rounding is not modelled.
- `extract_boundary` and the size limits of uploads: easy members.
- Multipart names or file names with `;`, `"` or line breaks, unquoted ones with white space at an end, header parameters in another order, and transfer encodings: the encoder does not write them.
- TenantPools: other users of the registry do not change it between the requests of a run.
- MapExecutor: a worker that dies inside a callable, and callables with side effects, are not modelled; a chunk's outcome is a function of its items.
- MapExecutor: the interpreter is one with a global lock; free-threaded builds, and finalizers that run Python code inside the sending loop, are not modelled.
- Tasks: delays, the timestamps in identifiers and the Python calls are abstracted to steps; draining on shutdown is not claimed. Handlers that submit tasks themselves are not modelled.
- RequestContext: concurrent calls on one session are not modelled, a raw `BEGIN` passed to `execute` is not seen, and the pool is taken to hand out connections without an open transaction.
- RateLimit: proxies, client keys and headers are not modelled; one client's checks are atomic.
- Drain: fewer than 2^64 requests, no reset after a reload, no cancelled request futures, and no claim that `wait_for_drain` never misses a wake-up.
- Sse: what exactly arrives of data containing CR, which never arrives unchanged, and the streams that carry the events.
- Channels: publishing, statistics and removal of channels; the subscriber handle of `src/realtime/channel.rs` counts like the one of `Broadcast`.
- Presence: `clear` is not a step of the runs, since it returns to their first state and drops the pending diffs; diffs are not claimed to replay to one snapshot, since joins and leaves lose their relative order.
- Heartbeat: pings, statistics and the SSE strings.
- Hub: broadcast channels made by `create_channel`, and use of the held components behind the hub's back.
- Broadcast: the ring is a log with a capacity of at least 1 that is not rounded up to a power of two, and a send does not come between the two attempts inside one `try_recv`; channel creation and global statistics are left out.
- JsonCache: one call reads the clock once; the content type is left out.
- JsonCache.SizeIsBounded: is stated for fewer than 2^64 - 1 gets, because the limit does fail after that many.

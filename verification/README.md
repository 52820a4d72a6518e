# Verification of the chat backend's job pipeline, hash codec, message store and hub

A Dafny model of the parts of the Go chat backend where behaviour spans several functions, several goroutines or
whole runs. `dafny verify dfyconfig.toml` checks it all.

## What is modelled

**Job pipeline** (`internal/worker`, `internal/queue`). `Pipeline` is a step system with the sorted set, the producer's
hand, the bounded channel, the workers' hands, the dead-letter list, the dead-letter worker's hand, the dead-letter
documents, the retry consumer's batch, a done ledger and a lost ledger. The clock only moves forward. Every storage call
and every `HandleJob` call has an outcome chosen by the environment; shutdown and TTL deletion may happen at any time. Instants are
nanoseconds, and the document store cuts those it keeps and those it compares with to whole milliseconds.
`PipelineFlow` proves how each step moves weight between places for arbitrary weights; conservation, termination and
fairness are instances. `WorkerPools.WorkerPool` is the pool as an object with loops and fields; each of its methods is
proved to take steps of the system, so what holds of all runs holds of the object. `PipelineSteps` says what the steps do in
plain numbers, seconds and fields, and `PipelineCauses` lifts that to runs: why a job is dead, how long a document is kept and
in which order jobs leave the channel and the dead-letter list.

**Ordering key and retry delay** (`PriorityScore`). The score is computed in binary64 with rounding to nearest even
(section 4.3.1 of IEEE 754-2019), the delay in wrapping 64-bit integers.

**Password-hash text** (`TextCodec`, `PasswordHash`, `HashText`). Splitting at a delimiter, decimal numbers of bounded width, unpadded
base64 (sections 3.2 and 4 of RFC 4648), the printer and the hand-written parser. Argon2id (RFC 9106) is an arbitrary
function whose output has the requested length. `HashText` spells out the alphabet, the digits and the whole text.

**Message store** (`MessageEdits`, `MessagePaging`, `PrivateRooms`). The optimistic edit with any number of interleaved
editors, cursor paging with the in-place reversal, and find-or-create of a pair's private room.

**Websocket hub and handler** (`HubRegistry`, `Hubs`, `ConnectionCounts`, `WebSocketHandlers`). The registry of rooms and
user lists as a value with its steps, the hub and its clients as objects that take those steps, and the connection count
of one address under every interleaving of lookups, creations, increments, decrements and sweeps.

## What the proofs found

Where the code differs from what its names, comments or messages say, the model follows the code.

- `scheduleRetry` computes an instant but stores it only as an ordering key, and no pop waits for it
  (internal/worker/worker.go:19-27, 212-219). A job is popped before its time exactly when every queued job of the least
  priority is early (`PopsEarlyExactly`), and a job can spend all its calls at one instant (`RetriesAtOnce`).
- The delay wraps at the 32nd retry: it is negative, and the job sorts below its own priority class (`RetryKeyWraps`).
  The score keeps the time key's order exactly for priorities up to 900718 (`EmbedsExactly`).
- A step loses a job exactly when the last storage call it makes for that job fails (`LostExactly`). That is about the
  steps of the running pool: jobs still in `JobChannel` when the workers return on a cancelled context
  (internal/worker/worker.go:165-167) are in the channel here and go when the process does, with no failed storage call.
- The retry consumer decodes a document's `payload` as a whole job, while `StartDLQWorker` stores the job's inner payload
  there. Decoding is an arbitrary partial function here, and progress is claimed for payloads that decode.
- A document whose payload does not decode returns to `failed` without being counted, so it is ready at every tick. In any
  reachable state, with `u < BatchSize` of them open and as old as a ready document, at most
  (k*MaxRetryCount + w) / (BatchSize - u) ticks pass over it, whatever else fails, where w counts failed updates to
  `processing` (`TicksPassingOver`, `PickedInTime`); while `BatchSize` of them are older no tick ever
  picks it (`StarvedForever`). What a tick picks it attempts, unless that update fails (`PickedIsAttempted`, `AttemptedInTime`). When all payloads decode and no update fails the bound is k*MaxRetryCount / BatchSize.
- A document left in `processing` is never retried (`FrozenForever`); it gets there exactly when the update that ends its
  retry fails (`StuckExactly`). A document that does not decode never finishes (`UndecodableNeverFinishes`); after a run without
  failures all jobs can still be finished exactly when none that is dead, or has expired before the workers get it, is
  undecodable (`FinishableExactly`).
- `VerifyHash` does not look at the text before the parameters (`HeaderIgnored`), takes the items in any order and repeated, numbers
  with leading zeros, and base64 with newlines and stray low bits (`EncodeDecodedExactly`). An accepted text is the printed
  one exactly when it has none of these (`PrintParsedExactly`).
- The first edit of a message has no filter, so two first edits overwrite each other unseen; later edits lose an update
  only if a clock reading did not advance (`LostUpdateExactly`). The stored history is always the last entry alone, and
  the response to every edit but the first shows the history from before it. A missing room makes the service dereference
  a nil room before it looks at the error (internal/use-case/chat-case/chat-service.go:280-283).
- `NextCursor` is the newest id of a page, so following it shows the page again less that id (`NextCursorOverlaps`); it moves on
  exactly when the page holds a single message (`NextCursorAdvancesExactly`). With an explicit limit `has_more` is wrong exactly
  when the window holds as many messages as were asked for; with the default limit it says the page is empty, so it is right
  exactly for 1 to 20 messages (`HasMoreExactly`). The walk is therefore stated on the repository function with the smallest
  id as cursor.
- A private room asked for by one user with itself is a room with somebody else (`SelfCallFindsForeignRoom`); the room found is
  the pair's own exactly for two different users (`FoundIsPairExactly`). Two racing callers create two rooms
  (`RacingCallsDuplicate`). In every interleaving of queries and creations a pair has at most one room exactly when no
  creation commits after the pair's room has appeared (`RacesKeepOneExactly`). The retry on a "duplicate" message in `FindOrCreateRoom` is
  dead, since no error of `createPrivateRoom` carries that word.
- `Unregister` appends the tail to the whole list, so `userClients` never shrinks (`RemovalGrows`) and every join lists its
  client once more (`JoinDuplicates`).
- Closing a client takes it out of every room exactly when it is active and only in a named room that it names
  (`CloseRemovesExactly`). Closing a client that joined after it was closed does nothing (`JoinAfterCloseStays`); but a join starts
  the client's pumps again (internal/websocket/hub.go:84), and those of a closed client end at once in the cleanup, which
  takes it out again exactly if the room has a name (`ClosedJoinUndoneExactly`). A member of the room with the empty name
  stays (`EmptyRoomStays`). Over runs from the empty registry, rooms are right and hold active clients only
  exactly when every join names a room and is by a client not yet closed (`RegistryCleanExactly`).
- The cleanup a broken connection runs leaves the client active and in no room (`CleanupHides`). Its user's list still names it, but
  only rooms are searched for clients to close, and only closing cancels the context that the count-down waits for. An
  address is charged for all its clients not yet closed, and that is the number of those in rooms exactly when none has leaked
  (`EveryRunCharges`); as many peers as ConnectionsPerIP that come and go use the address up for good (`AddressUsedUp`,
  `NeverAdmitted`).
- ConnectionsPerIP can be exceeded: with at most h handshakes at a time by h - 1 and no more (`OverlapBound`,
  `OverlapReached`), so it holds exactly when handshakes do not overlap (`LimitHoldsExactly`).
- The recorded count may miss live connections (`SweptAway`). It is the number of live connections all along exactly when no call
  finds the limiter gone, counts on a replaced one, or replaces one that records connections (`CountsLiveExactly`). It
  exceeds the uncancelled connections by those on their way out (`CancelledStillCounted`, `AtomicCountsExactly`).
  `EveryRunCounts` is the bound that holds in every interleaving.

## Model

| member | source | states |
|---|---|---|
| PriorityScore.EmbedsExactly | internal/queue/producer.go:28-33 | for non-negative priorities, different time keys below 1e10 keep their order in the binary64 score iff the priority is at most 900718 |
| PriorityScore.ScoreExact | internal/queue/producer.go:28-33 | up to that priority the score is the exact integer and decodes back to priority and time key |
| PriorityScore.ScoreOrder | internal/worker/worker.go:219-219 | up to that priority scores order exactly as (priority, time key) |
| PriorityScore.ScoreCollides | internal/worker/worker.go:245-245 | from priority 900719 on, two different time keys share a score |
| PriorityScore.DelayExact | internal/worker/worker.go:213-215 | the wrapped delay is 5*2^(retry-1) seconds iff retry is at most 31 |
| PriorityScore.DelaySumClosed | internal/worker/worker.go:213-215 | n retries wait 5*(2^n - 1) seconds in all |
| PriorityScore.RetryKeyGrows | internal/worker/worker.go:212-219 | successive retry keys of a job strictly increase and stay below 1e10 while the clock is below 4.6e9 |
| PriorityScore.RetryKeyWraps | internal/worker/worker.go:213-219 | the 32nd retry's delay and key are negative and its score is below its priority class |
| PriorityScore.FloatNearest | internal/queue/producer.go:28-33 | the rounding used for the score gives a binary64 integer, and no binary64 integer is nearer |
| PipelineFlow.Flow | internal/worker/worker.go:120-256 | each step changes the weighted content of the pipeline by exactly what the moved job or document weighs at its old and new place, for every choice of weights |
| PipelineJobs.EveryRunConserves | internal/worker/worker.go:120-256 | in every reachable state an enqueued job is in exactly one of queue, producer's hand, channel, worker's hand, DLQ list, DLQ worker's hand, document, done, lost, and nothing else is anywhere |
| PipelineJobs.EveryRunBoundsCalls | internal/worker/worker.go:184-210 | over every run the pool calls HandleJob at most max(1, MaxRetry - Retry) times for a job |
| PipelineJobs.HandledAlone | internal/worker/worker.go:164-195 | the job a worker handles is in no other place |
| PipelineSteps.CheckExactly | internal/worker/worker.go:136-148 | a popped job goes on to the channel iff the second in which it expires is not over, and otherwise goes to the end of the DLQ list as "Job expired", or is lost if that push fails |
| PipelineSteps.FailureExactly | internal/worker/worker.go:197-233 | a failed job, its counter up by one and with its error, is put back into the queue iff its counter is below MaxRetry, it is not expired and the write succeeds; otherwise it goes to the DLQ list or is lost |
| PipelineSteps.PersistExactly | internal/worker/start-dlq-worker.go:44-65 | the document holds the job's id, type, payload, error and retry counter, is pending and untried and expires seven days after the insert; a failed insert puts the job back at the end |
| PipelineSteps.AttemptExactly | internal/worker/retry-dlq-worker.go:110-196 | what an attempt leaves of a document after success, after the last failure allowed and after any other, and when its update fails |
| PipelineCauses.DiesForCause | internal/worker/worker.go:136-233 | over every run in which retries can be queued, a job is in the DLQ list, in the DLQ worker's hand or in a document only if its retries are used up or the second in which it expires is over |
| PipelineCauses.DeadInOrder | internal/worker/start-dlq-worker.go:22-66 | over every run in which no insert fails, dead jobs get their documents in the order in which they died |
| PipelineCauses.KeptForAWeek | internal/worker/start-dlq-worker.go:54-54 | in every reachable state a document the TTL has deleted is more than seven days old |
| PipelineCauses.ChannelInOrder | internal/worker/worker.go:150-195 | over every run the workers receive the jobs in the order in which the producer sent them, and the channel stays within its capacity |
| PipelineDocs.EveryRunKeepsDocuments | internal/worker/retry-dlq-worker.go:88-213 | in every reachable state retry_count is in range and counts the failed calls; permanently_failed means exactly MaxRetryCount failed calls, completed means the last call was the only success |
| PipelineDocs.FrozenForever | internal/worker/retry-dlq-worker.go:50-57 | completed and permanently_failed documents, and those left in processing, never change again until the TTL deletes them |
| PipelineDocs.StuckExactly | internal/worker/retry-dlq-worker.go:138-212 | a step leaves a document in processing with nobody at work on it iff it is the failed update that ends the retry |
| PipelineDocs.UndecodableNeverFinishes | internal/worker/retry-dlq-worker.go:99-104 | in every reachable state an undecodable document is unattempted and not finished |
| PipelineDocs.EveryRunSpacesAttempts | internal/worker/retry-dlq-worker.go:50-57 | attempts k and k+1 of a document are at least RetryInterval*B^k apart and n attempts span the geometric sum, less the millisecond each stored instant may lose |
| PipelineSteps.RetryReadyExactly | internal/worker/retry-dlq-worker.go:133-150 | after the n-th attempt fails, n below MaxRetryCount, the query selects the document at an instant iff RetryInterval*B^n has passed since, to the millisecond |
| PipelineDocs.GeometricSum | internal/worker/retry-dlq-worker.go:133-136 | closed form of the sum of the backoffs |
| PipelineDocs.EveryRunBoundsAllCalls | internal/worker/retry-dlq-worker.go:88-131 | over every run, failures and shutdown included, the pool's calls and the document's calls for a job are bounded by MaxRetry - Retry (at least 1) and MaxRetryCount |
| PipelineProgress.LostExactly | internal/worker/worker.go:235-256 | a step adds to the lost ledger iff its last storage call for the job fails, and nothing leaves the ledger |
| PipelineProgress.HealthyRunsLoseNothing | internal/worker/worker.go:120-154 | without storage failure, shutdown and TTL deletion the lost ledger stays empty |
| PipelineProgress.BoundedWork | internal/worker/retry-dlq-worker.go:88-196 | once nothing more is enqueued, every healthy run makes at most as many working steps as the measure over stages, retries and document retries |
| PipelineProgress.NeverStuck | internal/worker/retry-dlq-worker.go:49-86 | unless everything is finished, some working step is possible now or at a later instant |
| PipelineProgress.SettledMeansFinished | internal/worker/worker.go:197-233 | in a settled state each enqueued job is done or its document is completed or permanently failed |
| PipelineProgress.Settles | internal/worker/retry-dlq-worker.go:36-196 | every healthy state with decodable payloads can be run to a settled one |
| PipelineProgress.EveryJobFinishes | internal/worker/retry-dlq-worker.go:88-196 | after any healthy run from the start whose jobs decode, a continuation with bounded work finishes every job enqueued |
| PipelineCompletion.FinishableExactly | internal/worker/retry-dlq-worker.go:88-213 | after any healthy run from the start, some continuation finishes every job iff no job that is dead or has expired before the workers is undecodable |
| PipelineProgress.BatchExists | internal/worker/retry-dlq-worker.go:49-59 | the oldest-first bounded query always has an answer, non-empty if a document is ready |
| PipelineOrder.EveryScoreExact | internal/worker/worker.go:212-256 | over every run each queued score is exactly the job's priority and a time key a writer gave it: ExpireAt as enqueued, CreatedAt once the pool is cancelled, or a retry instant computed earlier |
| PipelineOrder.EnqueuedKey | internal/queue/producer.go:28-33 | an enqueued job gets the score priority*1e10 + ExpireAt |
| PipelineOrder.PutBackKey | internal/worker/worker.go:243-249 | a job put back at shutdown gets the score priority*1e10 + CreatedAt |
| PipelineOrder.RetriedKey | internal/worker/worker.go:212-226 | a job whose call failed gets the score priority*1e10 + the second in which 5*2^(retry-1) seconds from now end, retry being its raised counter |
| PipelineOrder.EveryPopInOrder | internal/worker/worker.go:19-27 | whatever the interleaving of the three writers, a popped job has the smallest priority number in the queue and the smallest of the writers' time keys within it |
| PipelineOrder.PopsEarlyExactly | internal/worker/worker.go:19-27 | a job is popped before its time key iff every queued job of the least priority has a key later than the clock |
| PipelineOrder.RetriesAtOnce | internal/worker/worker.go:197-219 | a run in which the clock stands still spends every call the pool allows a job |
| PipelineOrder.DrainIsSort | internal/worker/worker.go:66-76 | draining the queue of any reachable state yields a permutation of its members sorted by priority and the writers' time keys |
| PipelineFairness.TicksPassingOver | internal/worker/retry-dlq-worker.go:49-86 | from any reachable state, failures and deletions included, ticks that pass over a ready decodable document, times the batch size less the open undecodable documents as old, are at most k*MaxRetryCount plus the wasted slots |
| PipelineFairness.PickedInTime | internal/worker/retry-dlq-worker.go:49-86 | one of any floor((k*MaxRetryCount + w)/(BatchSize - u)) + 1 ticks after any reachable state picks the document |
| PipelineFairness.PickedIsAttempted | internal/worker/retry-dlq-worker.go:83-121 | a decodable document that a tick picks has been attempted when the consumer is idle again, if no update to processing failed |
| PipelineFairness.AttemptedInTime | internal/worker/retry-dlq-worker.go:49-121 | so floor(k*MaxRetryCount/(BatchSize - u)) + 1 ticks attempt a ready document from any reachable state |
| PipelineFairness.RetriedInTime | internal/worker/retry-dlq-worker.go:123-150 | once RetryInterval*B^n has passed since the n-th attempt failed, the document is attempted again within that many ticks, unless it has been already |
| PipelineFairness.StarvedForever | internal/worker/retry-dlq-worker.go:198-213 | from any reachable state, a document younger than BatchSize + n open undecodable ones is picked by no tick of any continuation with at most n deletions and failed put-backs |
| WorkerPools.WorkerPool.PopJob | internal/worker/worker.go:66-76 | takes a member of least score as one pop step, or reports the empty queue |
| WorkerPools.WorkerPool.Produce | internal/worker/worker.go:105-154 | one turn of the producer loop is a run of pop, expiry check and send or requeue |
| WorkerPools.WorkerPool.HandlerJobFailure | internal/worker/worker.go:197-210 | raises the retry counter and routes the job as the failure step says |
| WorkerPools.WorkerPool.Work | internal/worker/worker.go:164-194 | one turn of a worker is a receive step and a handled or failed step |
| WorkerPools.WorkerPool.PersistDead | internal/worker/start-dlq-worker.go:22-66 | one turn takes the oldest dead job and inserts its document or puts it back at the end |
| WorkerPools.WorkerPool.HandleDLQRetryFailure | internal/worker/retry-dlq-worker.go:123-163 | updates the document to what the settled document is for a failed attempt |
| WorkerPools.WorkerPool.RetryDLQJob | internal/worker/retry-dlq-worker.go:88-121 | one document's retry is a run of its steps and keeps the document invariant |
| WorkerPools.WorkerPool.ProcessDLQJobs | internal/worker/retry-dlq-worker.go:36-86 | one tick is a run that starts with the query and works through the whole batch, keeping the document invariant |
| TextCodec.SplitJoin | internal/utils/hash.go:37-44 | splitting undoes joining iff no part contains the separator |
| TextCodec.JoinSplit | internal/utils/hash.go:37-44 | joining undoes splitting, and no part contains the separator |
| TextCodec.ParsePrinted | internal/utils/hash.go:58-79 | a printed number parses back iff it fits the width |
| TextCodec.DigitsPrintBackExactly | internal/utils/hash.go:58-79 | a decimal text is the one printed for its value iff it has no leading zero |
| TextCodec.DecodeEncoded | internal/utils/hash.go:27-28 | unpadded base64 decoding undoes encoding for every byte string |
| TextCodec.EncodeDecodedExactly | internal/utils/hash.go:82-90 | a decodable text is the encoding of its bytes iff it has no newline and no stray low bits |
| HashText.EncodedText | internal/utils/hash.go:27-28 | each character is the one at its digit's index in the alphabet of RFC 4648, each three bytes and their four digits are the same number, a short last group is filled with zero bits |
| HashText.DecodesExactly | internal/utils/hash.go:82-90 | a text decodes iff, line breaks aside, all its characters are in the alphabet and their number is not one more than a multiple of four |
| HashText.DecodedBytes | internal/utils/hash.go:82-90 | the bytes of an accepted text are the numbers of its digits four by four, less the low bits of a short last group |
| HashText.DecimalPlaces | internal/utils/hash.go:30-31 | each character of a printed number is the digit of its decimal place |
| HashText.ParsesExactly | internal/utils/hash.go:58-79 | a text is read as n iff it is n printed after any number of zeros and n is within the width |
| PasswordHash.HashRoundTrip | internal/utils/hash.go:30-97 | printing gives exactly six parts, and parsing them gives the parameters, salt and hash back iff the parameters fit their widths |
| PasswordHash.VerifyGenerated | internal/utils/hash.go:14-100 | a generated hash verifies its password, and another candidate exactly when Argon2id gives it the same output |
| PasswordHash.VerifyHash | internal/utils/hash.go:36-100 | the loop over the items with its early error returns reaches the verdict of the specification |
| HashText.GeneratedText | internal/utils/hash.go:14-34 | a generated hash reads `$argon2id$v=19$m=65536,t=3,p=2$`, the salt in base64, `$` and the key in base64 |
| HashText.VerdictOnPrinted | internal/utils/hash.go:82-97 | the verdict on a printed text is whether Argon2id, given its salt, passes, memory, lanes and length, returns its hash |
| HashText.ItemExactly | internal/utils/hash.go:53-80 | an item sets a parameter iff it is m, t or p, an equals sign and a number below 2^32, 2^32 or 2^8 |
| HashText.RefusedExactly | internal/utils/hash.go:37-90 | which error a text gets, the first in the order of the checks, and that any other text gets a verdict |
| PasswordHash.HeaderIgnored | internal/utils/hash.go:37-43 | the verdict depends on the last three parts only |
| PasswordHash.PrintParsedExactly | internal/utils/hash.go:30-90 | an accepted text is the one printed for what it parses to iff its header is the printed one, its items are in order without leading zeros, and its base64 is canonical |
| PasswordHash.ItemsAcceptable | internal/utils/hash.go:53-80 | the parameters parse iff every item is key=value with a known key and a number within its width |
| PasswordHash.OrderIndependent | internal/utils/hash.go:53-80 | every permutation of distinctly keyed items gives the same parameters or is rejected as well |
| MessageEdits.MessageStore.UpdateMessage | internal/repo/chat/chat-repo.go:269-300 | writes content, stamp and the one-entry history iff the filter matches |
| MessageEdits.MessageStore.BeginEdit | internal/use-case/chat-case/chat-service.go:260-311 | the service up to its write is the read step of an editor, or a refusal that changes nothing |
| MessageEdits.MessageStore.FinishEdit | internal/use-case/chat-case/chat-service.go:313-342 | its write, whatever others wrote since the read, is that editor's save step |
| MessageEdits.MessageStore.UpdatePrivateMessage | internal/use-case/chat-case/chat-service.go:260-342 | an undisturbed edit goes through exactly when the checks pass; the stored entry describes its change; which history is shown |
| MessageEdits.PlanExactly | internal/use-case/chat-case/chat-service.go:260-295 | an edit is written iff the user sent the message to this room at most 15 minutes ago, the room exists and is not deleted, the user is in it and the trimmed contents differ; each refusal names the first of these that failed |
| MessageEdits.MemberExactly | internal/use-case/chat-case/chat-service.go:367-376 | the user is a member iff it has a row and its first row is not marked as left |
| MessageEdits.EveryInterleavingIsSerial | internal/repo/chat/chat-repo.go:276-297 | with updated_at set and advancing clock readings, in every interleaving each committed edit was computed from what it replaced, the commits form a chain and the history describes the last |
| MessageEdits.LostUpdateExactly | internal/repo/chat/chat-repo.go:276-279 | of two editors of one reading, the second overwrites the first iff the reading was null or the first's stamp is not later than it |
| MessagePaging.GetPrivateMessages | internal/repo/chat/chat-repo.go:158-193 | the returned array is the newest `limit` ids of the window in ascending order |
| MessagePaging.ReverseInPlace | internal/repo/chat/chat-repo.go:188-190 | the two-index swap loop reverses the array |
| MessagePaging.PageIsNewest | internal/repo/chat/chat-repo.go:161-173 | a page is increasing, of the right size, within the window, and newer than all it leaves out |
| MessagePaging.PageOfRoom | internal/repo/chat/chat-repo.go:158-193 | a page shows messages of the room below the cursor only, at most the limit, and every one newer than the first shown, or all of them if fewer than the limit are shown |
| MessagePaging.WalkPartitions | internal/repo/chat/chat-repo.go:165-173 | the walk by smallest id ends, and its pages put together are the room's whole list, each id once |
| MessagePaging.NextCursorOverlaps | internal/use-case/chat-case/chat-service.go:128-132 | the page after the service's cursor ends with the current page less its newest id |
| MessagePaging.NextCursorAdvancesExactly | internal/use-case/chat-case/chat-service.go:128-132 | the page after the service's cursor repeats nothing iff the page holds one message |
| MessagePaging.HasMoreExactly | internal/use-case/chat-case/chat-service.go:96-134 | when has_more is set and exactly when it is right, with an explicit and with the default limit |
| PrivateRooms.RoomStore.FindOrCreateRoom | internal/repo/chat/chat-repo.go:33-57 | the returned room is private with two members, both users among them; for distinct users it is exactly the pair, the only one in either order if pairs had at most one before; nothing comes back iff there was none and the creation failed or the users are the same; existing rooms are untouched |
| PrivateRooms.OneRoomPerPair | internal/repo/chat/chat-repo.go:33-82 | over every run of atomic calls a pair's room stays the one later calls find |
| PrivateRooms.RunsKeepOne | internal/repo/chat/chat-repo.go:84-128 | over every run of atomic calls there is at most one two-member private room per pair |
| PrivateRooms.CreateKeepsOneExactly | internal/repo/chat/chat-repo.go:84-128 | a creation keeps one room per pair iff it does not succeed for a pair that has its room already |
| PrivateRooms.RacesKeepOneExactly | internal/repo/chat/chat-repo.go:33-128 | over every interleaving of queries and creations there is one room per pair at the end iff there was at the start and no commit was late |
| PrivateRooms.FoundIsPairExactly | internal/repo/chat/chat-repo.go:59-82 | the room found is the pair's own iff the users differ |
| PrivateRooms.SelfCallFindsForeignRoom | internal/repo/chat/chat-repo.go:59-82 | a room found for one user with itself has another member |
| PrivateRooms.RacingCallsDuplicate | internal/repo/chat/chat-repo.go:33-57 | two callers that both find nothing and both create leave two rooms for the pair |
| HubRegistry.EveryRunOk | internal/websocket/hub.go:61-114 | over every run of connect, join, leave, close and cleanup with named rooms, each client is in at most the room it names, no room is empty, every member is on its user's list |
| HubRegistry.MembersExactly | internal/websocket/hub.go:61-114 | a step of one client leaves everybody else in the rooms they were in; that client is in the room it connects to or joins and out of the one it leaves |
| HubRegistry.StaysUntilOwnStep | internal/websocket/hub.go:61-114 | over every run of others' steps a client stays in the rooms it is in, and in no other |
| HubRegistry.ListsOfOthers | internal/websocket/hub.go:74-131 | a step changes no list but that of the client's own user |
| HubRegistry.TotalCountsClients | internal/websocket/hub.go:326-346 | the sum over rooms is the number of distinct active clients in a room |
| HubRegistry.RegistryCleanExactly | internal/websocket/client.go:223-246 | over every run from the empty registry, rooms are right and hold only active clients all along iff every join names a room and is by a client not yet closed |
| HubRegistry.CloseRemovesExactly | internal/websocket/client.go:329-348 | closing takes a client out of every room iff it is active and only in a named room that it names |
| HubRegistry.RemovalGrows | internal/websocket/hub.go:106-115 | after the removal the client is still listed and the list is longer by what followed the client |
| HubRegistry.JoinDuplicates | internal/websocket/client.go:236-246 | in every reachable state a joining client, closed or not, is already on its user's list, and the join lists it once more |
| HubRegistry.CleanupHides | internal/websocket/client.go:344-348 | after the cleanup the client is active and in no room |
| HubRegistry.CleanupRemovesExactly | internal/websocket/client.go:344-348 | the cleanup takes a client out of every room iff it is only in a named room that it names |
| HubRegistry.JoinAfterCloseStays | internal/websocket/client.go:329-341 | closing a client that joined after its close changes nothing |
| HubRegistry.ClosedJoinUndoneExactly | internal/websocket/hub.go:78-84 | after a closed client's join and the cleanup its restarted pumps run it is in no room iff the room has a name |
| HubRegistry.EmptyRoomStays | internal/websocket/client.go:344-348 | a closed client stays in the room with the empty name |
| Hubs.Hub.Register | internal/websocket/hub.go:61-90 | adds the client to the room and to its user's list: the registry's step |
| Hubs.Hub.Unregister | internal/websocket/hub.go:93-131 | the removal from the room and the search loop over the user's list: the registry's step |
| Hubs.Hub.HandleJoinRoom | internal/websocket/client.go:223-246 | sets the room, leaves the old one and registers with the new one: the registry's step |
| Hubs.Hub.HandleLeaveRoom | internal/websocket/client.go:261-262 | leaves the room it names and keeps naming it: the registry's step |
| Hubs.Hub.Close | internal/websocket/client.go:329-348 | takes effect once per client: the registry's step |
| Hubs.Hub.GetHubStats | internal/websocket/hub.go:326-346 | the nested loops count each active client that is in its room once |
| Hubs.Hub.GetRoomStats | internal/websocket/hub.go:296-323 | connections, active connections and distinct users of a room |
| Hubs.Hub.IsUserOnlineInRoom | internal/websocket/hub.go:277-293 | true iff the room has an active client of the user |
| Hubs.Hub.Targets | internal/websocket/hub.go:154-169 | the targets of a room broadcast, each once: active members but the excepted client or user |
| Hubs.Hub.GetUserClients | internal/websocket/hub.go:262-274 | the active entries of the user's list, as often as they are listed |
| ConnectionCounts.EveryRunCounts | internal/websocket/helper.go:59-134 | in every interleaving the recorded count is between 0 and the connections counted and not yet counted down |
| ConnectionCounts.AtomicCountsExactly | internal/websocket/handler.go:119-169 | with uninterrupted handshakes and count-downs it is the number of live connections, at most ConnectionsPerIP, and that of the uncancelled ones iff none is on its way out |
| ConnectionCounts.OverlapBound | internal/websocket/handler.go:119-160 | in every interleaving with at most h handshakes at a time the count is at most ConnectionsPerIP + h - 1 |
| ConnectionCounts.OverlapReached | internal/websocket/handler.go:119-160 | and for each h some such interleaving reaches it |
| ConnectionCounts.LimitHoldsExactly | internal/websocket/handler.go:119-160 | some run with at most h handshakes at a time exceeds ConnectionsPerIP iff limiting is on, the limit is positive and h is at least 2 |
| ConnectionCounts.CountsLiveExactly | internal/websocket/helper.go:59-134 | in any interleaving the count is that of the live connections all along iff no step finds the limiter gone, counts on a replaced one or replaces one in use |
| ConnectionCounts.AtomicHandshake | internal/websocket/handler.go:119-160 | an uninterrupted handshake is counted iff the count was below the limit and the upgrade succeeded |
| ConnectionCounts.LimitExceeded | internal/websocket/helper.go:59-82 | interleaved handshakes get past every positive limit in any number |
| ConnectionCounts.SweptAway | internal/websocket/helper.go:85-134 | a sweep between lookup and increment leaves a live connection uncounted |
| ConnectionCounts.CancelledStillCounted | internal/websocket/handler.go:162-169 | a cancelled connection is counted until its goroutine has counted down |
| ConnectionCounts.DisabledCountsNothing | internal/websocket/helper.go:60-62 | with limiting disabled nothing is ever counted |
| ConnectionLeaks.EveryRunCharges | internal/websocket/handler.go:162-169 | over every joint run of hub and counts an address is charged for its clients not yet closed, which is those in rooms iff none has leaked |
| ConnectionLeaks.NeverAdmitted | internal/websocket/client.go:329-348 | an address with ConnectionsPerIP leaked clients is refused in every continuation in which they send no request |
| ConnectionLeaks.AddressUsedUp | internal/websocket/client.go:344-368 | ConnectionsPerIP connections that come and go leave the rooms empty and the address refused for good |
| WebSocketHandlers.WebSocketHandler.CheckRateLimit | internal/websocket/helper.go:59-82 | allows iff limiting is off or the count is below the limit, creating the limiter and changing no count |
| WebSocketHandlers.WebSocketHandler.UpdateConnectionCount | internal/websocket/helper.go:85-99 | changes the count of the address alone, if it has a limiter, and never below 0 |
| WebSocketHandlers.WebSocketHandler.CleanupRateLimiters | internal/websocket/helper.go:102-134 | drops exactly the limiters without connections and changes no count |
| WebSocketHandlers.WebSocketHandler.HandleWebSocket | internal/websocket/handler.go:102-160 | connects iff room, authentication, limit, capacity and upgrade allow it; then the hub takes its connect step and the count rises by one, else neither changes |
| WebSocketHandlers.WebSocketHandler.Disconnected | internal/websocket/handler.go:162-169 | the count of the address falls by one, not below 0, and no other count changes |

## Left out

- Redis, MongoDB, PostgreSQL, HTTP and websocket libraries: abstract containers whose calls succeed or fail. A call that
  reports failure is taken to have had no effect; a call that took effect and then reported failure is not modelled.
- The schema validator of the dead-letter collection (state/initMongo.go:197-262), which declares the time fields as BSON
  timestamps where the driver writes dates: whether an insert is accepted is the store's outcome, a parameter here.
- JSON: encoding and decoding of jobs are taken to be inverse and injective, so distinct jobs are distinct members of the
  sorted set, and malformed members do not occur.
- HandleJob's bodies and the broadcast payloads: an outcome, success or an error text.
- Enqueued jobs with a negative retry counter, for which the retry shift panics: the model's enqueue step admits a counter of at least 0.
- BackoffFactor is a natural number and the backoff is exact; the rounding of `math.Pow` and of the conversion to a
  duration is not modelled.
- The clock does not run while one storage step is taken; only HandleJob in the retry consumer takes time.
- After a shutdown the model lets every goroutine go on or stop at any step; the code stops some of them at once, so the
  model has more runs than the code.
- The dead-letter alert throttle and `GetDLQStats`: bookkeeping that no other step reads.
- Argon2id itself, its panics for zero passes or lanes and for a key length of 0 (an empty hash part), random salts and the constant-time comparison.
- A message that does not exist and failing store reads in the edit service: they return before anything is written.
- Negative page limits and malformed cursors.
- The message cache: keyed by room only, it answers for any cursor and is not refreshed by sends.
- Message timestamps in limiters: nothing in the code adds any, so the sweep sees none.
- JWT, refresh sessions, routing, client pumps, deadlines and channel closing: timing and plumbing; of clients only the
  effects on the registry are kept. What the pumps do with the channels that `cleanup` closes, and with the nil message a
  closed channel yields, is not modelled.
- The hub's janitor and shutdown, which close the clients they find in rooms: both are runs of close steps.

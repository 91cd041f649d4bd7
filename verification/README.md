# Passenger: concurrent protocols and data-plane loops

This project models the parts of Phusion Passenger whose correctness depends on whole runs or on
whole byte streams, and proves what they promise:

- the WebSocket command server (`CommandServer.dfy`): seven states, one current connection, one
  timer, a message buffer, deferred reconnect and shutdown;
- the command queue of the libev event loop (`SafeLibev.dfy`): submission, cancellation and
  synchronous calls from other threads, with ids that wrap around;
- the two-phase configuration change (`ConfigChange.dfy`), as the API server drives it;
- the handshake between the libev thread and the libuv poller (`BackgroundEventLoop.dfy`);
- the turbocache (`ResponseCache.dfy`), its keys (`CacheKey.dfy`), and its rules for expiry and
  invalidation (`CacheRules.dfy`);
- byte-stream loops: gathering writes (`WriteVector.dfy`), the resumable status-line parser
  (`StatusLine.dfy`), re-chunking of request bodies (`Rechunk.dfy`), and the NUL-separated key/value
  format with its printers and parsers (`NulPairs.dfy`);
- the include-dependency closure of the build system (`Dependencies.dfy`) and the telemetry counters
  (`Telemetry.dfy`).

`dafny verify dfyconfig.toml` checks everything.

## How the model is built

An object that the source updates in place is a class with those fields, and a loop is a method with
a loop. Each such method is proved equal to a function on values (`...Model` modules hold those
functions), and the whole-run theorems are about the functions. Threads are modelled as a step
relation: one `Action` is one atomic step of one thread, `Enabled` says when it can be taken, `Run`
follows any legal schedule. Libraries are an environment that may do anything `Enabled` allows.

Assumptions about the environment, each visible in an `Enabled` predicate or a parameter:

- WebSocket library: a connection opens at most once and before any message or pong; failure is
  reported only for a connection that never opened; a pong timeout follows a ping (sections 5.5 and 7
  of RFC 6455). A timer that was cancelled does not fire. A message handler that did not reply at
  once calls `doneReplying` once. Events run one at a time on the event loop.
- libev: a pending async watcher is eventually noticed by its loop, and `ev_async_send` sets it.
- Poller thread: its blocking poll is an interruption point, `uv_sem_wait` is not.
- `writev` fails, is not ready, or takes a prefix; `recv` returns a non-empty prefix of what was
  asked for, or nothing at the end of the stream. Both follow an arbitrary schedule given as a
  parameter, or chosen by an object that the contract does not mention.
- Clocks, the hash function, the parsers of dates, numbers and URLs, and the message handler are
  parameters.

## Where code and comments disagree

The model follows the code.

- `src/cxx_supportlib/WebSocketCommandReverseServer.h:893` says that shutdown finishes replies in
  flight. Lines 406-411 close at once. `ShutdownFinishesRepliesIff`: the promise is kept exactly when no
  reply is under way; `ShutdownCutsReply` gives a run with an empty buffer. What is buffered is not even
  handed to the handler (`ShutdownHandlesAllIffNothingBuffered`, `ShutdownDropsRequest`).
- `src/cxx_supportlib/WebSocketCommandReverseServer.h:723-728` ignores a pong timeout during a reply
  and does not arm the timer again: from then on the connection is no longer probed. `KeepaliveCanDie`
  gives a run, `KeepaliveDiesOnlyWhenTimeoutIgnored` shows that this is the only way.
- `src/cxx_supportlib/SafeLibev.h:278-284` says that `false` from `cancelCommand` means that the
  callback was called or is being called. It may still be waiting in the drained batch, or have been
  canceled before (`FalseMeansCalledIff`, `RefusedCancelRunsLater`, `RefusedCancelNeverRuns`). It also
  says that `true` means that the callback will not be called in the future; when the id was issued
  again, another command is marked and the callback is called if it was still waiting
  (`TruePromiseBrokenIff`, `ToldTrueThenCalled`). The other command may be that of a `runSync` call, which
  then blocks forever (`WaiterServedIff`, `StaleCancelStrandsWaiter`).
- Re-chunking ends the body early at an empty buffer that is not the last, and never sends the
  terminating chunk when the whole body was there before the request was created and its last buffer
  holds data (`BodyKeptIff`, `BodySurvives`, `EmptyBufferCutsBody`).
- The overflow branch of the telemetry report is written for 64-bit counters, but
  `totalRequestsBegun` is an `unsigned long` (`CounterRightIff`, `TotalRightIffNoWrap`,
  `NarrowCounterMiscounts`).
- `src/agent/Core/ResponseCache.h:285` guards the text behind `max-age` with a test that always holds;
  `OutOfRangeIff` says when asking for that text raises an exception. Expires is consulted before
  max-age, against section 5.3 of RFC 7234 (`MaxAgeHonouredIff`, `PastExpiresDefeatsMaxAge`).
- `src/agent/Core/ResponseCache.h:148-163` adds up a key's length in 32 bits. When that sum wraps around
  to an allowed length, the key does not fit the buffer it is given (`LengthRightIff`, `KeepsBehindIff`,
  `WrappedLengthOverruns`).

## Model

| member | source | states |
|---|---|---|
| CommandServerModel.EveryRunIsSound | src/cxx_supportlib/WebSocketCommandReverseServer.h:413-956 | in every run under the environment's promises: no unsupported-state branch is reached, a server that is not connected and not shutting down has its timer armed, a connecting one has not, a deferred reconnect is pending only during a reply, shutdown leaves no connection and no timer; on the current connection handled messages followed by the buffer are the received ones, and every reply but the one under way is finished |
| CommandServerModel.StepKeepsInv | src/cxx_supportlib/WebSocketCommandReverseServer.h:616-790 | each of the eleven events keeps that invariant |
| CommandServerModel.DoneReplyingKeepsInv | src/cxx_supportlib/WebSocketCommandReverseServer.h:915-956 | on a live current connection doneReplying always finds the state Replying, and its loop over the buffer loses, repeats or reorders no message |
| CommandServerModel.IncomingKeepsInv | src/cxx_supportlib/WebSocketCommandReverseServer.h:748-790 | a message on an opened connection keeps the invariant, whether it is handled at once, buffered or ignored |
| CommandServerModel.TimeoutKeepsInv | src/cxx_supportlib/WebSocketCommandReverseServer.h:683-715 | an armed timer never fires in an unsupported state, and reconnecting or pinging keeps the invariant |
| CommandServerModel.CloseKeepsInv | src/cxx_supportlib/WebSocketCommandReverseServer.h:573-601 | closing establishes the invariant from any sound set of connections |
| CommandServerModel.RunSparesPast | src/cxx_supportlib/WebSocketCommandReverseServer.h:310-339 | a connection that stopped being current never becomes current again, and none of its messages is received or handled and none of its replies finished afterwards, in every run |
| CommandServerModel.ReconnectIsMade | src/cxx_supportlib/WebSocketCommandReverseServer.h:549-565 | in every run after a request to reconnect: a waiting server has closed its connection, a connecting one has dropped it, and a replying one has closed it once the reply is done, whatever happened in between |
| CommandServerModel.ReconnectIsScheduled | src/cxx_supportlib/WebSocketCommandReverseServer.h:549-601 | at that moment the server is not connected, its timer is armed and no reconnect is pending any more |
| CommandServerModel.ReconnectWaitsForReply | src/cxx_supportlib/WebSocketCommandReverseServer.h:559-561 | during a reply nothing but the pending reconnect changes |
| CommandServerModel.PlainCommitChangesNothing | src/cxx_supportlib/WebSocketCommandReverseServer.h:360-368 | a configuration change that needs no reconnect, or finds no connection, changes nothing |
| CommandServerModel.TimeoutProbes | src/cxx_supportlib/WebSocketCommandReverseServer.h:683-715 | a timeout on a connection in use sends a ping, or closes the connection and schedules the next attempt |
| CommandServerModel.TimeoutConnects | src/cxx_supportlib/WebSocketCommandReverseServer.h:413-493 | a timeout without a connection starts one, or schedules the next attempt |
| CommandServerModel.PongTimeoutCloses | src/cxx_supportlib/WebSocketCommandReverseServer.h:717-735 | a pong timeout closes a connection on which no reply is under way and schedules the next attempt |
| CommandServerModel.OpenedIsServed | src/cxx_supportlib/WebSocketCommandReverseServer.h:616-631 | a connection that opens waits for requests with an empty buffer and its first probe scheduled |
| CommandServerModel.MessageIsTaken | src/cxx_supportlib/WebSocketCommandReverseServer.h:748-790 | a message on the current open connection is handled at once if no reply is under way, and otherwise goes behind the buffered ones |
| CommandServerModel.NextMessageIsHandled | src/cxx_supportlib/WebSocketCommandReverseServer.h:936-953 | when a reply ends with no reconnect pending, the first buffered message is handled |
| CommandServerModel.ShutdownIsFinal | src/cxx_supportlib/WebSocketCommandReverseServer.h:406-411 | once shutdown was requested no connection is ever created and no message ever handled |
| CommandServerModel.ShutdownClosesConnection | src/cxx_supportlib/WebSocketCommandReverseServer.h:573-601 | in every run after shutdown the connection is closed or being closed |
| CommandServerModel.ShutdownFinishesRepliesIff | src/cxx_supportlib/WebSocketCommandReverseServer.h:892-905 | whatever happens after shutdown, the replies on the current connection are all finished if and only if the server was waiting for a request; a reply under way and the replies to buffered messages are never finished |
| CommandServerModel.ShutdownHandlesAllIffNothingBuffered | src/cxx_supportlib/WebSocketCommandReverseServer.h:406-411 | exactly the buffered messages are kept from the handler for good: all received ones were handed to it if and only if the buffer was empty |
| CommandServerModel.ShutdownCutsReply | src/cxx_supportlib/WebSocketCommandReverseServer.h:892-905 | a run in which shutdown cuts off the reply in flight with nothing buffered |
| CommandServerModel.ShutdownDropsRequest | src/cxx_supportlib/WebSocketCommandReverseServer.h:892-905 | a run in which shutdown cuts off a buffered request |
| CommandServerModel.CanAlwaysServeAgain | src/cxx_supportlib/WebSocketCommandReverseServer.h:633-681 | from every reachable state without shutdown there is a continuation to waiting for requests |
| CommandServerModel.KeepaliveCanDie | src/cxx_supportlib/WebSocketCommandReverseServer.h:717-735 | a run after which an open connection is neither probed nor about to be |
| CommandServerModel.KeepaliveDiesOnlyWhenTimeoutIgnored | src/cxx_supportlib/WebSocketCommandReverseServer.h:717-746 | in a reachable state an event ends the probing of the open current connection if and only if it is its pong timeout during a reply |
| CommandServer.Server.FinishReply | src/cxx_supportlib/WebSocketCommandReverseServer.h:915-956 | the `goto begin` loop terminates and equals the recursive meaning of doneReplying |
| CommandServer.Server.Serve | src/cxx_supportlib/WebSocketCommandReverseServer.h:413-956 | the object, fed any legal sequence of events, follows the model's run, keeps the invariant and trips none of its own assertions |
| SafeLibevModel.EveryInterleaving | src/cxx_supportlib/SafeLibev.h:89-301 | for every interleaving of producers, the loop, and cancelers of any ids at any time: callbacks are called in submission order, each at most once; those behind the loop's frontier were called exactly if their command was not marked; an announced command always has a wake-up pending; a waiting runSync is marked done only after its callback ran |
| SafeLibevModel.RunsIffUnmarked | src/cxx_supportlib/SafeLibev.h:89-101 | a submitted callback can still be called, or was, if and only if its command is not marked |
| SafeLibevModel.MarkedIsTold | src/cxx_supportlib/SafeLibev.h:278-301 | as long as holders cancel while fewer than MAX_COMMAND_ID ids were issued since theirs, at most that many commands are queued, and nobody cancels an id that is not its own, the marked commands are exactly those whose holder was told true |
| SafeLibevModel.CanceledNeverRuns | src/cxx_supportlib/SafeLibev.h:278-301 | a command whose cancelCommand returned true is not called in any continuation, if all cancelations until then were within that bound |
| SafeLibevModel.TruePromiseBrokenIff | src/cxx_supportlib/SafeLibev.h:278-301 | without any bound: after the answer true the callback is called in some continuation, not having been called before, if and only if its command still waits in the drained batch, or in the queue behind MAX_COMMAND_ID others, and was not marked before |
| SafeLibevModel.ToldTrueThenCalled | src/cxx_supportlib/SafeLibev.h:278-301 | a run in which the answer is true and the callback is called after it |
| SafeLibevModel.CancelHitsItsTicket | src/cxx_supportlib/SafeLibev.h:278-301 | within the bound canceling succeeds exactly when the command is still queued, and hits it and no other |
| SafeLibevModel.CancelTarget | src/cxx_supportlib/SafeLibev.h:278-301 | canceling an id marks the holder's own command if and only if it is among the first MAX_COMMAND_ID of the queue |
| SafeLibevModel.AnyIdCancelsFirst | src/cxx_supportlib/SafeLibev.h:285-301 | whoever cancels an id, the first queued command with it is marked and no other; without one, or for 0, nothing changes |
| SafeLibevModel.CancelHitsAnother | src/cxx_supportlib/SafeLibev.h:278-301 | outside the bound the answer is true while another command is marked |
| SafeLibevModel.IdHeldTooLong | src/cxx_supportlib/SafeLibev.h:127-133 | from any state just after a callback ran there is a run that reuses its id |
| SafeLibevModel.IdsFollowTickets | src/cxx_supportlib/SafeLibev.h:127-133 | the id counter is the submission number modulo MAX_COMMAND_ID, plus one, across wrap-around |
| SafeLibevModel.PendingIdsDistinctIff | src/cxx_supportlib/SafeLibev.h:52-68 | queued ids are pairwise distinct if and only if at most MAX_COMMAND_ID commands are queued |
| SafeLibevModel.FalseMeansCalledIff | src/cxx_supportlib/SafeLibev.h:278-301 | whenever the id was issued: after the answer false the callback was called or is being called if and only if its command is not waiting in the drained batch and was not marked by an earlier cancelation |
| SafeLibevModel.RefusedCancelNeverRuns | src/cxx_supportlib/SafeLibev.h:278-301 | a run in which a second cancelation is answered with false although the callback was not called, and is called in no continuation |
| SafeLibevModel.RefusedCancelRunsLater | src/cxx_supportlib/SafeLibev.h:89-101 | a run in which cancelCommand answers false and the callback is called afterwards |
| SafeLibevModel.WaiterKeepsLoopAwake | src/cxx_supportlib/SafeLibev.h:235-247 | no blocked runSync call whose command is not marked waits on an idle loop without a pending wake-up |
| SafeLibevModel.ReturnMeansRan | src/cxx_supportlib/SafeLibev.h:120-125 | runSync can return only after its own callback ran |
| SafeLibevModel.LoopServesWaiter | src/cxx_supportlib/SafeLibev.h:235-247 | from every reachable state the loop alone signals a blocked runSync call whose command is not marked, after finitely many steps |
| SafeLibevModel.WaiterServedIff | src/cxx_supportlib/SafeLibev.h:235-247 | a blocked runSync call can be served if and only if its command is not marked |
| SafeLibevModel.WaitersServedInBounds | src/cxx_supportlib/SafeLibev.h:235-301 | while all cancelations are within the bound no blocked runSync call is marked |
| SafeLibevModel.StaleCancelStrandsWaiter | src/cxx_supportlib/SafeLibev.h:127-133 | a run in which the holder of an old id is told true and thereby leaves a runSync call blocked in every continuation |
| SafeLibevModel.LoopRunsBatch | src/cxx_supportlib/SafeLibev.h:89-101 | a drained batch is worked off in order, canceled commands skipped, the queue untouched |
| SafeLibev.Queue.Submit | src/cxx_supportlib/SafeLibev.h:265-276 | the object takes the system's push step and returns the id of the submission's number |
| SafeLibev.Queue.CancelCommand | src/cxx_supportlib/SafeLibev.h:278-301 | the scanning loop takes the system's cancel step for any id, and answers true exactly when a queued command was hit |
| SafeLibev.Queue.RunCommands | src/cxx_supportlib/SafeLibev.h:89-101 | one undisturbed activation is a run of the system's loop steps that empties the queue and calls its uncanceled commands in order |
| ConfigChangeModel.ChangeIsAllOrNothing | src/agent/Core/ConfigChange.cpp:164-336 | for any number of parties and any order of work, reports, callbacks and client disconnects: each callback is launched at most once, the configuration changes only if no component objected, then every party commits exactly once with a prepared sub-request, and the request is freed once and released once |
| ConfigChangeModel.PatientClientIsAnswered | src/agent/Core/ApiServer.h:523-595 | if the client stays, every run that ends makes the change exactly when no component objects, and answers once, with 200 or 500 accordingly |
| ConfigChangeModel.LeftOutOnlyIfClientGone | src/agent/Core/ApiServer.h:523-595 | a change that nobody objects to is left out only if the client went away |
| ConfigChangeModel.NothingAfterClientGone | src/agent/Core/ApiServer.h:537-545 | once the client has gone nothing is answered, and a change that is not yet in effect is never made |
| ConfigChangeModel.ReportedErrors | src/agent/Core/ConfigChange.cpp:83-99 | the errors behind the answer 500 are those of all components, or of the store alone, each message once |
| ConfigChangeModel.ReportGoesToFront | src/agent/Core/ConfigChange.cpp:101-159 | what a party reports goes before what was reported earlier |
| ConfigChangeModel.StepKeepsInv | src/agent/Core/ApiServer.h:523-595 | each step keeps: the counter is the number of parties that have not reported; after a launch all have reported and nobody else touches the request; the collected messages are those of the inline components and of every party that reported |
| ConfigChangeModel.CollectedIsComplete | src/agent/Core/ConfigChange.cpp:83-99 | the messages given to the prepare callback are exactly the union of all reported ones |
| ConfigChangeModel.DeduplicateKeepsMessages | src/cxx_supportlib/ConfigKit/Utils.h:71-88 | deduplication keeps every message once |
| ConfigChangeModel.DeduplicateKeepsFirst | src/cxx_supportlib/ConfigKit/Utils.h:71-88 | what stays of each message is its first error |
| ConfigChangeModel.EveryStepAdvances | src/agent/Core/ConfigChange.cpp:101-159 | every step but a client disconnect brings the end of the job closer |
| ConfigChangeModel.JobNeverStalls | src/agent/Core/ConfigChange.cpp:234-336 | until the job is over some party, callback or continuation can act |
| ConfigChange.DeduplicateErrors | src/cxx_supportlib/ConfigKit/Utils.h:71-88 | the loop over the errors computes the deduplicated list |
| ConfigChange.ChangeRequest.AsyncPrepare | src/agent/Core/ConfigChange.cpp:164-228 | one count for the caller and one per scheduled party, or an immediate end on errors of the store |
| ConfigChange.ChangeRequest.AsyncCommit | src/agent/Core/ConfigChange.cpp:284-336 | one count for the caller and one per party |
| BackgroundEventLoop.HandshakeIsSafe | src/cxx_supportlib/BackgroundEventLoop.cpp:119-221 | in every interleaving over any number of starts and stops: uv_run never overlaps the poller's reading of the timeout or its poll, the semaphore is at most 1, and after stop everything is as the constructor left it |
| BackgroundEventLoop.ActivityIsProcessed | src/cxx_supportlib/BackgroundEventLoop.cpp:133-138 | in every run each return of the poll is followed by one uv_run before the poller polls again |
| BackgroundEventLoop.HandshakeSteps | src/cxx_supportlib/BackgroundEventLoop.cpp:133-221 | the five steps of the handshake are possible one after the other and bring the poller back to its loop, through one uv_run |
| BackgroundEventLoop.EveryStartEndsWithLibuv | src/cxx_supportlib/BackgroundEventLoop.cpp:119-131 | when stop has returned, the loop thread of every start has gone through its last uv_run |
| BackgroundEventLoop.StepKeepsInv | src/cxx_supportlib/BackgroundEventLoop.cpp:119-221 | each step keeps: pending activity, running callback and semaphore add up to 1 exactly while the poller waits; nobody passes the barrier before all arrived |
| BackgroundEventLoop.EveryStepServesStop | src/cxx_supportlib/BackgroundEventLoop.cpp:348-361 | once stop was called every step of every thread lowers a bound on what is left |
| BackgroundEventLoop.StopNeverBlocks | src/cxx_supportlib/BackgroundEventLoop.cpp:348-361 | and some thread can always take a step |
| BackgroundEventLoop.StopAlwaysEnds | src/cxx_supportlib/BackgroundEventLoop.cpp:326-361 | every schedule that is long enough leaves stop, in the state from which start was first called |
| ResponseCacheModel.LookupIsKeySearch | src/agent/Core/ResponseCache.h:219-229 | for every hash function the hash-filtered search finds a slot exactly when the key is in the map, and the slot holds its entry |
| ResponseCacheModel.SizeIsUsedCount | src/agent/Core/ResponseCache.h:50-55 | the map has at most as many keys as slots, and as many exactly when all are valid |
| ResponseCacheModel.VictimIsOldest | src/agent/Core/ResponseCache.h:231-243 | the slot to overwrite is in use exactly when the cache is full, and then holds an entry of minimal date |
| ResponseCacheModel.InsertRefines | src/agent/Core/ResponseCache.h:630-662 | writing a new key over that slot adds its binding, at the expense of an oldest one exactly when the cache was full |
| ResponseCacheModel.UpdateRefines | src/agent/Core/ResponseCache.h:630-662 | writing a known key over its slot changes its binding only |
| ResponseCacheModel.ContentIsLatestStore | src/agent/Core/ResponseCache.h:541-680 | the map has an entry under a key if and only if it is the latest store for that key not since invalidated, cleared, evicted or found stale |
| ResponseCache.Cache.Search | src/agent/Core/ResponseCache.h:219-229 | the loop returns the first slot that is valid and passes hash and key comparison |
| ResponseCache.Cache.FindVictim | src/agent/Core/ResponseCache.h:231-243 | the first invalid slot, or else the first of minimal date |
| ResponseCache.Cache.Erase | src/agent/Core/ResponseCache.h:245-248 | the slot's key leaves the map, nothing else changes |
| ResponseCache.Cache.Clear | src/agent/Core/ResponseCache.h:475-479 | the map is empty |
| ResponseCache.Cache.Fetch | src/agent/Core/ResponseCache.h:541-564 | a hit exactly when the key is stored with an expiry later than now; the entry is the latest store; a stale entry is dropped; the counters survive roll-over |
| ResponseCache.Cache.Store | src/agent/Core/ResponseCache.h:630-662 | refused exactly for oversized or undatable responses, an exception exactly where the expiry date raises one; otherwise the map gets the binding with the determined dates, and another one goes only if eight others were stored, and it is of minimal date |
| ResponseCache.Cache.InvalidateLocation | src/agent/Core/ResponseCache.h:334-409 | exactly the resource that the header names on the request's own host leaves the map, and the history only gains its removal |
| ResponseCache.Cache.Invalidate | src/agent/Core/ResponseCache.h:672-680 | exactly the request's key and those named by the two location headers leave the map, and the history only gains removals of these keys |
| CacheRules.FreshWhenStoredIff | src/agent/Core/ResponseCache.h:268-318 | a response that gets an expiry date is fresh when stored if and only if it has no Expires header or that header's date lies ahead |
| CacheRules.ExpiresDecides | src/agent/Core/ResponseCache.h:268-280 | with an Expires header its date is the expiry date, and one that cannot be parsed is refused |
| CacheRules.MaxAgeDecides | src/agent/Core/ResponseCache.h:282-295 | without one, `max-age` with any number above 0 is the lifetime, within one second, and 0 is refused |
| CacheRules.AgeDecides | src/agent/Core/ResponseCache.h:297-307 | without either, for a past Last-Modified date, the lifetime is the larger of a tenth of the age and one second, within 1.1 seconds |
| CacheRules.DefaultDecides | src/agent/Core/ResponseCache.h:297-313 | otherwise it is ten seconds, or one for a date that cannot be parsed, within one second |
| CacheRules.RecordedDate | src/agent/Core/ResponseCache.h:250-266 | the date recorded for a response is that of its Date header, or the time of storing |
| CacheRules.OutOfRangeIff | src/agent/Core/ResponseCache.h:281-294 | finding the expiry date raises an exception if and only if there is no Expires header and the Cache-Control header ends with its first max-age |
| CacheRules.BareMaxAgeRaises | src/agent/Core/ResponseCache.h:281-294 | it does for the header `max-age` alone |
| CacheRules.MaxAgeHonouredIff | src/agent/Core/ResponseCache.h:268-294 | the expiry date is the one that section 5.3 of RFC 7234 asks for, which ignores Expires beside max-age, if and only if one of the two headers is missing or both say the same |
| CacheRules.PastExpiresDefeatsMaxAge | src/agent/Core/ResponseCache.h:268-294 | every response with a past Expires and a positive max-age is stale when stored, where by the standard it is fresh |
| CacheRules.PastExpiresExample | src/agent/Core/ResponseCache.h:268-294 | one such response |
| CacheRules.LocationStaysOnHost | src/agent/Core/ResponseCache.h:334-409 | a location header removes no entry of another host or vary cookie (section 4.4 of RFC 7234) |
| CacheRules.PathIsLocated | src/agent/Core/ResponseCache.h:390-408 | a path names the resource at that path on the request's own host and scheme |
| CacheRules.UrlIsLocated | src/agent/Core/ResponseCache.h:344-389 | a URL on the request's host, in any letter case, names the resource at its path, or `/`, with its own scheme or that of the request |
| CacheRules.ElsewhereIsNotLocated | src/agent/Core/ResponseCache.h:334-372 | a missing, empty or invalid header and one on another host name nothing |
| CacheRules.LocatedIff | src/agent/Core/ResponseCache.h:334-409 | a header removes the entry of a request if and only if it names its path and scheme, host and vary cookie agree, and the key fits |
| CacheRules.SameLowerIff | src/agent/Core/ResponseCache.h:362-376 | hosts compare equal if and only if they differ at most in the case of ASCII letters |
| CacheKey.LengthRightIff | src/agent/Core/ResponseCache.h:148-163 | the computed length is the key's, or 0 for a key over 256 bytes, if and only if the 32-bit sum does not wrap around to a length between 1 and 256 |
| CacheKey.LengthIsExact | src/agent/Core/ResponseCache.h:509-515 | so for keys below 2^32 bytes a request is refused exactly when its key exceeds 256 bytes |
| CacheKey.AppendData | src/cxx_supportlib/StrIntTools/StrIntUtils.cpp:575-580 | for any position: up to the end as much as fits is copied, behind the end everything is, the rest of the memory is untouched, and the position advances by the whole size |
| CacheKey.GenerateKey | src/agent/Core/ResponseCache.h:165-200 | for a buffer of any size: the parts of flag, host, path and cookie are appended in order |
| CacheKey.KeyExample | src/agent/Core/ResponseCache.h:165-200 | two keys byte by byte |
| CacheKey.KeyIsWritten | src/agent/Core/ResponseCache.h:165-200 | with the key's own length exactly the key is written and nothing behind it, however host and cookie are cut into parts |
| CacheKey.KeepsBehindIff | src/agent/Core/ResponseCache.h:165-200 | for a buffer of any size: what lies behind it is kept, whatever it is, if and only if no part begins there |
| CacheKey.WrappedLengthOverruns | src/agent/Core/ResponseCache.h:148-200 | with a host of 2^32 bytes the computed length wraps around and what lies behind the buffer is not kept |
| CacheKey.KeysIdentify | src/agent/Core/ResponseCache.h:165-200 | for hosts and paths without newline two keys are equal if and only if scheme, host, path and optional vary cookie are |
| CacheKey.SharesKeyIff | src/agent/Core/ResponseCache.h:165-200 | a request shares its key with some other one if and only if its host or path holds a newline or it has a vary cookie |
| WriteVector.Group.UpdateWritten | src/ruby_native_extension/passenger_native_support.c:164-197 | after a partial write exactly the unsent suffix remains, also with empty vectors |
| WriteVector.Allocate | src/ruby_native_extension/passenger_native_support.c:250-282 | room for all components in groups of IOV_MAX, the last one smaller |
| WriteVector.Place | src/ruby_native_extension/passenger_native_support.c:292-310 | a slot for the next component always exists, and group and slot indices stay in range |
| WriteVector.Distribute | src/ruby_native_extension/passenger_native_support.c:289-311 | the components lie in the groups in order, each once, with the group sizes to match |
| WriteVector.WriteGroup | src/ruby_native_extension/passenger_native_support.c:319-365 | for every schedule a group's retries send what writing its joined bytes would |
| WriteVector.GenericWritev | src/ruby_native_extension/passenger_native_support.c:221-367 | for every list of components and every schedule the call sends what plain writing of the runs of components sends, and ends the same way |
| WriteVector.SendsComponentsInOrder | src/ruby_native_extension/passenger_native_support.c:319-367 | that is a prefix of all components in order, and all of them when the call returns; it raises exactly when an attempt fails while the call is under way |
| WriteVector.RaisesIff | src/ruby_native_extension/passenger_native_support.c:347-354 | a call raises if and only if some attempt fails while it is under way |
| WriteVector.FailureRaises | src/ruby_native_extension/passenger_native_support.c:347-354 | a failed attempt ends the call with an exception and nothing more is sent |
| WriteVector.WriteReturns | src/ruby_native_extension/passenger_native_support.c:319-367 | the call returns if no attempt fails and enough of them write something, whatever refusals and empty writes come in between |
| WriteVector.ReturnValueExactIff | src/ruby_native_extension/passenger_native_support.c:367 | the number returned is that of the bytes if and only if it is below 2^31 |
| StatusLineModel.SplitIndependent | src/nginx_module/ContentHandler.c:1217-1421 | for every input and every division into reads, verdict, status, offsets and bytes consumed are those of one call |
| StatusLineModel.AcceptsStatusLine | src/nginx_module/ContentHandler.c:1217-1421 | every status line of the grammar is accepted whatever follows, with the number its digits spell and exact offsets |
| StatusLineModel.AcceptsOnlyStatusLines | src/nginx_module/ContentHandler.c:1217-1421 | what is accepted begins with a status line of the grammar |
| StatusLineModel.VerdictIsGrammar | src/nginx_module/ContentHandler.c:1217-1421 | however the stream is cut it is accepted if and only if it begins with a status line, and the status is at most 999 (section 3.1.2 of RFC 7230) |
| StatusLineModel.RejectedIff | src/nginx_module/ContentHandler.c:1217-1421 | however the stream is cut it is rejected if and only if no continuation makes it begin with a status line, so more input is asked for exactly while the line may still be completed |
| StatusLineModel.ExampleLine | src/nginx_module/ContentHandler.c:1217-1421 | one line byte by byte, with its status and offsets |
| StatusLine.Upstream.ParseStatusLine | src/nginx_module/ContentHandler.c:1217-1421 | one call on the bytes received so far advances the automaton and the saved position as the model says; on rejection neither is saved |
| StatusLine.ParseReads | src/nginx_module/ContentHandler.c:1217-1421 | the calls for successive reads reach the verdict, state and position of the model, for every division |
| Rechunk.CreateRequest | src/nginx_module/ContentHandler.c:1058-1115 | the header followed by a frame for each buffer received so far |
| Rechunk.Filter.Pass | src/nginx_module/ContentHandler.c:397-489 | the first chain passes unchanged, later ones are framed, a chain whose last buffer ends the body is followed by the terminator |
| Rechunk.StreamIsFrames | src/nginx_module/ContentHandler.c:397-489 | everything sent is the header followed by one frame per buffer or terminator |
| Rechunk.ReadHex | src/nginx_module/ContentHandler.c:1073-1085 | a size printed in hexadecimal is read back |
| Rechunk.HexIsLowerCase | src/nginx_module/ContentHandler.c:1073-1074 | sizes are printed in lower case without leading zeros |
| Rechunk.FrameExample | src/nginx_module/ContentHandler.c:1073-1110 | a frame and the terminator byte by byte |
| Rechunk.DecodedStream | src/nginx_module/ContentHandler.c:397-489 | for every body, division into buffers and sequence of calls: what a decoder after section 4.1 of RFC 7230 makes of the stream |
| Rechunk.BodySurvives | src/nginx_module/ContentHandler.c:1058-1115 | if only the last buffer may be empty, decoding yields the body, and it is seen to end unless all of it came early with data in its last buffer |
| Rechunk.BodyKeptIff | src/nginx_module/ContentHandler.c:397-489 | for every request the stream is well-formed, and the decoder gets the body if and only if no data follows an empty buffer or a chain marked as the end |
| Rechunk.EmptyBufferCutsBody | src/nginx_module/ContentHandler.c:1058-1115 | with data behind an empty buffer the body is cut there |
| NulPairsModel.RoundTrip | src/nginx_module/Configuration.c:294-321 | for every list of NUL-free pairs the C splitter and the Python parser recover the same map, in which each key has the value of its last pair |
| NulPairsModel.ParsersAgreeIff | src/helper-scripts/wsgi-loader.py:246-252 | on every byte string the Python parser fails if and only if the number of NULs is odd, and otherwise agrees with the C splitter |
| NulPairsModel.PrintedFieldsIff | src/nginx_module/Configuration.c:294-321 | for every list of pairs the fields read back are those printed if and only if no key or value holds a NUL, and the Python parser fails if and only if the NULs inside them are odd in number |
| NulPairsModel.NulIsLost | src/ruby_native_extension/passenger_native_support.c:118-147 | a key that holds a NUL, or a last value that does, never survives |
| NulPairsModel.OnePairSurvivesIff | src/ruby_native_extension/passenger_native_support.c:118-147 | a single pair survives if and only if it is free of NULs |
| NulPairsModel.OverriddenNulsDoNoHarm | src/ruby_native_extension/passenger_native_support.c:118-147 | for lists that is not necessary: a value with NULs can be overridden without a trace |
| NulPairsModel.RequestArrives | src/helper-scripts/wsgi-loader.py:230-254 | a length-prefixed request is read as it was sent and nothing behind it is consumed |
| NulPairsModel.BigEndianOrder | src/helper-scripts/wsgi-loader.py:237 | the most significant byte of the size comes first |
| NulPairs.Measure | src/nginx_module/Configuration.c:294-299 | the first pass computes the length of the printed bytes |
| NulPairs.SerializeEnvVars | src/nginx_module/Configuration.c:294-321 | the second pass fills a buffer of that length exactly, with the pairs in order |
| NulPairs.AppendEnvVars | src/apache2_module/Hooks.cpp:1022-1033 | the appended bytes are the printed pairs without SCRIPT_NAME and PATH_INFO, a missing value counting as empty |
| NulPairs.PassedHides | src/apache2_module/Hooks.cpp:1022-1026 | neither of the two names is passed on, and every name passed on is in the table |
| NulPairs.PassedKeepsOthers | src/apache2_module/Hooks.cpp:1022-1033 | every other variable is passed on in its place with its own value, or an empty one, and nothing else is |
| NulPairs.SplitByNull | src/ruby_native_extension/passenger_native_support.c:118-147 | the two scanning loops compute the map of the NUL-terminated fields, later keys winning, a key without value dropped |
| NulPairs.SplitAll | src/helper-scripts/wsgi-loader.py:246-247 | all pieces but the last are the NUL-terminated fields |
| NulPairs.FillEnv | src/helper-scripts/wsgi-loader.py:248-252 | the index loop fills the map, or runs past the end exactly for an odd number of fields |
| NulPairs.Client.RecvExactly | src/helper-scripts/wsgi-loader.py:231-243 | the read loop gets exactly the bytes asked for, or fails when the stream is shorter, however it is cut |
| NulPairs.Client.ParseRequest | src/helper-scripts/wsgi-loader.py:230-254 | result and rest of the stream depend on the stream only, not on how recv splits it |
| Dependencies.Gather | dev/index_cxx_dependencies.rb:190-200 | the search terminates on every graph, adds only reachable files, each once, and leaves no include of a new file out |
| Dependencies.GatheredIsReachable | dev/index_cxx_dependencies.rb:190-200 | from an empty result that is exactly the set of files reachable by one or more includes |
| Dependencies.GenerateFullMapFor | dev/index_cxx_dependencies.rb:202-209 | the list holds the reachable files, each once, and no others, in ascending order |
| Dependencies.BeforeIsLexicographic | dev/index_cxx_dependencies.rb:206-207 | the order of the list is that of the first character in which two names differ, a prefix coming first |
| Dependencies.GenerateFullMap | dev/index_cxx_dependencies.rb:211-217 | the same for every scanned file |
| Dependencies.FullMapIsClosed | dev/index_cxx_dependencies.rb:211-217 | the full map contains the direct includes and is transitively closed |
| Dependencies.FullMapIsLeast | dev/index_cxx_dependencies.rb:202-209 | every closed list over the direct includes contains it |
| Dependencies.FullMapIsDetermined | dev/index_cxx_dependencies.rb:202-217 | lists over graphs with the same reachability are equal, whatever the order of include lines and of the search |
| Dependencies.CyclesShareTheirList | dev/index_cxx_dependencies.rb:190-200 | files on a common include cycle have the same list, with themselves in it |
| TelemetryModel.ReportIsGrowth | src/agent/Core/TelemetryCollector.h:266-286 | with 64-bit counters, overflowing or not, the report is the true growth modulo 2^64 |
| TelemetryModel.ReportsTelescope | src/agent/Core/TelemetryCollector.h:519-650 | over any run of disabled, failed, refused and acknowledged cycles and for counters of any width the acknowledged reports add up, modulo 2^64, to the requests begun at the last acknowledged cycle less what the counters lost by wrapping |
| TelemetryModel.OnlyProcessedDataCounts | src/agent/Core/TelemetryCollector.h:519-534 | a cycle that is disabled, fails, or whose data was not processed changes nothing; any other makes what was seen the new basis and records its report |
| TelemetryModel.ReportsReachLastProcessed | src/agent/Core/TelemetryCollector.h:519-650 | the acknowledged reports reach the counts of the last cycle that was enabled, answered and processed |
| TelemetryModel.NothingProcessedNothingReported | src/agent/Core/TelemetryCollector.h:579-650 | without such a cycle the collector is as it was initialized |
| TelemetryModel.TotalRightIff | src/agent/Core/TelemetryCollector.h:519-650 | so they add up to the requests begun, modulo 2^64, if and only if that loss is a multiple of 2^64, as it always is with 64-bit counters |
| TelemetryModel.TotalRightIffNoWrap | src/agent/Core/TelemetryCollector.h:519-650 | while fewer than 2^64 requests were begun in all: if and only if no counter has wrapped |
| TelemetryModel.ReportRightIff | src/agent/Core/TelemetryCollector.h:266-286 | a single report of a run is right if and only if fewer than 2^64 requests were begun in its stretch and the counters lost a multiple of 2^64 in it |
| TelemetryModel.ReportsExactIff | src/agent/Core/TelemetryCollector.h:519-650 | with 64-bit counters never more than was begun is reported, and exactly that if and only if no stretch between two acknowledged cycles saw 2^64 requests |
| TelemetryModel.ReportsTileTime | src/agent/Core/TelemetryCollector.h:286-292 | the periods of the acknowledged reports follow each other without gap or overlap from the start to the last acknowledged cycle |
| TelemetryModel.CounterRightIff | src/agent/Core/TelemetryCollector.h:273-284 | for a counter of any width and any growth: the reported growth is right if and only if the counter did not wrap, or its wraps make up 2^64 exactly and the overflow branch is taken |
| TelemetryModel.NarrowCounterRightIff | src/agent/Core/TelemetryCollector.h:273-284 | for growths below 2^64 less the width, several wraps included: right if and only if the counter did not wrap |
| TelemetryModel.NarrowCounterMiscounts | src/agent/Core/TelemetryCollector.h:273-284 | a 32-bit counter that wraps once is reported as almost 2^64 requests, and one that comes round to where it was as none |
| Telemetry.Collector.CreateRequestBody | src/agent/Core/TelemetryCollector.h:266-292 | the loop computes the wrapping sum of the counters' growth since the last acknowledged cycle |
| Telemetry.Collector.RunOneCycle | src/agent/Core/TelemetryCollector.h:579-650 | a cycle changes the basis and the acknowledged reports only if it is enabled, gets an answer, and the answer acknowledges |

## Left out

- websocketpp, asio, libev, libuv, curl, Apache, Nginx and Ruby themselves: environment with the assumptions above.
- CommandServer.Server: errors of the timer and of `send`, close codes, logging, and configuration contents; a message that arrives when its connection is no longer current and open is ignored by the code and not part of the received history.
- BackgroundEventLoop.StepKeepsInv: the three threads are steps of one state machine, not objects; nothing is said about scheduling fairness, and libuv's work itself is not modelled.
- SafeLibev.Queue.Submit: the mutex is modelled by the atomicity of the steps of `SafeLibevModel`; `run`, which calls directly on the loop's own thread, and the 31-bit id field are not modelled.
- ConfigChangeModel.ChangeIsAllOrNothing: one change at a time; serializability of two overlapping changes is not claimed, since the store is built at prepare time and swapped at commit time. HTTP parsing before the change and configuration schemas are not modelled.
- ResponseCache.Cache.Store: the parsers of dates and numbers are parameters, and floating-point time is real arithmetic; which requests and responses are looked up or stored at all (`requestAllowsFetching`, `prepareRequestForStoring`) is not modelled. Response bytes are named by a store number instead of being copied.
- ResponseCache.Cache.InvalidateLocation: the URL parser is a parameter, the request has a host, and keys are shorter than 2^32 bytes.
- WriteVector.GenericWritev: fewer than 2^32 components; failure of stack allocation and the SSIZE_MAX check of 32-bit platforms are not modelled.
- StatusLine.Upstream.ParseStatusLine: on rejection only the saved position and automaton state are claimed, since the buffer position then depends on the division into reads; the contiguity of the three digits is not claimed, because spaces may separate them.
- Rechunk.Filter.Pass: buffer tags, the free list and the flush of a call without input are not modelled; requests that are not chunked pass through unchanged and are not modelled. Body sizes are unbounded, not 64-bit.
- NulPairs.SerializeEnvVars: the base64 encoding that follows, allocation failure and size overflow are not modelled.
- NulPairs.Client.ParseRequest: `bytes_to_str` is the identity on bytes (Latin-1), and a key or value is named by its bytes.
- Dependencies.GenerateFullMapFor: the scanning of files for include directives and the printing of the map are not modelled; strings are compared by character.
- Telemetry.Collector.RunOneCycle: transport, JSON and the conversion to wall-clock time are not modelled; whether the server processed data of a cycle whose answer was lost is unknown to the collector and to the model.
- Process launching, sockets, signals, user switching, option parsing, logging and statistics are not modelled.

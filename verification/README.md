# ttyd-rs: a verified model of its shared state and core algorithms

ttyd-rs serves terminal sessions over WebSockets. This project models, in Dafny, the state that its tasks share
and the algorithms that work on it, and proves what they keep: over every input, every run and every interleaving.

Two kinds of modules work together. Where the program changes an object step by step there is a class or a method with
loops, proved against a specification function (`RateLimit`, `Session`, `SessionManager`, `PtyIo`, `Protocol`, `Upload`,
`PathWalk`, `ConnectionSlots`, `Heartbeat`, `PongChecker`, `StatusParse`). Where tasks run concurrently
there is a machine: a state, a total `Next` function with one act per lock-protected section (an act that
is not possible changes nothing), and `Exec` over any sequence of acts (`Lifecycle`, `LockOrder`, `OutputPipeline`,
`UploadRuns`, `ConnectionSlots`). The machines reuse the specification functions of the classes.

| file | what it is about |
|---|---|
| `Session.dfy`, `SessionManager.dfy` | the session and manager objects, method by method |
| `Lifecycle.dfy`, `LifecycleResults.dfy` | all interleavings of connection handlers, REST deletes, cleanup and shutdown: invariants, then results on orphans and readers |
| `LifecycleCleanup.dfy`, `LifecycleAlone.dfy` | what the periodic cleanup finds and removes, among all other tasks and alone |
| `LifecycleFlags.dfy`, `LifecycleLeaks.dfy` | what clients are told about writing; handlers that leave their client behind |
| `LifecycleUse.dfy` | who may write, when a session was last used, when its output is over |
| `LifecycleRuns.dfy` | runs that show what the code does not promise |
| `LockOrder.dfy` | the locks the session and manager methods take, mutual exclusion, freedom from deadlock |
| `Broadcast.dfy`, `PtyIo.dfy`, `OutputPipeline.dfy` | the output path: reads, bursts, the bounded channel, subscribers, frames |
| `Utf8.dfy`, `Json.dfy`, `Protocol.dfy` | lossy UTF-8 decoding (RFC 3629), a reader of JSON (RFC 8259), and the output frame |
| `RateLimit.dfy` | the rate limiter and its runs |
| `Upload.dfy`, `UploadRuns.dfy` | one upload, then any number of concurrent ones |
| `PathWalk.dfy` | the link-free walk under concurrent changes, and `safe_resolve` |
| `ConnectionSlots.dfy`, `Heartbeat.dfy`, `PongChecker.dfy`, `StatusParse.dfy` | the connection counter, both liveness checks, the CPU figures |

`Wrappers.dfy` and `Time.dfy` hold what all share. `dafny verify dfyconfig.toml` checks the whole project.

## Where the code differs from its documentation

The model follows the code in each case. Where a promise fails there is a run or an example that shows it, and a theorem
that says exactly when it holds.

- The output channel holds 256 messages (`src/session.rs:144`); `docs/PROTOCOL.md:339` says 1024.
- A session timeout of 0 is documented as "no timeout" (`src/config.rs:172`), but `cleanup_inactive` compares the idle time
  with it like with any other value (`src/session.rs:481`): `SessionManager.TimeoutZeroExpires` says which sessions it removes.
- `touch` promises that a session in active use is not force-removed (`src/session.rs:302-306`), but the forced removals do not
  look at the idle time again (`src/session.rs:500-516`): `LifecycleRuns.SweepIgnoresNewActivity` gives the run,
  `LifecycleCleanup.ForcedRemovalExactly` the exact condition, in terms of what the cleanup itself read, and
  `LifecycleCleanup.TouchedIsKept` what a touch is good for.
- The creator of a shared read-only session is told that it may write (`src/server/websocket/session_lifecycle.rs:112-116`)
  although `can_write` refuses it: `LifecycleRuns.CreatorIsToldWrong` gives the run; by `LifecycleFlags.ToldExactly` every other
  client is told right.
- A handler that cannot open the PTY for writing returns without removing its client (`src/server/websocket.rs:348-350`):
  `LifecycleRuns.ClientLeaks` gives the run, `LifecycleLeaks.ReclaimedExactly` says exactly when an isolated session is
  reclaimed, `LifecycleLeaks.LeakStays` that the client stays for good.
- After a shutdown emptied the reader slot a late `start_reader_once` spawns again: `LifecycleRuns.SecondReader` gives the run,
  `LifecycleResults.SpawnsExactly` the condition. There are never three readers, and never two that were not aborted.
- A burst that ends inside a character decodes to replacement characters: `Utf8.CutEuroSign` is an example,
  `Utf8.DecodeSplits` the exact condition.
- The limiter does not limit with the largest limit, where its 32-bit counter wraps (in a build with overflow checks the
  increment panics instead, `src/rate_limit.rs:105`), nor with an empty window: `RateLimit.RefusesExactly`.

## Model

| member | source | states |
|---|---|---|
| `RateLimit.RateLimiter.Check` | src/rate_limit.rs:50-72 | the whole new store and the verdict; other clients' entries untouched |
| `RateLimit.RateLimiter.Record` | src/rate_limit.rs:79-121 | the entry and verdict are those of the closed form `Recorded`, 32-bit wrap-around included |
| `RateLimit.RateLimiter.Reset` | src/rate_limit.rs:124-127 | exactly the client's entry is forgotten |
| `RateLimit.RateLimiter.Cleanup` | src/rate_limit.rs:130-142 | exactly the expired entries are dropped |
| `RateLimit.CountClients` | src/rate_limit.rs:145-160 | the loop's counters are the sizes of the sets of active and of blocked clients |
| `RateLimit.RateLimiter.GetStats` | src/rate_limit.rs:145-167 | the three figures |
| `RateLimit.StatsForesee` | src/rate_limit.rs:145-160 | in every reachable store, blocked are the clients whose check would now be refused without any change, active those whose check would count on in their window |
| `RateLimit.RunCalls` | src/rate_limit.rs:50-142 | the limiter, driven by any list of calls, reaches the run's store and gives its verdicts |
| `RateLimit.ResetStartsAnew` | src/rate_limit.rs:124-127 | the check after a reset is the first of a new window |
| `RateLimit.CleanupIsInvisible` | src/rate_limit.rs:130-142 | for every run, deleting all cleanup calls changes no verdict and no active or blocked count, then or later |
| `RateLimit.SweptRunsAgree` | src/rate_limit.rs:79-142 | the simulation behind it, between stores that differ only in expired entries |
| `RateLimit.ReachableIsSound` | src/rate_limit.rs:79-121 | in every reachable entry, blocked iff count is max + 1, and then until window start + 2 windows |
| `RateLimit.BlockPersists` | src/rate_limit.rs:85-95 | through any calls but a reset of the client or a check of it at or after its time, a blocked entry stays as it is, or is cleaned up once its time has passed |
| `RateLimit.PenaltyIsExact` | src/rate_limit.rs:79-142 | a trip announces a penalty in (window, 2 windows]; whatever anybody calls in between, short of resetting the client, each of its checks before the promised time is refused with the exact remainder and the first one at or after it is admitted |
| `RateLimit.AdmissionBound` | src/rate_limit.rs:85-120 | k windows hold at most (k+1) * max - 1 admitted requests of one client, over every trace |
| `RateLimit.AdmissionBoundIsTight` | src/rate_limit.rs:85-120 | a trace that reaches the bound, for every k of at least 1, every limit of at least 1 but the largest, and every window of two clock ticks or more |
| `RateLimit.LargestLimitNeverRefuses` | src/rate_limit.rs:104-107 | with the limit 2^32 - 1, where 32-bit addition wraps, the counter never exceeds it and no request is refused |
| `RateLimit.RefusesExactly` | src/rate_limit.rs:85-120 | no run has a refusal iff the limit is the largest, or the window is empty and the limit is not 0 |
| `Session.Session.constructor` | src/session.rs:125-162 | a new session has no clients, an open channel, no reader |
| `Session.Session.AddClient` | src/session.rs:165-178 | refused exactly for a second client of an isolated session; otherwise registered and active |
| `Session.Session.RemoveClient` | src/session.rs:180-189 | the client is gone; activity refreshed only if it was there |
| `Session.Session.CanWrite` | src/session.rs:312-327 | never a former client; in an isolated session its client, in a shared one nobody or those not marked, by mode |
| `Session.Session.SubscribeOutput` | src/session.rs:215-220 | there is a receiver iff the sender exists; whatever is sent afterwards, it gets exactly that (the newest 256 of it if it lags) and nothing sent before |
| `Broadcast.SubscriberGetsTheRest` | src/session.rs:215-232 | the same of the position that every subscription starts from |
| `Session.Session.BroadcastOutput` | src/session.rs:223-232 | appends to the log; nothing once the sender is gone |
| `Session.Session.StartReaderOnce` | src/session.rs:254-265 | spawns exactly if the slot is empty |
| `Session.Session.AbortReader` | src/session.rs:268-276 | aborts the reader in the slot and empties the slot |
| `Session.Session.Shutdown` | src/session.rs:291-295 | cancelled, sender gone, reader aborted |
| `SessionManager.SessionManager.CreateSession` | src/session.rs:371-392 | a fresh session filed under its id, or no change when the shell cannot start |
| `SessionManager.SessionManager.CreateOrJoin` | src/server/websocket/session_lifecycle.rs:28-117 | which session a connection gets, each refusal, and the flag that its client is told |
| `SessionManager.ExpiredMeans` | src/session.rs:472-484 | expired are the sessions idle for longer than the reconnect window if empty, than the timeout otherwise |
| `SessionManager.TimeoutZeroExpires` | src/session.rs:472-484 | with timeout 0 a session with clients is removed iff its last activity is in the past |
| `SessionManager.SessionManager.RemoveSession` | src/session.rs:406-415 | exactly that session leaves the map, shut down; the answer says whether it was there |
| `SessionManager.SessionManager.RemoveIfEmpty` | src/session.rs:421-447 | removes exactly a filed session without clients |
| `SessionManager.SessionManager.FindCandidates` | src/session.rs:464-487 | both candidate lists hold exactly the expired sessions of their kind |
| `SessionManager.SessionManager.SweepEmpty` | src/session.rs:491-497 | removes exactly the candidates still filed and still without clients, and counts them |
| `SessionManager.SessionManager.SweepStale` | src/session.rs:500-517 | removes exactly the candidates still filed, disconnecting their clients |
| `SessionManager.BothPhases` | src/session.rs:463-519 | the two phases remove disjoint sets that make up all expired sessions |
| `SessionManager.SessionManager.CleanupInactive` | src/session.rs:463-520 | run alone: removes exactly the expired sessions, shuts each down, leaves every other alone, returns the drop in size |
| `SessionManager.SessionManager.Shutdown` | src/session.rs:523-538 | every session is shut down and the map is empty |
| `Lifecycle.InvHolds` | src/session.rs:165-536 | the invariant over all interleavings: orphans are shut down or owed it, lock ownership, every task's place, reader slots |
| `Lifecycle.HandlerKeepsInv` | src/server/websocket/session_lifecycle.rs:28-163 | each step of a connection handler keeps it |
| `Lifecycle.CleanupKeepsInv` | src/session.rs:463-520 | each step of the two-phase cleanup keeps it |
| `Lifecycle.ShutdownKeepsInv` | src/session.rs:291-295 | each step of a session's shutdown by its remover keeps it |
| `Lifecycle.CloseKeepsInv` | src/session.rs:523-538 | each step of the graceful shutdown keeps it |
| `LifecycleResults.OrphanSafety` | src/session.rs:371-536 | a session out of the map never returns; unless its remover is still at it, it is cancelled and its sender is gone |
| `LifecycleResults.NeverRefiled` | src/session.rs:371-447 | no continuation of a run files a session again |
| `LifecycleResults.SingleReader` | src/session.rs:254-276 | at most one reader of a session was not aborted; before any shutdown there is at most one at all |
| `LifecycleResults.AtMostTwoReaders` | src/session.rs:254-295 | at most two readers ever, late starts after a shutdown included |
| `LifecycleResults.StartedOnce` | src/session.rs:254-265 | after the first start and until a shutdown, however often it is called again and even if the reader ended: one and the same reader |
| `LifecycleResults.IsolatedReclaimed` | src/server/websocket/session_lifecycle.rs:142-163 | a filed isolated session has no client but its creator, whose handler is still at work or failed to open the PTY |
| `LifecycleResults.SpawnsExactly` | src/session.rs:254-265 | a start spawns iff every reader the session had was aborted, which only a shutdown does |
| `LifecycleResults.DeleteTakesOut` | src/session.rs:406-415 | a delete takes exactly its session out of the map and owes it a shutdown |
| `LifecycleResults.ShutdownEmptiesMap` | src/session.rs:523-538 | after the graceful shutdown the map is empty and each session that was in it is shut down |
| `LifecycleCleanup.ListsNameTheFound` | src/session.rs:471-487 | in every run, a session waits on a list of a cleanup iff this cleanup read an activity beyond the window from the filed session, then found it without (or with) clients, and it had no turn yet |
| `LifecycleCleanup.CleanupRemovesOnlySeen` | src/session.rs:471-516 | a removed session was found so by the reads of that very cleanup, filed both times; one removed as empty has no client at that step |
| `LifecycleCleanup.RemovalExactly` | src/session.rs:491-516 | a sweep removes a session iff it is its turn, it is still filed and, if noted as empty, still has no client; only what was found has a turn, once |
| `LifecycleCleanup.ForcedRemovalExactly` | src/session.rs:471-516 | a finished cleanup has force-removed a session iff its reads found it idle beyond the timeout and then with clients, and it was filed at its turn |
| `LifecycleCleanup.ActiveIsKept` | src/session.rs:474-484 | a session read as active within the timeout is not force-removed by that cleanup |
| `LifecycleCleanup.TouchedIsKept` | src/session.rs:302-309 | neither is one touched before that read, within the timeout before the cleanup began |
| `LifecycleAlone.CleanupAlone` | src/session.rs:463-520 | from every reachable state, a cleanup that ends while no other task steps has removed exactly the expired sessions, swept them and touched no other, in whatever order it looked: the machine does what `CleanupInactive` does |
| `LifecycleAlone.CleanupEnds` | src/session.rs:463-520 | and it can come to its end, unless another task holds the sessions lock |
| `LifecycleFlags.ToldExactly` | src/server/websocket/session_lifecycle.rs:37-117 | a client's flag says what the session enforces iff it is not the creator of a shared read-only session |
| `LifecycleUse.WritesExactly` | src/session.rs:312-327 | in every run, only a client may write, from its registration until its removal; a client may iff the session is isolated, or shared for writing and the client is not marked |
| `LifecycleUse.RemovedMayNotWrite` | src/session.rs:314-316 | a handler that removed its client may not write any more |
| `LifecycleUse.SweptMayNotWrite` | src/session.rs:505-510 | after a forced removal has cleared the clients nobody may write |
| `LifecycleUse.ActivityIsLastUse` | src/session.rs:165-189 | in every run the activity of a session is the time of the last creation, registration, written input or removal of a client |
| `LifecycleUse.OutputIsOverExactly` | src/session.rs:234-243 | in every run the output is over iff the reader ended, an input failed or a shutdown dropped the sender at some step |
| `LifecycleLeaks.ReclaimedExactly` | src/server/websocket/session_lifecycle.rs:142-163 | once its creator's handler returned, an isolated session is out of the map iff that handler did not fail to open the PTY, or another task took it out |
| `LifecycleLeaks.LeakStays` | src/server/websocket.rs:346-350 | a handler that failed so leaves its client behind for good, in every continuation |
| `LifecycleRuns.SweepIgnoresNewActivity` | src/session.rs:500-516 | for every timeout a run in which cleanup removes a session that was active when the cleanup began |
| `LifecycleRuns.CreatorIsToldWrong` | src/server/websocket/session_lifecycle.rs:112-117 | a run after which a client was told that it may write and may not |
| `LifecycleRuns.ClientLeaks` | src/server/websocket.rs:346-350 | a run after which an isolated session is filed with a client whose handler has no step left |
| `LifecycleRuns.SecondReader` | src/session.rs:254-295 | a run in which a session has two readers |
| `LockOrder.MethodsAreRanked` | src/session.rs:165-562 | every session and manager method takes the map, then one session's clients, then its other locks, whatever it finds there |
| `LockOrder.RankedIsDisciplined` | src/session.rs:165-562 | guards that live for nested blocks give a sequence of acquisitions in rank order that ends with none held |
| `LockOrder.MutualExclusion` | src/session.rs:103-120 | two tasks hold one lock only for reading |
| `LockOrder.DeadlockFreedom` | src/session.rs:165-562 | in every reachable state of any number of tasks calling any methods, some unfinished task can step |
| `LockOrder.RunsAreBounded` | src/session.rs:165-562 | however the tasks are scheduled, the number of steps is bounded |
| `LockOrder.EveryCallReturns` | src/session.rs:165-562 | from every reachable state all calls can be brought to their return, none dropped |
| `PtyIo.BurstsConserveBytes` | src/server/websocket/pty_io.rs:104-162 | bursts concatenate to the bytes read; each is nonempty and shorter than 256 KiB + 16 KiB |
| `PtyIo.NothingHeldBack` | src/server/websocket/pty_io.rs:151-158 | whenever a read would block, and at the end, everything read was broadcast |
| `PtyIo.ReadsAreCoalesced` | src/server/websocket/pty_io.rs:118-152 | an event adds at most one burst, and a read adds one only at the size limit |
| `PtyIo.RunPtyReader` | src/server/websocket/pty_io.rs:104-170 | the nested loops broadcast exactly those bursts, in order, all bytes read whenever a read would block, and drop the sender iff the end was seen |
| `PtyIo.OutputSubscriber.OnReceive` | src/server/websocket/pty_io.rs:184-236 | one round of the subscriber: frame sent, cooldown of lag notices, end of the loop |
| `PtyIo.LagIsTold` | src/server/websocket/pty_io.rs:204-223 | a client that lags is told so iff it was not told within the last second |
| `PtyIo.NoticesAreSpaced` | src/server/websocket/pty_io.rs:184-223 | never twice within a second |
| `OutputPipeline.InvHolds` | src/server/websocket/pty_io.rs:104-236 | the invariant of reader, channel and all subscribers, over all interleavings |
| `OutputPipeline.SubscriberAccounting` | src/server/websocket/pty_io.rs:176-236 | delivered + lagged + lost + pending = broadcast since attaching; in order, no duplicates, no gaps without lag; each frame is its burst; "Shell exited" comes last, after everything |
| `OutputPipeline.Drains` | src/session.rs:234-243 | once the sender is gone, the disconnect is sent within one poll more than there are pending messages |
| `OutputPipeline.DeliveredText` | src/server/websocket/pty_io.rs:187-199 | a client that never lagged and was told the shell exited has read every burst since it attached; that is the stream's text iff no boundary cuts a character |
| `OutputPipeline.EndToEnd` | src/server/websocket/pty_io.rs:104-236 | from PTY bytes to the text in the browser: attached first, never lagged, bursts well-formed but the last: exactly the decoded byte stream |
| `OutputPipeline.BroadcastIsPrefix` | src/server/websocket/pty_io.rs:104-162 | what was broadcast is a prefix of what was read, all but the burst in progress while the sender lives |
| `OutputPipeline.BroadcastIsPrompt` | src/server/websocket/pty_io.rs:151-158 | over all interleavings, all bytes read were broadcast whenever a read would block while the sender lives |
| `OutputPipeline.LateComerIsTold` | src/server/websocket.rs:363-369 | a client that attaches after the end is told at once |
| `Utf8.DecodeEncodes` | src/protocol.rs:187-188 | decoding an encoded text gives it back, whatever follows |
| `Utf8.EncodingIsValid` | src/protocol.rs:187-188 | encoded texts are well-formed |
| `Utf8.ReencodesIffValid` | src/protocol.rs:187-188 | re-encoding the text of a payload gives its bytes back iff the payload is well-formed |
| `Utf8.DecodeSplits` | src/protocol.rs:187-188 | decoding two pieces equals decoding the whole iff the boundary cuts no character |
| `Utf8.DecodeEachIffCleanCuts` | src/protocol.rs:187-188 | the same for any number of bursts |
| `Utf8.ValidBurstsCutCleanly` | src/protocol.rs:187-188 | if every burst but the last is well-formed, no boundary cuts a character |
| `Utf8.BrokenCharacterIsOne` | src/protocol.rs:187-188 | the beginning of a character that breaks off becomes one replacement character |
| `Utf8.StrayByteIsOne` | src/protocol.rs:187-188 | so does a byte that begins no character |
| `Utf8.CutEuroSign` | src/protocol.rs:187-188 | a cut character is lost |
| `Protocol.EscapeJsonPayload` | src/protocol.rs:196-218 | the character loop appends the escaped text |
| `Protocol.PushEscaped` | src/protocol.rs:198-216 | one character: every branch, hex digit indices in range |
| `Protocol.OutputJson` | src/protocol.rs:182-193 | prefix, escaped lossy text, suffix |
| `Protocol.EscapeReadsBack` | src/protocol.rs:196-218 | reading the string ends at the first unescaped quote, which is the suffix's, with exactly the text |
| `Protocol.EscapesExactly` | src/protocol.rs:196-218 | only quotes, backslashes and control characters are escaped, by two characters where there is a short form, else by six |
| `Protocol.MessageReadsBack` | src/protocol.rs:182-193 | the frame is a JSON object of type "output" whose data has the text as its payload |
| `Protocol.OutputReadsBack` | src/protocol.rs:182-193 | a JSON reader gets the text back from the whole frame |
| `Protocol.EscapeIsInjective` | src/protocol.rs:196-218 | different texts have different escapes |
| `Protocol.OutputIsInjective` | src/protocol.rs:182-193 | frames are equal iff the decoded texts are; for well-formed payloads, iff the payloads are |
| `Upload.ReceivesExactly` | src/server/files.rs:571-604 | a part is received iff nothing failed and it is within the limit, whole and in order |
| `Upload.LandsExactly` | src/server/files.rs:511-643 | a part lands iff its name may be taken and nothing is wrong with it, with all its bytes; else with the reason |
| `Upload.ServesExactly` | src/server/files.rs:434-664 | a request succeeds iff its base directory is usable, its declared length within the limit, every part goes through and there is a file; then all its files are in place and the last is reported |
| `Upload.RefusesWithReason` | src/server/files.rs:434-664 | every error answered, in the order of its reasons, and what is in place by then |
| `Upload.ReceiveField` | src/server/files.rs:571-604 | the streaming loop leaves exactly the received bytes in the temporary file, or the error |
| `Upload.Directory.Rename` | src/server/files.rs:361-384 | a rename with or without replacing: error or the moved file |
| `Upload.UploadFileGuard.Drop` | src/server/files.rs:91-102 | an armed guard removes its file, a disarmed one nothing |
| `Upload.UploadPart` | src/server/files.rs:511-647 | one part lands whole, iff it may and nothing is wrong with it, or changes no target; no temporary file stays |
| `Upload.UploadFile` | src/server/files.rs:434-664 | success under exactly the conditions above, with all files in place; the outcome is that of `Serve`; no temporary file stays |
| `UploadRuns.InvHolds` | src/server/files.rs:434-664 | the invariant of any number of interleaved requests: targets are the replay of the landings, temporary files belong to busy requests |
| `UploadRuns.TargetsAreWhole` | src/server/files.rs:511-647 | at every moment a target is what it was at the start or all bytes of one part that landed, within the limit |
| `UploadRuns.LandingsAreWhole` | src/server/files.rs:571-647 | each rename put one undisturbed part of one request in place, whole |
| `UploadRuns.NeverReplaces` | src/server/files.rs:606-643 | a non-overwriting upload lands only on a name absent from the start on, so at most one of several wins |
| `UploadRuns.NoLeftovers` | src/server/files.rs:63-102 | each temporary file belongs to a request without an answer |
| `UploadRuns.AnswersTellLandings` | src/server/files.rs:645-664 | success: every file part landed, in order, last name and exact size reported; error: the parts before the one that explains that very status (409 only if the name exists) |
| `UploadRuns.RequestAlone` | src/server/files.rs:434-664 | run without interruption the machine does what the method does |
| `PathWalk.SegmentsSplit` | src/server/files.rs:295-309 | splitting at slashes loses nothing |
| `PathWalk.ComponentsOfOne` | src/server/files.rs:295-303 | an empty segment and "." say nothing, any other is a component |
| `PathWalk.ComponentsAppend` | src/server/files.rs:295-303 | and so for every segment of a path, in order |
| `PathWalk.OpenComponents` | src/server/files.rs:311-352 | the loop: the handle of the walk and the path extended by every component, or the walk's error |
| `PathWalk.OpenNofollowRecursive` | src/server/files.rs:264-353 | each early error in order, then the walk and its path |
| `PathWalk.WalkOpens` | src/server/files.rs:319-350 | a walk that succeeds opened a chain of real entries, no link, each in the directory opened before, whatever changed in between |
| `PathWalk.WalkFollows` | src/server/files.rs:319-350 | wherever there is such a chain the walk takes it |
| `PathWalk.WalkStops` | src/server/files.rs:330-346 | the status of the answer for each kind of first bad component, in the middle or last: missing, link, file, unreadable file or directory, directory that may not be searched |
| `PathWalk.WalkIsRooted` | src/server/files.rs:264-353 | under any changes: exactly the normal components, from the base on, and canonical base plus components as path |
| `PathWalk.ResolvesToReal` | src/server/files.rs:201-219 | resolution that follows links ends at a place with no link in it |
| `PathWalk.SafeResolveIsInside` | src/server/files.rs:196-240 | an accepted path lies under the canonical base and is link-free above its file name |
| `PathWalk.SafeResolveExactly` | src/server/files.rs:196-240 | when `safe_resolve` accepts and with which path, and the status of every refusal |
| `PathWalk.NewNameIsAccepted` | src/server/files.rs:215-230 | a new file name in a base that may be searched is accepted as that name |
| `PathWalk.SameOnStillTree` | src/server/files.rs:196-353 | on a tree nobody changes, `safe_resolve` gives the path of the file that the walk opens |
| `PathWalk.WalksWhereNoLinkIs` | src/server/files.rs:264-353 | there, the walk succeeds iff following links would end at the place spelled out, and all on the way can be opened |
| `ConnectionSlots.CounterIsExact` | src/server/websocket.rs:81-98 | any number of threads, weak exchanges and stale reads: counter = acquisitions - releases, within 0..max |
| `ConnectionSlots.AttemptsFillSlots` | src/server/websocket.rs:73-98 | without releases n finished attempts yield min(n, max) successes |
| `ConnectionSlots.RefusedOnlyWhenFull` | src/server/websocket.rs:85-88 | a refusal means all slots were taken at some moment |
| `ConnectionSlots.AppState.TryAcquireConnection` | src/server/websocket.rs:81-98 | the loop of one undisturbed thread, spurious failures included |
| `ConnectionSlots.AppState.HandleConnection` | src/server/websocket.rs:117-195 | a connection is served iff a slot is free, and leaves the counter as it was unless its upgrade is never completed |
| `Heartbeat.RunMonitor` | src/server/websocket/pty_io.rs:257-300 | the monitor ends at the first tick whose ping fails or that finds the client silent for too long |
| `Heartbeat.DeathWindow` | src/server/websocket/pty_io.rs:267-300 | a client last heard at L dies at a tick in (L + timeout, L + timeout + interval], and at the first such |
| `Heartbeat.AnsweringClientLives` | src/server/websocket/pty_io.rs:267-300 | a client that answers each ping within timeout - interval is never declared dead |
| `PongChecker.Page.OnVisibilityChange` | static/js/main.js:430-473 | the handler's effect on every variable |
| `PongChecker.Page.OnTick` | static/js/main.js:228-245 | when the checker closes |
| `PongChecker.RunPage` | static/js/main.js:222-473 | the page's handlers, driven by any trace, compute the run and close exactly where it says |
| `PongChecker.RunIs` | static/js/main.js:116-144 | the script's variables are what the trace of events says |
| `PongChecker.ClosesExactly` | static/js/main.js:228-245 | closes iff visible, silent for too long, and neither hidden nor shown since the last pong |
| `PongChecker.ClosesOnlyWatched` | static/js/main.js:228-245 | so the page was visible at every reading after the last pong, also if loaded hidden |
| `PongChecker.ProbeClosesExactly` | static/js/main.js:462-472 | the probe timer closes iff the page was shown at least five seconds ago with the socket connected, and since then there was no pong, no further showing and no earlier due timer |
| `StatusParse.ParseDigitsExactly` | src/server/status.rs:395-405 | a number parses iff it is all digits and fits 64 bits, and to its value |
| `StatusParse.ParsesRenderedLine` | src/server/status.rs:395-405 | for every process name, parsing a rendered stat line gives utime + stime, saturated |
| `StatusParse.ProcessLinesExactly` | src/server/status.rs:395-405 | what any line gives: nothing without a parenthesis, else what the two words after the last one say |
| `StatusParse.ParsesHostLine` | src/server/status.rs:319-339 | parsing a rendered host line, with any number of further spaces after "cpu" and any lines after it, gives the busy and total ticks, saturated |
| `StatusParse.HostLinesExactly` | src/server/status.rs:319-331 | a line parses iff it is "cpu" and at least eight numbers |
| `StatusParse.BusyIsPart` | src/server/status.rs:319-339 | whatever is parsed, busy is at most the total |
| `StatusParse.CpuSampler.Sample` | src/server/status.rs:217-252 | one round of the sampler |
| `StatusParse.ProcessFigureIsLatest` | src/server/status.rs:220-234 | along a run the process figure is that of the latest interval between two of its readings |
| `StatusParse.HostFigureIsLatest` | src/server/status.rs:237-250 | likewise the host figure |
| `StatusParse.ProcessMilliMeans` | src/server/status.rs:222-231 | the process figure is the exact quotient, cut to thousandths, at most 32 bits |
| `StatusParse.HostMilliMeans` | src/server/status.rs:239-247 | likewise the host figure |
| `StatusParse.BusyCpusAreShown` | src/server/status.rs:220-232 | a process that keeps n CPUs busy is shown with n times 100%, up to 32 bits |
| `StatusParse.HostMilliIsPercent` | src/server/status.rs:237-248 | at most 100% iff the busy ticks did not grow while the idle ticks went back |
| `StatusParse.HostUsageIsBounded` | src/server/status.rs:208-254 | over every run whose counters do not go back, at most 100% |

## Left out

- PTY fork and exec, signals and ioctls: system calls; a read yields bytes, would block, or ends.
- Tokio and axum internals: the broadcast channel is a log with a position per receiver (a send without receivers is logged too, which no subscriber can tell), locks are atomic sections or fair queues, a rename is one step.
- Clocks, UUIDs and failing system calls are data of the acts or requests; UUIDs are natural numbers that are fresh when drawn, instants are integers without an upper bound, so overflow of `Instant` and `Duration` is not modelled.
- RateLimit.AdmissionBoundIsTight: with a window of one clock tick, or k = 0, the bound is not always reached; windows of the source are whole seconds.
- RateLimit.LargestLimitNeverRefuses: additions wrap as in a build without overflow checks; the panic of a build with them is not modelled.
- Rate limiter timestamps: the clock is read before the lock is taken (`src/rate_limit.rs:51-52`); the results assume that times do not go back.
- Lifecycle.InvHolds: handlers run to their end; a handler future dropped half-way, and authentication and the handshake before a session is chosen, are not modelled.
- LockOrder.DeadlockFreedom: the locks of the session and manager methods only; the PTY, socket and heartbeat mutexes are taken by other code, one at a time.
- OutputPipeline.EndToEnd: the reader starts before the first client subscribes (`src/server/websocket.rs:357-364`), so that this client attached first is a condition, not a conclusion.
- UploadRuns.NoLeftovers: requests run to an answer (a future dropped between creating the file and arming its guard, `src/server/files.rs:559-568`, is outside), removing a temporary file succeeds, and nothing but uploads changes the directory.
- UploadRuns.TargetsAreWhole: a target is the path that `safe_resolve` gave; which path that is, is the subject of `PathWalk`, on its own.
- PathWalk.SafeResolveIsInside: one look at one tree; `safe_resolve` itself gives no guarantee while the tree changes.
- ConnectionSlots.CounterIsExact: an upgrade that never completes (`src/server/websocket.rs:132-134`) is here a thread that never releases.
- Heartbeat.DeathWindow: ticks come exactly every interval, so a send that blocks for longer is not modelled.
- LifecycleCleanup.TouchedIsKept: the time of an activity is read before its lock is taken, so an earlier time may be noted later; the lemma asks that this did not happen.
- PongChecker.ClosesOnlyWatched: instants are readings of the millisecond clock; reconnecting, banners and the heartbeat pings are left out.
- StatusParse.CpuSampler.Sample: percentages are exact quotients, cut to whole thousandths; the rounding of doubles before that is left out.
- StatusParse.HostMilliIsPercent: the same.
- Password hashing, constant-time comparison, base64, configuration, CLI, audit log, REST wrappers, downloads and listings, static assets and user interface: library code, flat checks or plumbing.

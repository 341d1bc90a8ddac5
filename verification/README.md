# Asynchronous servers and test-runner algorithms, verified

This project models four parts of the repository in Dafny and proves what they
are for. Each part has a specification on values (state machines, grammars,
permutations), lemmas about it over all inputs, runs and orders of completion,
and objects that update their fields in place and are proved to do exactly what
the specification does.

**The echo server.** `SessionSpec` is one connection: an external and an
internal state machine and three activities (read, write, timer) over a cyclic
buffer (`CyclicBuffer`). `ManagerSpec` is the session manager: the acceptor, the
list of active sessions, the stop that walks this list in batches with a cursor
while completions take sessions off it, recycled wrappers, statistics. Handlers
run on a strand, so each handler is one atomic step; results of sockets and
timers, answers of the allocator and the factory, and the order of completions
are inputs. `Session` and `SessionManager` are the objects. `EchoServer` composes
the manager with one session for every wrapper that holds one: sessions serve
what they were asked in their own time, the manager hears only what a session
answered, in any order, and a session that is given back is reset and may be
handed out again; `StopProtocol` and `WaitProtocol` are a session's part of it.
`SessionEnds` and `ManagerDecisions` say event by event when work goes on, when
it ends and with which cause, and `ManagerSizes` how much is done at once and
kept. `SessionPool` and `PooledSessionFactory` are the least-loaded pool of
sessions.

A `BOOST_ASSERT` of the session is a precondition of its step functions, and is
proved to hold at every step. One of the manager is recorded in `past.broken`
when it fails, since one of them can: the comment at
`examples/ma_echo_server_core/src/session_manager.cpp:1048-1051` says that a
session refuses its stop only when it is stopped twice, but a session whose start
is refused because its socket options cannot be applied also refuses a stop that
was issued meanwhile. `StopRefused.AssertionCanFail` is a run in which this
happens; `EchoServer.BrokenIffRefusedLate` proves that it happens then and only
then.

The statistics charge the end of a session to one of four counters.
`ManagerCounts.ChargedOnce` proves that no session is charged twice, and which
accepted sessions are never charged; `EchoServer.ChargedWithItsCause` that the
charge is the cause which the session itself recorded.

**The NMEA reader.** `NmeaFraming` cuts a byte stream into frames, `NmeaSpec` is
the reader with its bounded queue that drops the oldest frame, parked reader and
deferred error, `NmeaAnswers` what it tells, and `CyclicReadSession` the object,
whose full queue uses the oldest frame object again in place. `async_read_until` is an input: it succeeds
when the mark is in the buffer and reports where the first one ends.

**Simple regular expressions** of the vendored Google Test: `RegexLanguage` has
the grammar and the language of an expression, `RegexMatcher` the validator and
the backtracking matcher on terminated C strings, `RegularExpressions` the object
with full and partial matches. The comment at
`3rdparty/gtest/src/gtest-port.cc:404-405` promises that a full match matches the
entire string; for an expression that ends in an escaped dollar sign it only
finds a prefix, because no end anchor is added.
`RegularExpressions.FullMatchIffNoEscapedDollar` proves that this is the only
exception.

**The order of tests** in Google Test: `TestFilters` tells death tests by their
names, `TestShuffle` is the random generator and the in-place shuffle,
`TestRegistrations` is what any sequence of registrations leaves behind, and
`TestRegistry` the objects, which keep death test cases first through
registration, shuffling and unshuffling.

Sizes come from the configuration: buffer and transfer sizes and the number of
sessions are at least 1 (`examples/ma_echo_server/src/config.cpp:355`, `:368`,
`:391`), and so is the size of a batch of stops (`:397`).

## Model

| member | source | states |
|---|---|---|
| `CyclicBuffer.BlocksCoverRing` | libs/ma_cyclic_buffer/include/ma/cyclic_buffer.hpp:267-305 | the one or two blocks lent to a socket are exactly the ring range they were cut from, in order |
| `CyclicBuffer.RingFrame` | libs/ma_cyclic_buffer/include/ma/cyclic_buffer.hpp:194-238 | storing into the nonfilled range leaves every filled byte as it was, also across the wrap |
| `CyclicBuffer.CyclicBuffer.Commit` | libs/ma_cyclic_buffer/include/ma/cyclic_buffer.hpp:200-218 | takes the first bytes off the filled sequence and appends them to the nonfilled one; a too large size changes nothing and stands for the length_error |
| `CyclicBuffer.CyclicBuffer.Consume` | libs/ma_cyclic_buffer/include/ma/cyclic_buffer.hpp:220-238 | appends the first nonfilled bytes to the filled sequence; a too large size changes nothing |
| `CyclicBuffer.CyclicBuffer.Data` | libs/ma_cyclic_buffer/include/ma/cyclic_buffer.hpp:250-254 | lends in-bounds blocks that hold the first filled bytes, at most `maxSize`; none only when there is nothing to lend |
| `CyclicBuffer.CyclicBuffer.Prepared` | libs/ma_cyclic_buffer/include/ma/cyclic_buffer.hpp:256-260 | lends in-bounds blocks that gather the first nonfilled bytes, at most `maxSize`; none only when the buffer is full or nothing is asked |
| `CyclicBuffer.CyclicBuffer.Reset` | libs/ma_cyclic_buffer/include/ma/cyclic_buffer.hpp:194-198 | leaves no filled byte |
| `CyclicBuffer.CyclicBuffer.Store` | examples/ma_echo_server_core/src/session.cpp:890-909 | a socket read through lent blocks changes no filled byte and its bytes begin the nonfilled sequence |
| `ExternRequests.ForwardAnswers` | examples/ma_echo_server_core/src/session.cpp:253-271 | answering a parked handler moves its request from parked to answered: none is lost, none answered twice |
| `ExternRequests.AnsweredExtends` | examples/ma_echo_server_core/src/session.cpp:253-271 | what was posted stays posted, and the answers added are those of the handlers posted since |
| `SessionProofs.StepKeeps` | examples/ma_echo_server_core/src/session.cpp:174-931 | every request and completion keeps the session's invariant, and every assertion of the handlers holds (each is a precondition of the step function) |
| `SessionProofs.LastByteEchoed` | examples/ma_echo_server_core/src/session.cpp:753-793 | when the sending half is closed by the read-stopped branch, nothing is left in the buffer: all that was read was written |
| `SessionRuns.EveryRun` | examples/ma_echo_server_core/src/session.cpp:273-931 | after every run: pending operations count the activities in progress; in work an idle read means a full buffer and an idle write an empty one; written ++ buffered == read until bytes are thrown away; the timer of a started session is armed; parked handlers mean work and stop |
| `SessionRuns.EchoOnTheWire` | examples/ma_echo_server_core/src/session.cpp:353-530 | RFC 862: in every life of a session the bytes put on the wire are a prefix of the bytes the peer sent, and all of them when the sending half was closed because the peer's stream had ended |
| `SessionRuns.WireOverRun` | examples/ma_echo_server_core/src/session.cpp:353-530 | the bytes counted by the environment and the session's own records agree over any run |
| `SessionRuns.NeverStalls` | examples/ma_echo_server_core/src/session.cpp:580-793 | a started session that has not begun to stop has a read or a write in flight; no operation is in flight exactly when the session is fresh or stopped; never more than three are |
| `SessionRuns.StopDrains` | examples/ma_echo_server_core/src/session.cpp:795-888 | once stopping, at most three completions remain, whatever requests come in between, and exactly the last of them stops the session and answers a parked stop |
| `SessionTimeouts.TimesOutOnlyAfterSilence` | examples/ma_echo_server_core/src/session.cpp:532-565 | a wait that reports inactivity ran out no earlier than the timeout after the last read or write completed (or the start), and ends the session's work |
| `SessionTimeouts.StaleCallbackRearms` | examples/ma_echo_server_core/src/session.cpp:532-565 | a callback left over from a cancelled or rescheduled wait only re-arms the timer, for the silence counted from the last operation |
| `SessionTimeouts.OnlyTimeoutsReportInactivity` | examples/ma_echo_server_core/src/session.cpp:617-650 | no other step makes inactivity the recorded end of work |
| `SessionTimeouts.InactivityMeansSilence` | examples/ma_echo_server_core/src/session.cpp:532-565 | in every run: when inactivity is reported, the latest completed read, write or start lies at least the configured timeout back |
| `SessionTimeouts.ActivityOverRun` | examples/ma_echo_server_core/src/session.cpp:933-970 | the deadline is counted from the latest completed read, write or start of the run |
| `SessionTimeouts.StopCancelsWait` | examples/ma_echo_server_core/src/session.cpp:840-888 | a stop cancels the timer wait in flight unless that fails, so that its last operation does not wait for the timeout to run out |
| `SessionEnds.StopsIff` | examples/ma_echo_server_core/src/session.cpp:353-888 | a live session stops in a step if and only if it meets a failure (of the operation, the timer or the half-close), times out, is refused its start, or the peer's stream has ended and nothing is left to write |
| `SessionEnds.LeavesWorkIff` | examples/ma_echo_server_core/src/session.cpp:353-650 | a session at work leaves it if and only if it meets a failure, is refused its start, is asked to stop, or the peer's stream ends: no successful read or write does |
| `SessionEnds.RecordsCause` | examples/ma_echo_server_core/src/session.cpp:822-888 | the cause it records then: operation_aborted for a stop, eof for the end of the stream, else the first failure of the step |
| `SessionEnds.EchoesEverything` | examples/ma_echo_server_core/src/session.cpp:353-793 | a session that meets no failure and is not asked to stop works until the peer's stream ends, and when it has stopped every byte that was delivered was sent back |
| `SessionEnds.StepOffers` | examples/ma_echo_server_core/src/session.cpp:580-615 | a read that is started at work gets all the room, and a write all the bytes, up to the size of one transfer; during the shutdown a read gets all the room |
| `SessionMail.AnsweredExactlyOnce` | examples/ma_echo_server_core/src/session.cpp:174-271 | over every run each start, stop and wait request is answered exactly once or still parked, and a stopped session has answered all |
| `SessionMail.FirstCauseStays` | examples/ma_echo_server_core/src/session.cpp:261-271 | the first error recorded for the end of work stays recorded until a reset |
| `SessionMail.RequestsTold` | examples/ma_echo_server_core/src/session.cpp:174-251 | what each request is told, and the wait it interrupts: error by error, at once or later |
| `SessionMail.CompletionsTold` | examples/ma_echo_server_core/src/session.cpp:253-271 | while operations complete exactly this is posted: a parked wait, with the recorded cause, when work has ended, and a parked stop, with success, when the session has stopped |
| `Session.Session.Handle` | examples/ma_echo_server_core/src/session.cpp:174-970 | one turn of the strand: the object does what the state machine does and stays valid |
| `Session.Session.HandleRead` | examples/ma_echo_server_core/src/session.cpp:273-299 | the completed read reaches the buffer through the lent blocks, then the handler of the internal state runs |
| `Session.Session.HandleReadAtWork` | examples/ma_echo_server_core/src/session.cpp:353-396 | cancel the timer, give up on errors, take the bytes, shut down at the end of the stream, else go on; what this comes to for a caller is `SessionEnds.StopsIff` |
| `Session.Session.HandleReadAtShutdown` | examples/ma_echo_server_core/src/session.cpp:398-436 | the same during shutdown, where the end of the stream halts the read |
| `Session.Session.HandleWrite` | examples/ma_echo_server_core/src/session.cpp:301-327 | the bytes the write took from its blocks are the ones it was lent, unchanged since, then the handler of the internal state runs |
| `Session.Session.HandleWriteAtWork` | examples/ma_echo_server_core/src/session.cpp:452-483 | cancel the timer, give up on errors, take the written bytes off the buffer, go on |
| `Session.Session.HandleTimerAtWork` | examples/ma_echo_server_core/src/session.cpp:532-565 | a failed wait stops, a stale one re-arms, a true one stops with inactivity_timeout |
| `Session.Session.ContinueWork` | examples/ma_echo_server_core/src/session.cpp:580-615 | restarts an idle read or write when the buffer allows it, then the timer |
| `Session.Session.ContinueTimerWait` | examples/ma_echo_server_core/src/session.cpp:617-650 | reschedules the timer once per activity, and stops when that fails |
| `Session.Session.ContinueShutdownAtReadWait` | examples/ma_echo_server_core/src/session.cpp:678-724 | closes the sending half when nothing is being written, then reads on |
| `Session.Session.RestartRead` | examples/ma_echo_server_core/src/session.cpp:678-724 | throws buffered bytes away only with the sending half closed and no read in flight |
| `Session.Session.ContinueShutdownAtReadStopped` | examples/ma_echo_server_core/src/session.cpp:753-793 | writes what is buffered, and closes and stops when there is nothing left |
| `Session.Session.StartStop` | examples/ma_echo_server_core/src/session.cpp:840-888 | closes the socket, cancels the timer, halts what is idle, answers the wait with the first error |
| `Session.Session.ContinueStop` | examples/ma_echo_server_core/src/session.cpp:795-820 | the last completed operation ends the stop and answers a parked stop |
| `Session.Session.CancelTimerWait` | examples/ma_echo_server_core/src/session.cpp:956-970 | tells a wait in flight to be stale, unless cancelling fails |
| `Session.Session.DoStartExternStart` | examples/ma_echo_server_core/src/session.cpp:174-202 | refuses out of turn, stops for good when the socket options cannot be applied, else begins to work |
| `Session.Session.DoStartExternStop` | examples/ma_echo_server_core/src/session.cpp:204-232 | refuses a second stop, answers a parked wait, begins the shutdown, answers at once or parks |
| `Session.Session.DoStartExternWait` | examples/ma_echo_server_core/src/session.cpp:234-251 | the posted answer, or the parked handler, is what the state machine makes of the wait request: refused out of turn or a second time, answered with the recorded cause once work has ended, else parked |
| `ManagerLists.FromAfterErase` | examples/ma_echo_server_core/src/session_manager.cpp:1352-1362 | taking a session off the list takes it off what the cursor still has to walk, and moves the cursor on when it stood there |
| `ManagerLists.NextBegins` | examples/ma_echo_server_core/src/session_manager.cpp:1152-1166 | the successor of a member begins the rest of the list after it |
| `ManagerBooks.RecycleCloses` | examples/ma_echo_server_core/src/session_manager.cpp:1273-1296 | a wrapper off the active list gives its session back, unless a completion of that session is still to come; the assertion about the session holds |
| `ManagerBooks.ReleaseKeepsOwners` | examples/ma_echo_server_core/src/session_manager.cpp:1273-1296 | releasing a session takes exactly that one off the sessions held, and every other keeps its one owner |
| `ManagerBooks.TakeKeepsOwners` | examples/ma_echo_server_core/src/session_manager.cpp:1298-1336 | attaching a session nobody has adds exactly that one, with this wrapper as its one owner |
| `ManagerProofs.NothingOutstanding` | examples/ma_echo_server_core/src/session_manager.cpp:1127-1150 | when no operation is pending there is no active session, nothing is in flight, and no session is held: the assertions of the end of a stop |
| `ManagerProofs.StopBatchWalks` | examples/ma_echo_server_core/src/session_manager.cpp:1152-1166 | however many sessions a batch stops, all ahead of its cursor were told to stop, the cursor is on the list or at its end, and the books stay right |
| `ManagerProofs.FinishBatch` | examples/ma_echo_server_core/src/session_manager.cpp:1092-1189 | after a batch the stop is scheduled to go on, waits for completions, or is over |
| `ManagerProofs.ContinueWorkKeeps` | examples/ma_echo_server_core/src/session_manager.cpp:683-743 | going on with work keeps the invariant and ends with an accept in flight, active sessions, or a stop |
| `ManagerCompletions.AcceptFindsRoom` | examples/ma_echo_server_core/src/session_manager.cpp:832-873 | an accepted session always finds room: the over-limit branch is unreachable |
| `ManagerCompletions.CompletionPasses` | examples/ma_echo_server_core/src/session_manager.cpp:832-1090 | every completion of the acceptor or of a session keeps the books, the cursor, the sums and the capacity before the manager continues |
| `ManagerCompletions.OverRecycles` | examples/ma_echo_server_core/src/session_manager.cpp:904-975 | a session that is over leaves the list, and its wrapper is recycled unless a start or wait of it is still to be answered |
| `ManagerCompletions.AheadShrinks` | examples/ma_echo_server_core/src/session_manager.cpp:1352-1362 | removing a session, also the one under the cursor, leaves every session ahead of the cursor stopped |
| `ManagerSteps.StepKeeps` | examples/ma_echo_server_core/src/session_manager.cpp:566-1189 | every step keeps the manager's invariant, and the only assertion that can ever fail is the one about a session's answer to its stop, exactly when that is an error |
| `ManagerDrain.EveryRun` | examples/ma_echo_server_core/src/session_manager.cpp:683-1189 | after every run: active sessions plus the accept in flight are within the limit; a manager at work has an accept in flight or an active session, and an idle acceptor means the limit or a failed creation; pending counts the outstanding operations, and each active wrapper has the one its state tells; all sessions ahead of the cursor were told to stop, and a cursor on the list has a batch scheduled; a parked wait means work and a parked stop a stop that goes on; a wrapper stands in one place at most: active, recycled or in the accept |
| `ManagerDrain.AssertionsHold` | examples/ma_echo_server_core/src/session_manager.cpp:745-1150 | over every run of the manager alone, whatever its sessions answer, its assertions all hold but the one about a session's stop, which fails exactly when such an answer is an error; when that happens is `EchoServer.BrokenIffRefusedLate` |
| `ManagerDrain.StoppingStep` | examples/ma_echo_server_core/src/session_manager.cpp:904-1189 | while stopping, requests leave as much to do and every completion leaves strictly less, and there is no way back to work |
| `ManagerDrain.Drains` | examples/ma_echo_server_core/src/session_manager.cpp:1092-1189 | the drain: from the begin of a stop at most as many completions follow as were left, in any order and with any requests in between; when that many came the manager has stopped, stays stopped, holds no session, has released every session it took, has parked no handler, and its counters add up |
| `ManagerDrain.StoppedKeepsNothing` | examples/ma_echo_server_core/src/session_manager.cpp:1127-1150 | a stopped manager is never called back, and every session taken was released exactly once |
| `ManagerDrain.OutstandingLeft` | examples/ma_echo_server_core/src/session_manager.cpp:1168-1271 | every outstanding operation is among what is left to do: a stop is outstanding only for an active session |
| `ManagerDrain.BatchDrops` | examples/ma_echo_server_core/src/session_manager.cpp:1177-1189 | a scheduled batch, even if it schedules another one, leaves strictly less to do |
| `ManagerOwnership.StepKept` | examples/ma_echo_server_core/src/session_manager.cpp:832-1296 | what one step does to each wrapper: a completion takes its own wrapper through one turn (which request comes next, or whether the session is given back) and leaves the others as they were; what follows leaves every session alone or tells an active one to stop; only a wrapper without a session is given the new one |
| `ManagerOwnership.ReleasedLast` | examples/ma_echo_server_core/src/session_manager.cpp:832-1090 | a session stays with one wrapper until it is released, and then no start, wait or stop of it is outstanding any more and the wrapper is off the active list |
| `ManagerOwnership.AskedInOrder` | examples/ma_echo_server_core/src/session_manager.cpp:1213-1271 | each attached session is asked to start once, then at most one wait, then at most one stop; a start and a wait are never outstanding together |
| `ManagerMail.AnsweredExactlyOnce` | examples/ma_echo_server_core/src/session_manager.cpp:590-681 | over every run each external request of the manager is answered exactly once or still parked, and a stopped manager has answered all |
| `ManagerMail.FirstCauseStays` | examples/ma_echo_server_core/src/session_manager.cpp:669-681 | the first cause recorded for the end of work stays recorded until a reset |
| `ManagerDecisions.AcceptFailure` | examples/ma_echo_server_core/src/session_manager.cpp:26-29 | after an accept that fails for lack of descriptors the manager accepts again at once if a session can be had; after any other failed accept nothing is accepted any more, the error is kept, and without sessions the work ends with exactly this error |
| `ManagerDecisions.AcceptSuccess` | examples/ma_echo_server_core/src/session_manager.cpp:832-873 | after an accept that succeeds the session is asked to start, and the next one is accepted if and only if there is room and a session can be had; at the limit the acceptor is closed |
| `ManagerDecisions.StepDecides` | examples/ma_echo_server_core/src/session_manager.cpp:683-743 | what a step of a working manager comes to: whether it accepts again, gives the acceptor up, or ends its work, and with which error |
| `ManagerDecisions.ListeningOverRun` | examples/ma_echo_server_core/src/session_manager.cpp:683-743 | over every run the acceptor is open while a connection is waited for, and closed at the limit of sessions, before the start and once work has ended |
| `ManagerDecisions.StartTold` | examples/ma_echo_server_core/src/session_manager.cpp:590-610 | a start is told success, or the error for which nothing can be accepted, which ends the work at once; out of turn it is refused |
| `ManagerDecisions.StopTold` | examples/ma_echo_server_core/src/session_manager.cpp:612-640 | a stop is told success at once or parked, a parked wait that the work was aborted, a second stop that it is out of turn |
| `ManagerDecisions.WaitTold` | examples/ma_echo_server_core/src/session_manager.cpp:642-656 | a wait is refused out of turn, told the recorded cause once work has ended, and parked before |
| `ManagerDecisions.CompletionsTold` | examples/ma_echo_server_core/src/session_manager.cpp:658-681 | while operations complete exactly this is posted: a parked wait, with the recorded cause, when work has ended, and a parked stop, with success, when the manager has stopped |
| `ManagerDecisions.ResetRenews` | examples/ma_echo_server_core/src/session_manager.cpp:566-583 | a manager with nothing outstanding is as if new after a reset, with the recycled wrappers kept or freed |
| `ManagerSizes.ScheduledWalks` | examples/ma_echo_server_core/src/session_manager.cpp:1152-1189 | a scheduled batch takes the cursor past exactly as many sessions as a batch may stop, or to the end, and tells no more to stop |
| `ManagerSizes.StopWalks` | examples/ma_echo_server_core/src/session_manager.cpp:1092-1166 | a stop request passes exactly the first batch of the sessions at once |
| `ManagerSizes.StepSizes` | examples/ma_echo_server_core/src/session_manager.cpp:1152-1166 | no step tells more sessions to stop than one batch may |
| `ManagerSizes.SizesOverRun` | examples/ma_echo_server_core/src/session_manager.cpp:300-317 | over every run the reported numbers are those of the lists, the reported peak is the most sessions served at once, and never more wrappers are kept than allowed |
| `ManagerSizes.WrappersReused` | examples/ma_echo_server_core/src/session_manager.cpp:1273-1336 | the wrapper of a session that is given back is kept if and only if there is room, and the next session gets a kept wrapper before a new one is made |
| `ManagerCounts.ChargedOnce` | examples/ma_echo_server_core/src/session_manager.cpp:832-1029 | in every run of a new manager each session was charged to the stop counters at most once, and when it is given back exactly once if it was accepted, unless its start succeeded during the stop before it was told to stop; a session that was not accepted is never charged |
| `ManagerCounts.AccountsBalance` | examples/ma_echo_server_core/src/session_manager.cpp:832-1029 | over every run, for every wrapper: its session was charged, or passed over, or will be charged by the one start or wait of it that is outstanding |
| `ManagerCounts.CountersOverRun` | examples/ma_echo_server_core/src/session_manager.cpp:329-355 | over every run each of the four counters grows by exactly the number of sessions charged with operation_aborted, eof, inactivity_timeout or another error, respectively, and the accepted ones by the accepts that succeeded |
| `ManagerCounts.CountedStep` | examples/ma_echo_server_core/src/session_manager.cpp:319-355 | a step counts one accepted session at most and charges one session at most; it passes over a session exactly when its start succeeds during the stop while it is still starting; which counter a charge goes to is `ManagerCounts.CountersOverRun` |
| `ManagerCounts.StopStatistics` | examples/ma_echo_server_core/src/session_manager.cpp:319-355 | the sum of this over all sessions: once a manager that started afresh has stopped, accepted sessions minus the four stop counters are exactly the sessions that were passed over |
| `SessionManager.SessionManager.Handle` | examples/ma_echo_server_core/src/session_manager.cpp:566-1189 | one turn of the strand: the object does what the state machine does and stays valid |
| `SessionManager.SessionManager.ContinueWork` | examples/ma_echo_server_core/src/session_manager.cpp:683-743 | stops when nothing is left to wait for, closes the acceptor at the limit, opens it again, and asks for the next session |
| `SessionManager.SessionManager.HandleAcceptAtWork` | examples/ma_echo_server_core/src/session_manager.cpp:832-873 | unregisters the accept, counts it, gives up on fatal errors, starts an accepted session; after which errors the manager goes on is `ManagerDecisions.AcceptFailure` |
| `SessionManager.SessionManager.HandleAcceptAtStop` | examples/ma_echo_server_core/src/session_manager.cpp:875-902 | an accept that ends during the stop is counted and its session given back |
| `SessionManager.SessionManager.AnswerStart` | examples/ma_echo_server_core/src/session_manager.cpp:904-975 | a late, failed or successful start, at work and at stop |
| `SessionManager.SessionManager.AnswerWait` | examples/ma_echo_server_core/src/session_manager.cpp:977-1029 | a late or timely end of a session's work |
| `SessionManager.SessionManager.StopDone` | examples/ma_echo_server_core/src/session_manager.cpp:1031-1090 | a stopped session leaves the list and is recycled; an error is a failed assertion |
| `SessionManager.SessionManager.StartActiveSessionStop` | examples/ma_echo_server_core/src/session_manager.cpp:1152-1166 | the loop tells at most `maxCount` sessions from its begin on to stop, skips those told already, and returns where the next batch begins |
| `SessionManager.SessionManager.HandleScheduledActiveSessionStop` | examples/ma_echo_server_core/src/session_manager.cpp:1177-1189 | the next batch, another one scheduled if sessions are left, and the end of the stop when nothing is pending |
| `SessionManager.SessionManager.StartStop` | examples/ma_echo_server_core/src/session_manager.cpp:1092-1125 | closes the acceptor, answers a parked wait, stops the first batch |
| `SessionManager.SessionManager.ContinueStop` | examples/ma_echo_server_core/src/session_manager.cpp:1127-1150 | the stop is over when nothing is pending, and a parked stop is answered |
| `SessionManager.SessionManager.Recycle` | examples/ma_echo_server_core/src/session_manager.cpp:1273-1296 | a wrapper without pending operations gives its session back and is kept if there is room |
| `SessionManager.SessionManager.CreateSession` | examples/ma_echo_server_core/src/session_manager.cpp:1298-1336 | a new session goes into a recycled or a new wrapper; without memory it goes straight back |
| `SessionManager.SessionManager.RemoveFromActive` | examples/ma_echo_server_core/src/session_manager.cpp:1352-1362 | the cursor moves on before the session under it leaves the list |
| `SessionManager.SessionManager.DoStartExternStart` | examples/ma_echo_server_core/src/session_manager.cpp:590-610 | refuses out of turn, else begins to work, and answers with the recorded cause if that stopped at once |
| `SessionManager.SessionManager.DoStartExternStop` | examples/ma_echo_server_core/src/session_manager.cpp:612-640 | refuses a second stop, answers a parked wait, begins the stop, answers at once or parks |
| `SessionManager.SessionManager.ResetManager` | examples/ma_echo_server_core/src/session_manager.cpp:566-583 | back to the initial control state, with the recycled wrappers kept or freed |
| `EchoServer.BrokenIffRefusedLate` | examples/ma_echo_server_core/src/session_manager.cpp:1031-1090 | the manager and its sessions together: in every run of a new server that has stopped, an assertion of the manager failed if and only if the start of some session was refused after the stop of that session had been issued |
| `EchoServer.GivenBackAtRest` | examples/ma_echo_server_core/src/session_manager.cpp:1273-1296 | whenever the manager gives a session back, no operation of that session is in flight, so the reset at this point is sound; it gives back only the session that the completion is for |
| `EchoServer.OneNewcomer` | examples/ma_echo_server_core/src/session_manager.cpp:1298-1336 | at most one wrapper is given a session in one step |
| `EchoServer.DoKeeps` | examples/ma_echo_server_core/src/session_manager.cpp:745-1296 | every action of the server, by the manager or by a session, keeps: each session has its invariant, was asked only what the manager asked, in order, has served what the manager heard of, and free sessions are fresh |
| `EchoServer.BlameOverRun` | examples/ma_echo_server_core/src/session_manager.cpp:904-1090 | at every point of every run a failed assertion and a late refusal go together, but for sessions of which the manager is still to hear one of the two answers |
| `EchoServer.EverySession` | examples/ma_echo_server_core/src/session.cpp:174-931 | whatever the manager and its clients do, every session of the server echoes, counts its operations, flows, and has its timer armed |
| `EchoServer.ChargedWithItsCause` | examples/ma_echo_server_core/src/session_manager.cpp:977-1029 | the end of a session is charged with the cause that the session itself recorded: the answer to the manager's wait carries it unchanged |
| `WaitProtocol.WaitStep` | examples/ma_echo_server_core/src/session.cpp:234-271 | in every step of a session asked in order, an answer to its wait is the recorded cause, which never changes afterwards |
| `StopProtocol.StopAnswered` | examples/ma_echo_server_core/src/session.cpp:174-232 | in every life of a session asked in the manager's order, the stop is answered with invalid_state if and only if the start was refused; a session that started stops without an error |
| `StopProtocol.ReleasedAtRest` | examples/ma_echo_server_core/src/session.cpp:174-232 | a session alone, asked in the manager's order: asked nothing, refused to start, or with its stop answered, it has no operation in flight; that the manager gives it back only then is `EchoServer.GivenBackAtRest` |
| `StopProtocol.TrackedOverRun` | examples/ma_echo_server_core/src/session.cpp:174-271 | request order, external state and the answers to start and stop stay in step over any run |
| `StopRefused.RefusedLife` | examples/ma_echo_server_core/src/session.cpp:183-211 | a fresh session whose start is refused answers the stop asked right after it with invalid_state |
| `StopRefused.AssertionCanFail` | examples/ma_echo_server_core/src/session_manager.cpp:1062-1082 | a run of the whole server in which the manager's assertion about stops fails: the stop was issued while the start was in flight, and the start is refused |
| `SessionPool.CreateKeeps` | examples/ma_echo_server_core/src/pooled_session_factory.cpp:67-94 | creation hands out a session that nobody has, made for the selected pool, and keeps the counts; without memory nothing changes |
| `SessionPool.ReleaseKeeps` | examples/ma_echo_server_core/src/pooled_session_factory.cpp:96-103 | release keeps that a pool counts exactly the sessions in use that link to it, and recycles at most the allowed number of its own, each once |
| `SessionPool.CreateReuses` | examples/ma_echo_server_core/src/pooled_session_factory.cpp:67-94 | a session is made only when the selected pool has none to use again; the other pools are left alone |
| `SessionPool.ReleaseRecycles` | examples/ma_echo_server_core/src/pooled_session_factory.cpp:96-103 | a released session is kept exactly when its pool has room for it, and then it is the first to be handed out by this pool again |
| `SessionPool.StaysBalanced` | examples/ma_echo_server_core/src/pooled_session_factory.cpp:124-143 | over every run of creations and releases during which at most n sessions are in use, no pool ever has more than n divided by the number of pools, rounded up |
| `SessionPool.CreateBalances` | examples/ma_echo_server_core/src/pooled_session_factory.cpp:124-133 | choosing the least loaded pool keeps every pool within its share |
| `SessionPool.SumCounts` | examples/ma_echo_server_core/src/pooled_session_factory.cpp:67-103 | the loads of the pools add up to the sessions in use |
| `PooledSessionFactory.PooledSessionFactory.MinElement` | examples/ma_echo_server_core/src/pooled_session_factory.cpp:105-109 | the loop finds the first pool item that no other one is less loaded than |
| `PooledSessionFactory.PooledSessionFactory.Create` | examples/ma_echo_server_core/src/pooled_session_factory.cpp:124-133 | the object hands out a session that is not in use, or reports the lack of memory |
| `PooledSessionFactory.PooledSessionFactory.Release` | examples/ma_echo_server_core/src/pooled_session_factory.cpp:135-143 | the session goes back to the pool item it was made for |
| `RegexLanguage.ValidIffExpression` | 3rdparty/gtest/src/gtest-port.cc:257-311 | the scan accepts exactly the strings that write some expression of the grammar: atoms, each maybe repeated, between an optional begin and an optional end anchor |
| `RegexLanguage.ValidIsRendered` | 3rdparty/gtest/src/gtest-port.cc:257-311 | what the scan accepts can be taken apart into items |
| `RegexLanguage.RenderedIsValid` | 3rdparty/gtest/src/gtest-port.cc:257-311 | every expression that is written out is accepted |
| `RegexLanguage.AtHeadSplits` | 3rdparty/gtest/src/gtest-port.cc:347-373 | matching an item and what follows it is matching them one after the other, at some split |
| `RegexLanguage.CharacterClasses` | 3rdparty/gtest/src/gtest-port.cc:210-219 | the sets of characters are those of the ASCII tables |
| `RegexLanguage.EscapeMeans` | 3rdparty/gtest/src/gtest-port.cc:226-246 | an escape stands for a class, its complement, one control character, or the punctuation mark itself |
| `RegexLanguage.ValidEscapeMatches` | 3rdparty/gtest/src/gtest-port.cc:221-224 | an escape is valid exactly if it stands for some character |
| `RegexMatcher.ValidateRegex` | 3rdparty/gtest/src/gtest-port.cc:257-311 | the loop accepts exactly the written expressions, null is none, and no access passes the terminator |
| `RegexMatcher.MatchRepetitionAndRegexAtHead` | 3rdparty/gtest/src/gtest-port.cc:320-342 | true exactly when some admitted count of matching characters is followed by a match of the rest; no access passes a terminator |
| `RegexMatcher.MatchRegexAtHead` | 3rdparty/gtest/src/gtest-port.cc:347-373 | true exactly when a prefix of the string, all of it before an end anchor, is in the language of the items; terminates because the expression gets shorter |
| `RegexMatcher.MatchRegexAnywhere` | 3rdparty/gtest/src/gtest-port.cc:383-396 | true exactly when some substring that respects the anchors is in the language; false for null |
| `RegularExpressions.RE.Init` | 3rdparty/gtest/src/gtest-port.cc:417-448 | validates the expression and fills the buffer of the full pattern: begin anchor added unless there, end anchor added unless the last character is a dollar sign |
| `RegularExpressions.RE.FullMatch` | 3rdparty/gtest/src/gtest-port.cc:406-408 | what a full match computes: a match of the full pattern |
| `RegularExpressions.RE.PartialMatch` | 3rdparty/gtest/src/gtest-port.cc:412-414 | a partial match finds a substring in the language that respects the anchors |
| `RegularExpressions.FullMatchIsWhole` | 3rdparty/gtest/src/gtest-port.cc:404-408 | without an escaped dollar sign at its end, an expression matches fully exactly the strings of its language |
| `RegularExpressions.FullMatchIsPrefix` | 3rdparty/gtest/src/gtest-port.cc:404-408 | with one, a full match only finds a prefix of the string in the language |
| `RegularExpressions.FullMatchIffNoEscapedDollar` | 3rdparty/gtest/src/gtest-port.cc:404-448 | a full match is a match of the whole string, for all strings, if and only if the expression does not end in an escaped dollar sign |
| `NmeaFraming.ParseGoesOn` | examples/ma_nmea_client/src/cyclic_read_session.cpp:174-296 | cutting a longer stream is cutting the shorter one and going on with what remained |
| `NmeaFraming.RoundTrip` | examples/ma_nmea_client/src/cyclic_read_session.cpp:194-296 | cutting garbage, head, frame and tail repeated, with clean marks, gives back exactly the frames and leaves nothing |
| `NmeaProofs.StepKeeps` | examples/ma_nmea_client/src/cyclic_read_session.cpp:68-305 | every step keeps: a parked reader means that the port is being read and no frame is queued, a deferred error that it is not; the queue holds the most recent frames, at most its capacity; handed out ++ queued are the frames of the stream in order but for the dropped ones |
| `NmeaProofs.DeferredErrorStays` | examples/ma_nmea_client/src/cyclic_read_session.cpp:133-162 | a deferred read error is never overwritten: it stays until a reader is told it, or a reset |
| `NmeaProofs.PushKeeps` | examples/ma_nmea_client/src/cyclic_read_session.cpp:261-289 | a full queue drops exactly its oldest frame |
| `NmeaProofs.ChunksDoNotMatter` | examples/ma_nmea_client/src/cyclic_read_session.cpp:174-296 | however the bytes are cut into reads, the frames cut so far and those still to be found in the buffer are the frames of the whole stream |
| `NmeaProofs.FramesComeBack` | examples/ma_nmea_client/src/cyclic_read_session.cpp:194-296 | for an encoded list of frames, in any chunking, exactly these frames were cut; readers got them in order but for the dropped ones, and all but the queued ones if none was dropped |
| `NmeaProofs.AnsweredExactlyOnce` | examples/ma_nmea_client/src/cyclic_read_session.cpp:81-162 | over every run each start, stop, read and write request is answered exactly once or still pending, and a stopped reader has answered all |
| `NmeaAnswers.StepTells` | examples/ma_nmea_client/src/cyclic_read_session.cpp:81-296 | every handler posted in a step, with its error, its frames and its count: a read gets the oldest frames or the error, a parked reader the frame that comes, an aborted or failed one the error and nothing |
| `NmeaAnswers.StepKeepsErrors` | examples/ma_nmea_client/src/cyclic_read_session.cpp:194-259 | a failed read that nobody waits for is kept for the next reader, what closing the port came to is kept for the stop, and a frame is lost only when another one is cut while the queue is full |
| `NmeaAnswers.ReadsAreTold` | examples/ma_nmea_client/src/cyclic_read_session.hpp:428-455 | since the reader was new: a successful read was told as many frames as it got, no more than it had room for, nobody else was told a frame, and until a reset the frames told are in order all that left the queue for readers |
| `NmeaAnswers.ResetRenews` | examples/ma_nmea_client/src/cyclic_read_session.cpp:68-79 | a reset with nothing in flight leaves a reader as if new, but for what it has told |
| `NmeaProofs.ResetKeepsIff` | examples/ma_nmea_client/src/cyclic_read_session.cpp:68-79 | a reset, which the code does not guard, leaves a sound reader behind if and only if nothing is in flight on the port |
| `CyclicReadSession.CyclicReadSession.Handle` | examples/ma_nmea_client/src/cyclic_read_session.cpp:68-305 | one turn of the strand, a reset included while nothing is in flight on the port: the object does what the state machine does, stays valid, changes no frame that a reader has, and the counts told to reads add up to the frames that readers have |
| `CyclicReadSession.CyclicReadSession.HandleReadTail` | examples/ma_nmea_client/src/cyclic_read_session.cpp:230-296 | cuts the frame, uses the oldest frame object again in place when the queue is full, completes a parked reader; frames handed out earlier keep their text |
| `CyclicReadSession.CyclicReadSession.HandleReadHead` | examples/ma_nmea_client/src/cyclic_read_session.cpp:194-228 | drops the garbage and the head, or ends a stop, or reports or defers an error |
| `CyclicReadSession.CyclicReadSession.NewFrame` | examples/ma_nmea_client/src/cyclic_read_session.cpp:261-276 | the frame object: the queue's front with new text when full, else a new one that nobody has |
| `CyclicReadSession.CyclicReadSession.PushBack` | examples/ma_nmea_client/src/cyclic_read_session.cpp:286-287 | the frame goes behind the others, a full queue loses its front; the frame objects stay distinct |
| `CyclicReadSession.CyclicReadSession.CompleteRead` | examples/ma_nmea_client/src/cyclic_read_session.cpp:289-295 | the oldest frames go to the reader, as many as it has room for, and leave the queue; that the reader is told this number is `NmeaAnswers.ReadsAreTold` |
| `CyclicReadSession.CyclicReadSession.CopyBuffer` | examples/ma_nmea_client/src/cyclic_read_session.hpp:326-340 | hands out frames from the front in their order, all of them or as many as there is room for |
| `CyclicReadSession.CyclicReadSession.StartExternReadSome` | examples/ma_nmea_client/src/cyclic_read_session.hpp:428-455 | refuses, hands out queued frames, reports a deferred error, or parks and starts reading |
| `CyclicReadSession.CyclicReadSession.StartExternStop` | examples/ma_nmea_client/src/cyclic_read_session.cpp:100-131 | refuses a second stop, aborts a parked reader, answers at once when the port is quiet, else parks |
| `CyclicReadSession.CyclicReadSession.StartExternWriteSome` | examples/ma_nmea_client/src/cyclic_read_session.hpp:457-475 | refuses out of turn or a second write, else starts it |
| `CyclicReadSession.CyclicReadSession.HandleWrite` | examples/ma_nmea_client/src/cyclic_read_session.hpp:477-491 | answers the writer, and ends a stop when the port is quiet |
| `TestFilters.MatchesFilter` | 3rdparty/gtest/src/gtest.cc:457-476 | the loop over the patterns of a filter finds whether one of them matches |
| `TestFilters.StarMatches` | 3rdparty/gtest/src/gtest.cc:440-455 | a star matches any characters |
| `TestFilters.PatternMeans` | 3rdparty/gtest/src/gtest.cc:440-455 | glob matching: a pattern matches exactly the strings that can be cut into parts, any one for a star, one character for a question mark, the character itself for any other |
| `TestFilters.FilterMeans` | 3rdparty/gtest/src/gtest.cc:457-476 | a filter selects the names that one of its patterns, between the colons, matches |
| `TestFilters.DeathTestFilter` | 3rdparty/gtest/src/gtest.cc:158-158 | the filter of death tests selects exactly the names that end with DeathTest or contain DeathTest followed by a slash |
| `TestShuffle.Random.Generate` | 3rdparty/gtest/src/gtest.cc:291-306 | the next number of the 32-bit linear congruential generator, below the range |
| `TestShuffle.StepUndone` | 3rdparty/gtest/src/gtest.cc:291-306 | the generator's step can be undone: no two states lead to the same one |
| `TestShuffle.FirstStates` | 3rdparty/gtest/src/gtest.cc:291-306 | the first states after a seed of zero |
| `TestShuffle.ShufflePermutes` | 3rdparty/gtest/src/gtest-internal-inl.h:310-328 | whatever the random numbers are, a shuffle permutes its range and touches nothing else |
| `TestShuffle.EveryOrderReached` | 3rdparty/gtest/src/gtest-internal-inl.h:310-328 | every order of the range can come out of a shuffle, for the right random numbers |
| `TestShuffle.EachOrderOnce` | 3rdparty/gtest/src/gtest-internal-inl.h:310-328 | and for one sequence of numbers only: the shuffle is fair if the numbers are |
| `TestShuffle.ShuffleArranges` | 3rdparty/gtest/src/gtest-internal-inl.h:310-328 | the shuffle is what the numbers drawn from the generator make of the range |
| `TestShuffle.ShuffleRange` | 3rdparty/gtest/src/gtest-internal-inl.h:310-328 | the in-place loop computes the Fisher-Yates shuffle of the generator's numbers |
| `TestShuffle.SplitMembers` | 3rdparty/gtest/src/gtest.cc:4601-4608 | in a split order the first indices are exactly those of death test cases |
| `TestRegistrations.EveryRegistration` | 3rdparty/gtest/src/gtest-internal-inl.h:654-674 | after any sequence of registrations the death test cases are exactly the first ones, no two have the same name, there is one for each name mentioned, and it holds exactly the tests registered for it, in their order |
| `TestRegistrations.CasesInOrder` | 3rdparty/gtest/src/gtest.cc:4173-4206 | the death test cases come in the order in which they were first mentioned, and so do the others behind them |
| `TestRegistrations.CaseKeepsSorted` | 3rdparty/gtest/src/gtest.cc:4189-4202 | a new death test case goes behind the others of its kind, any other one to the end: the death test cases stay the first ones, and names stay distinct |
| `TestRegistrations.RegisterAddsTest` | 3rdparty/gtest/src/gtest-internal-inl.h:654-674 | registering adds the test behind those of its test case and changes no other one |
| `TestRegistry.UnitTestImpl.GetTestCase` | 3rdparty/gtest/src/gtest.cc:4173-4206 | returns the test case with the name, or registers it in its place; the order stays unshuffled |
| `TestRegistry.UnitTestImpl.AddTestInfo` | 3rdparty/gtest/src/gtest-internal-inl.h:654-674 | gets or registers the test case and adds the test: the objects hold the registry with this test, and its invariant is kept |
| `TestRegistry.UnitTestImpl.ShuffleTests` | 3rdparty/gtest/src/gtest.cc:4601-4613 | every index vector and the generator's state are what shuffling in turn the death test cases, the other ones, and the tests of each case makes of the old ones; all stay permutations with the death test cases first, and what is registered stays |
| `TestRegistry.UnitTestImpl.UnshuffleTests` | 3rdparty/gtest/src/gtest.cc:4616-4623 | every index vector is the identity again |
| `TestRegistry.ShuffledTests` | 3rdparty/gtest/src/gtest.cc:4601-4613 | whatever tests are registered and whatever the seed: after a shuffle the registry holds exactly them, the order of the test cases is a permutation with death test cases first, and so is each test case's own order of its tests; and these orders are a function of the registrations and the seed |
| `TestRegistry.RestoredTests` | 3rdparty/gtest/src/gtest.cc:4616-4623 | registering, shuffling and unshuffling any tests gives back the order of registration, of the test cases and of the tests in each |
| `TestRegistry.UnitTestImpl.GetMutableTestCase` | 3rdparty/gtest/src/gtest-internal-inl.h:593-596 | the test case at a place of the order is a death test case exactly for the first places |
| `TestRegistry.DeathTestsRunFirst` | 3rdparty/gtest/src/gtest.cc:4601-4613 | in any order a shuffle can leave, every death test case runs before any other one, and each test case has its turn |
| `TestRegistry.TestCase.AddTestInfo` | 3rdparty/gtest/src/gtest.cc:2423-2426 | the test goes to the end, and its index to the end of the order |
| `TestRegistry.TestCase.ShuffleTests` | 3rdparty/gtest/src/gtest.cc:2463-2465 | the tests of a case are permuted as the generator's next numbers say |
| `TestRegistry.TestCase.UnshuffleTests` | 3rdparty/gtest/src/gtest.cc:2468-2472 | the tests of a case are in the order of their registration again |

## Left out

- Sockets, the acceptor, serial ports, deadline timers, strands and threads: only their results and completions, as inputs of a step.
- Move and bind plumbing, custom allocators and the weak-pointer dispatch of completions: the manager is taken to outlive its operations.
- Saturation of the statistics counters: they are unbounded here.
- The recycled counter after a reset that keeps the recycled wrappers: the code zeroes the counter and keeps the list, so no agreement is claimed.
- The armed timer of a session that is stopped before it was started: the shutdown is then entered without arming it.
- The intrusive lists' links: a list is a sequence of wrappers, with the same front, next and erase.
- Which session object the factory hands out is left to `EchoServer`: in the manager a session is a number that names one hand-out, so a session that is given back and handed out again in the same step has two.
- SessionManager.SessionManager.ResetManager: the closing of the acceptor has no result in the model, and the cursor keeps its value as in the code.
- Session settings passed to the pool on creation: a recycled session keeps the settings it was made with, as in the code.
- CyclicReadSession.CyclicReadSession.CopyBuffer: the frames are returned to the caller; writing them through the reader's iterators is not modelled.
- CyclicReadSession.CyclicReadSession.Handle: a reset that comes while an operation of the port or a write is in flight. `NmeaProofs.ResetKeepsIff` proves that this is exactly when a reset breaks the reader's invariant.
- The exceptions for bad sizes in the constructors of the reader: they are preconditions here.
- RegexMatcher.ValidateRegex: the failure messages, of which the validator may add several, are not modelled; only its result is.
- RegexMatcher.MatchRepetitionAndRegexAtHead: strings are at most as long as the largest repetition count that is tried, which the comment at `3rdparty/gtest/src/gtest-port.cc:316-319` asks of callers; size_t has 64 bits.
- The constant accessor of test cases (`3rdparty/gtest/src/gtest-internal-inl.h:586-589`): it looks an index up but returns the test case by its place of registration; test runs use the other accessor.
- TestRegistry.UnitTestImpl.GetTestCase: the type parameter and the functions that set up and tear down a test case.
- Option parsing, console and Qt front ends, the simple session factory, the performance client, the other asynchronous samples, and the rest of Google Test.

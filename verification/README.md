# A model of RingSwarm's RPC runtime

RingSwarm sends requests of many coroutines over one byte stream. Each request carries a 16-bit tag,
one header reader routes the answers back, and the whole runs on hand-written coroutines, a thread
pool and a libuv loop thread. This project models that runtime in Dafny and proves what its parts
promise one another: over every run, for any number of callers, workers and threads, any order of
answers and any segmentation of the incoming bytes.

`dafny verify dfyconfig.toml` checks everything.

## How the model is built

Most parts come twice. A step machine (`State`, `Event`, `Enabled`, `Apply`) holds the behaviour at
the granularity of suspensions, mutex operations and event callbacks; its invariant is proved over
every step, and the main results over every run. Beside it a class in the source's own form updates
its fields in place; each method is one atomic stretch of the source and is proved to be that step of
the machine. History (what was sent for whom, which reads ended how) is in ghost fields of the classes
and in fields of the states that no step looks at.

| files | part |
|---|---|
| `Client`, `Channels`, `ClientTransport` | the multiplexer; its refinement to one private channel per request; the class |
| `Server`, `ServerHandler` | request framing and handlers, reaping, the write lock; the class |
| `Link`, `Progress`, `Collision` | client and server composed through two FIFO byte streams; progress of the whole; a run into the tag-reuse window |
| `Wire`, `Framing` | the packed headers; request frames as `sendRequest` writes and `listen` reads them |
| `Socket`, `PlainSocketTransport` | data, end, close and error events turned into reads of exact sizes; the class |
| `EventLoop`, `EventLoopLock` | the two-mutex-and-pipe hand-off between the loop thread and acquirers; the loop and guard classes |
| `ThreadPool` | workers, the condition variable, the counting shutdown; the class |
| `Join`, `Promises` | awaited coroutines against plain nested calls; the promise class |
| `Codec`, `Formats`, `Buffer`, `Sizes` | the serialisation formats and their round trip; what the readers accept and how the bytes lie; the buffer class; sizes computed in advance in 32 bits |
| `Util` | occurrence counts, sums, pigeonhole |

What the model assumes of the world:

- Steps are atomic and sequentially consistent. A write to a transport is one append to a byte
  stream, which is FIFO and loses nothing.
- The peer of a lone client answers requests that were written, once each. In `Link` this is not an
  assumption: `Link.ServerIsHonest` proves it of the server.
- Request streams are well formed (known command, at most 1 MiB).
- Creating a child coroutine and joining it is one step of its parent. `callerCoroutine` is then set
  before anything can resume the child from another thread.
- libuv: end, close and `stop` turn reading off, the kernel puts at most as many bytes as the
  allocation callback offers, and `run(ONCE)` returns only after it has read wake-up bytes or handled
  other events. The pipe is a counter of unread bytes.
- Multi-byte integers are little-endian, as on the hosts where the code copies their memory image.
  Maps are iterated by ascending keys, as `std::map` promises.

Where the code and its evident intent differ, and what the model does:

- src/proto/ServerHandler.cpp:27-32 resumes and erases the finished handlers but never empties
  `finishedHandlers`. The model empties the list, so that no handler is resumed twice.
- src/proto/ServerHandler.cpp:33-38 recognises a bad header, releases its mutex and, by an open todo,
  falls through. The model stops the connection there, as the todo says. Everything about the
  composed connection holds up to that point, and `Link.CollisionExactly` says when a tag brings it
  about.
- src/proto/ClientTransport.cpp:87-89 resumes a reader that lines 48-50 have already moved out. The
  model treats this as "resume if there is one"; there is none, which `ReleaseTag` asserts.
- src/proto/ClientTransport.cpp:60 reads the header from a table entry that line 52 may have erased.
  The model takes the header first.
- src/proto/ServerHandler.cpp:71-78 releases the write lock after every handler, though only Ping
  acquires it. The model keeps this. Mutual exclusion is false with GetNode in the mix
  (`Server.GetNodeBreaksExclusion`); `Server.ExclusionExactly` gives the exact condition.
- "The loop never runs while the lock is held" is false (`Loops.LoopRunsUnderTheLock`).
  `Loops.LoopRunsUnderExactly` says for which holds: those that begin with the loop thread at the top
  of its body and `stopping` unset, or waiting for its own mutex. `Loops.LoopDuringHold` is what holds
  in all of them.
- A coroutine that nobody awaits, a root, has no caller, and src/async/Promise.h:14-16 rethrows its
  exception. Once the root has suspended, that leaves the worker's `resume` or the event handler and
  nobody gets it (`Join.EscapesFromRoot`). The outcome of a tree reaches the root's creator if and only
  if it is a value or nothing in the tree suspends (`Join.LikeNestedCalls`).
- src/async/Promise.h:102 asserts that a promise is checked before it goes away. This is false for a
  coroutine that throws before it has suspended, when nobody has joined it (`Join.ThrowBeforeJoin`).
  A socket read on a closing handle is such a case (src/transport/PlainSocketTransport.cpp:100-104).
  `Join.LikeNestedCalls` counts exactly those.
- `calcSize`, the buffer's length and the guard `len - offset` are computed in 32 bits. For values of
  less than 2^32 bytes every guard and the final check pass, whatever the header. The bytes stay within
  the array if and only if header and values together fit 32 bits; otherwise all checks pass while
  bytes go outside (`Sizes.SizeExactly`).

## Model

| member | source | states |
|---|---|---|
| Wire.UIntRoundTrip | src/transport/Buffer.h:80-115 | an unsigned integer of any width is read back as it was written, if it is in the range of that width |
| Wire.RequestRoundTrip | src/proto/RequestHeader.h:9-13 | the 7 packed bytes of a request header give back length, command and tag |
| Wire.ResponseRoundTrip | src/proto/ResponseHeader.h:7-10 | the 6 packed bytes of a response header give back length and tag |
| Wire.RequestLayout | src/proto/RequestHeader.h:9-13 | byte by byte: four of length from the low one up, one of command, two of tag |
| Wire.ResponseLayout | src/proto/ResponseHeader.h:7-10 | byte by byte: four of length from the low one up, two of tag |
| Wire.RequestInverse | src/proto/RequestHeader.h:9-13 | every 7 bytes are the header they are read as, the command being byte 4 |
| Framing.FillHeader | src/proto/ClientTransport.cpp:27-30 | filling the header into the 7 bytes of room in front of a body makes exactly the frame of that command, tag and body, with length field `len - 7` |
| Framing.ParseConcat | src/proto/ServerHandler.cpp:22-50 | reading the concatenation of any frames gives the same commands, tags and bodies in the same order and leaves an incomplete tail alone |
| Framing.Listen | src/proto/ServerHandler.cpp:22-46 | the loop, header read then body read, takes exactly the frames `Parse` finds and ends where no read can complete |
| Client.LoneSender | src/proto/ClientTransport.cpp:37-43 | a table of size one after a reservation means that nobody else is alive and no reader exists: the assertion on `currentWaitForResponseCoroutine` holds |
| Client.NextHeader | src/proto/ClientTransport.cpp:100-110 | the armed reader finds the header of the oldest answer in flight, with the tag and the length of the call it answers |
| Client.NextBody | src/proto/ClientTransport.cpp:77-84 | a body read takes the next bytes of the reader's own answer, never of another response |
| Client.StepKeeps | src/proto/ClientTransport.cpp:19-134 | every step of client or honest peer keeps: tags in the table and live calls correspond one to one, one lock holder, one reader, no unknown tag, every call has received a prefix of its own answer, the input stream is the rest of the open response and then the answers in flight |
| Channels.Refines | src/proto/ClientTransport.cpp:19-119 | every step of the multiplexer is an allowed action of private channels, one per request, with no tags looked up and no stream shared, where a read returns exactly as many bytes as were asked for |
| Channels.RunRefines | src/proto/ClientTransport.cpp:19-119 | over every run, what callers observe is a trace of the private channels and the final states agree |
| Channels.OneHeader | src/proto/ClientTransport.cpp:100-119 | on private channels a call is given its header at most once, and once exactly when it becomes open |
| Channels.NothingBeforeHeader | src/proto/ClientTransport.cpp:77-98 | on private channels the bytes given to a call are a prefix of its body, none before its header |
| Channels.EachCallServed | src/proto/ClientTransport.cpp:19-119 | from the start, in every run: a requester is resumed at most once; when finished, exactly once, with its own tag and the answer's length, and the bytes it read are exactly that answer |
| Channels.ReadGetsWhatItAsked | src/proto/ClientTransport.cpp:77-84 | in every run from a caller's asking for `n` bytes to the completion of its read: it gets exactly the next `n` bytes of its answer, and asking for all that is left ends the body in that one read |
| Channels.SingleReader | src/proto/ClientTransport.cpp:37-58 | a reader exists exactly while some request is written and unfinished and no body is being drained; an empty table means no reader; two transport reads are never outstanding |
| Channels.ArmingFindsNoLiveReader | src/proto/ClientTransport.cpp:37-58 | starting a reader never overwrites a live one |
| Channels.OwnStepsEnd | src/proto/ClientTransport.cpp:47-98 | every own step of the client lowers a measure, so with a silent peer it comes to rest |
| Channels.NothingLost | src/proto/ClientTransport.cpp:47-119 | a client at rest has read its whole input, nobody holds the lock, and every call that was answered is finished: no requester is stuck |
| ClientTransports.FullTable | src/proto/ClientTransport.cpp:121-133 | at most 65535 tags are pending, and that many exactly when no tag below 65535 is free |
| ClientTransports.ScanTags | src/proto/ClientTransport.cpp:125-131 | the scan succeeds exactly when fewer than 65535 tags are pending, and then returns the least free one |
| ClientTransports.ClientTransport.ReserveRequestState | src/proto/ClientTransport.cpp:121-134 | one pass of the loop reserves the least free tag with the lock held, or changes nothing when the table is full |
| ClientTransports.ClientTransport.WriteAndSuspend | src/proto/ClientTransport.cpp:27-46 | the caller's frame is appended, the reader is armed exactly when the table has one entry, the lock is released |
| ClientTransports.ClientTransport.OnHeader | src/proto/ClientTransport.cpp:100-119 | the requester of the tag gets the header and is scheduled; an unknown tag fails the reader and schedules nobody |
| ClientTransports.ClientTransport.ResumeRequester | src/proto/ClientTransport.cpp:47-61 | the header returned is that of the caller's own answer; without a body the tag is released and the next reader armed if anybody waits |
| ClientTransports.ClientTransport.AskBody | src/proto/ClientTransport.cpp:77-83 | the assertions hold exactly when something is left and `size` is within it; then a read of exactly `size` bytes is outstanding, otherwise nothing happens |
| ClientTransports.ClientTransport.ReadWholeBody | src/proto/ClientTransport.cpp:77-97 | a body that has arrived is taken whole by one read, and the caller's tag, and no other, leaves the table |
| ClientTransports.ClientTransport.ReadSmallResponse | src/proto/ClientTransport.cpp:69-74 | with the response arrived, the buffer returned holds exactly the caller's answer, and nothing is read for an empty one |
| ClientTransports.ClientTransport.OnBody | src/proto/ClientTransport.cpp:77-84 | the bytes returned are the next `size` bytes of the caller's own answer |
| ClientTransports.ClientTransport.ReleaseTag | src/proto/ClientTransport.cpp:85-97 | after the last byte exactly the caller's own tag leaves the table, the caller is finished, and the step arms the next reader exactly if anybody waits |
| Server.StepBasic | src/proto/ServerHandler.cpp:20-113 | every step keeps: waiters are the queued handlers, each once; finished ones are recorded, each once; a handler has written once or never according to its phase |
| Server.ByTheBytes | src/proto/ServerHandler.cpp:33-35 | by the bytes of a header: refused exactly if its length is over 2^20, byte 4 is neither 1 nor 2, or an unreaped handler has its tag; otherwise the handler gets exactly the body, and goes for the write lock with 1 and returns without a response with 2 |
| Server.OnlyPingsWrite | src/proto/CommandId.h:7-12 | in every run only a handler of command 1 writes |
| Server.ExclusionExactly | src/proto/ServerHandler.cpp:71-78 | a step keeps mutual exclusion (one holder, flag up exactly then, waiters only then) if and only if its release, if any, is by the holder or finds the lock free |
| Server.RunExclusiveExactly | src/proto/ServerHandler.cpp:63-113 | in every run: mutual exclusion holds in all its states if and only if every release in it is by the holder or finds the lock free |
| Server.PingsExclude | src/proto/ServerHandler.cpp:98-113 | in every run whose requests are all Pings, the write lock excludes |
| Server.GetNodeBreaksExclusion | src/proto/ServerHandler.cpp:69-78 | a run with one GetNode after which two handlers own the write lock |
| Server.LastComesFirst | src/proto/ServerHandler.cpp:71-78 | the hand-off is last in, first out: a release right after a handler has queued up gives that handler the lock and leaves the others queued in order |
| Server.HandlersEnd | src/proto/ServerHandler.cpp:63-88 | every handler step, the LIFO hand-off included, lowers a measure |
| Server.EverybodyWrites | src/proto/ServerHandler.cpp:63-113 | in every run with any mix of handlers, up to a refused header: when no handler can move, nobody is left waiting, the lock is free, every handler in the table has run to its end; and over the whole run, reaped handlers included, the writes on each tag are as many as the Pings accepted with it, less one whose body is still being read |
| ServerHandlers.ServerHandler.ReapFinished | src/proto/ServerHandler.cpp:27-32 | the loop removes exactly the recorded handlers and empties the list |
| ServerHandlers.ServerHandler.OnHeader | src/proto/ServerHandler.cpp:25-42 | a header is accepted exactly when its length, its command and, after the reap, its tag allow it |
| ServerHandlers.ServerHandler.OnBody | src/proto/ServerHandler.cpp:43-50 | the handler scheduled is that of the tag being read and has exactly the bytes read |
| ServerHandlers.ServerHandler.AcquireWriteLock | src/proto/ServerHandler.cpp:98-113 | a free lock is taken, otherwise the handler is queued once, behind all others; exclusion is kept |
| ServerHandlers.ServerHandler.WritePong | src/proto/shadow/PingHandler.cpp:6-14 | the response is a header with the request's tag and length 0 |
| ServerHandlers.ServerHandler.ReleaseWriteLock | src/proto/ServerHandler.cpp:71-78 | the waiter queued last, and only that one, is handed the lock; with nobody waiting it is freed; exclusion survives exactly when the release was safe |
| ServerHandlers.ServerHandler.RecordFinished | src/proto/ServerHandler.cpp:80-87 | the handler is recorded once, at the end of the list |
| Link.ClientConserves | src/proto/ClientTransport.cpp:31-58 | every client step keeps each written and unreleased tag in exactly one place and every other tag nowhere |
| Link.CollisionExactly | src/proto/ServerHandler.cpp:27-39 | a frame's tag is refused after the reap if and only if its previous handler has written its response and is not yet recorded; no other state of a handler can be in the way, and that handler is a Ping that wrote once |
| Link.ServerIsHonest | src/proto/shadow/PingHandler.cpp:6-14 | a handler that writes answers a tag whose request was written, is still waited for and was not answered before: what the client needs of its peer |
| Link.HandlerServesItsCaller | src/proto/ServerHandler.cpp:39-50 | a handler that writes has the command and the body of the very call that will get its response |
| Link.Parts | src/proto/ServerHandler.cpp:22-50 | every step of the connection is one step of the client machine with an honest peer, of the server machine, or of both |
| Link.StepKeeps | src/proto/ServerHandler.cpp:22-88 | every step of the connection keeps conservation, the request stream as rest of one frame and then whole frames of live calls, and each handler on its caller's request |
| Link.EveryRequestInOnePlace | src/proto/ClientTransport.cpp:31-58 | in every run up to a refused header: a tag whose request is written and not released is in exactly one of request in transit, server, response in transit, delivered, ended without response; any other tag is in none |
| Link.ClientSide | src/proto/ClientTransport.cpp:19-119 | the client's side of every run of the connection is a run of the client machine with an honest peer, ending in the same state |
| Link.CallsServedByTheirHandlers | src/proto/ClientTransport.cpp:19-119 | over the whole connection: a finished call was resumed exactly once, with its own tag, and read exactly the body that one step of the run wrote; it is the only step that wrote for this call, a handler's, at which the tag belonged to the call and the handler had its command and request |
| Collision.CollisionHappens | src/proto/ServerHandler.cpp:80-87 | a run of two Pings, one after the other, that ends in a refused tag: the window is real |
| Progress.StepHealthy | src/proto/shadow/GetNodeHandler.cpp:4-8 | every step keeps: only calls that did not ask for a Ping end without a response, and a lock that is taken or waited for has a holder |
| Progress.ConnectionEnds | src/proto/ServerHandler.cpp:20-113 | without new calls every step of either end lowers a lexicographic measure: the connection comes to rest, whatever the bodies of the responses |
| Progress.EveryPingReturns | src/proto/ClientTransport.cpp:19-119 | in every reachable state at rest, no tag having collided: both streams are empty and every call is finished, except those whose handler ended without a response, none of them a Ping |
| Socket.StepKeeps | src/transport/PlainSocketTransport.cpp:83-229 | every event in any order keeps: buffer fields consistent, flag up exactly while a read is outstanding, completed reads in stream order, nothing received after a failed read |
| Socket.ReadsAreSlices | src/transport/PlainSocketTransport.cpp:189-219 | after any events, every read that returned data returned exactly its slice of the stream, after the sizes of all reads before it |
| Socket.SegmentationIrrelevant | src/transport/PlainSocketTransport.cpp:189-219 | two runs with the same read sizes and however different segmentations return the same bytes for the same read |
| Socket.OneOutcomeEach | src/transport/PlainSocketTransport.cpp:83-135 | in every reachable state: offset within size, flag up exactly while a read is outstanding, a data event finds a handle, every read has one outcome and is scheduled at most once |
| Socket.FailureReachesReader | src/transport/PlainSocketTransport.cpp:97-188 | a close, error or end event ends the outstanding read with the exception exactly once: a suspended one at the event, which schedules it; one not yet suspended when it suspends, without scheduling, or, after a mere end, when the end is reported again |
| Socket.NothingAfterFailure | src/transport/PlainSocketTransport.cpp:97-229 | once the stream has ended or the handle is closing, every read that ends does so with the exception, but for reads of no bytes |
| Socket.OpenReadCompletes | src/transport/PlainSocketTransport.cpp:104-119 | a suspended read on an open connection takes any chunk up to its size, and with the last byte completes, is resumed, and turns reading off |
| Socket.AnyCuttingCompletes | src/transport/PlainSocketTransport.cpp:189-219 | however its bytes are cut into chunks, such a read gets all of them in order and completes with the last |
| Socket.ClosedForGood | src/transport/PlainSocketTransport.cpp:97-105 | after a close, a close event or an error, with or without a read outstanding, in every run: every read of bytes begun later ends with the exception when it suspends, is never scheduled and is never the handle that events resume |
| PlainSockets.PlainSocketTransport.RawRead | src/transport/PlainSocketTransport.cpp:83-95 | the caller's array becomes the buffer; a read of no bytes is over at once with the flag down |
| PlainSockets.PlainSocketTransport.SuspendRead | src/transport/PlainSocketTransport.cpp:96-119 | the read suspends with reading on; on a closing handle it fails at once, before anybody has joined it, so that the exception goes to its creator and nothing is scheduled |
| PlainSockets.PlainSocketTransport.OnData | src/transport/PlainSocketTransport.cpp:189-219 | the chunk goes into the caller's array behind what is there; the read is resumed exactly when the array is full, with its whole contents; the assertions of lines 196, 205 and 213 hold |
| PlainSockets.PlainSocketTransport.OnEnd | src/transport/PlainSocketTransport.cpp:163-173 | a suspended read, and only that, is failed and scheduled; no handle is left |
| PlainSockets.PlainSocketTransport.OnCloseOrError | src/transport/PlainSocketTransport.cpp:222-229 | a suspended read, and only that, is failed and scheduled; the handle is closing, and every later read of bytes fails |
| PlainSockets.PlainSocketTransport.Close | src/transport/PlainSocketTransport.cpp:148-151 | the handle is closing and every later read of bytes fails; the outstanding read stays for the close event |
| Loops.StepKeeps | src/async/EventLoop.cpp:44-105 | every step of the loop thread and of any acquirer keeps: who holds which mutex, who is recorded as owner, and what the loop can be doing during a hold |
| Loops.NoLostWakeUp | src/async/EventLoop.cpp:81-86 | in every reachable state with an acquirer waiting for `eventLoopEnteredLock` and the loop in `run(ONCE)`, the pipe is non-empty and `run` can return |
| Loops.LoopDuringHold | src/async/EventLoop.cpp:44-50 | during one hold the loop enters `run` at most once; if it was inside when the hold began it is outside from the return of acquire to the release; any entry after that return finds the wake-up byte unread |
| Loops.LoopRunsUnderTheLock | src/async/EventLoop.cpp:44-50 | a run in which the loop is inside `run` while a thread holds the lock: plain exclusion is false |
| Loops.LoopRunsUnderExactly | src/async/EventLoop.cpp:44-87 | for every hold: some run of it has the loop inside `run` after the acquire has returned, if and only if, when line 78 took the mutex, the loop thread was at the top of its body with `stopping` unset or waiting for its own mutex |
| Loops.OneLiveGuard | src/async/EventLoop.cpp:75-80 | at most one live guard, its thread holds `eventLoopExitedLock`, and the recorded owner really holds it |
| Loops.HoldLasts | src/async/EventLoop.cpp:76-80 | the mutex stays with its holder through nested acquires and drops, its own and others', until its outermost release; a nested acquire only adds a null guard |
| Loops.Balance | src/async/EventLoop.cpp:70-105 | over every run, for every thread: nested acquires are the null guards alive or dropped, outer acquires are those at the first mutex or that have taken it, and each taking is released once or still held |
| Loops.NeverFurther | src/async/EventLoop.cpp:78-87 | once an acquirer has the first mutex no step takes it further from its return, and every step of the loop brings it closer |
| Loops.AcquirerGetsIn | src/async/EventLoop.cpp:78-87 | there is always a step that brings the acquirer closer, its own or the loop's, needing no other event |
| Loops.EndsOnlyWhenStopped | src/async/EventLoop.cpp:44-44 | in every reachable state the loop thread has ended only if `stopping` is set, and a stop stays |
| Loops.LoopGoesRound | src/async/EventLoop.cpp:44-50 | each step of the loop thread brings it closer to `run` while not stopped; it ends exactly at the test with `stopping` set and enters `run` exactly from its own mutex, holding the other one only between lines 48 and 49 |
| Loops.LoopGetsToRun | src/async/EventLoop.cpp:44-50 | in every state of the invariant with `stopping` unset and the loop outside `run` there is a step, of the loop or of the holder it waits for, that lowers a measure to `run` |
| Loops.AcquireStops | src/async/EventLoop.cpp:61-65 | with `stopping` set, an acquirer that has written its byte and has its guard leaves the loop unable to block on its way to its end |
| Loops.StaysStopping | src/async/EventLoop.cpp:44-50 | from then on no step takes the loop back, and every step of it brings it closer to its end |
| Loops.LoopGetsToItsEnd | src/async/EventLoop.cpp:56-68 | and there is always a step, of the loop or of the holder it waits for and without outside events, that lowers the measure to its end |
| Loops.PipeCounts | src/async/EventLoop.cpp:31-39 | the unread bytes are those written by acquirers and not read by the loop |
| Loops.WaitsGoDown | src/async/EventLoop.cpp:44-50 | who waits for a mutex has a higher rank than who holds it |
| Loops.NoWaitCycle | src/async/EventLoop.cpp:44-87 | no chain of lock waits among the loop thread and the acquirers, however long, comes back to its start |
| EventLoops.EventLoop.AcquireEventLoopLock | src/async/EventLoop.cpp:75-77 | a caller gets a guard that does nothing exactly when it is the loop thread or already holds the lock |
| EventLoops.EventLoop.LockExitedLock | src/async/EventLoop.cpp:78-79 | the first mutex and the guard, with the new hold recording whether the loop is inside `run` |
| EventLoops.EventLoop.RecordOwner | src/async/EventLoop.cpp:80-80 | the recorded owner is the thread that holds the mutex |
| EventLoops.EventLoop.WakeLoop | src/async/EventLoop.cpp:81-84 | one more wake-up byte; if the loop is inside `run` it can now return |
| EventLoops.EventLoop.LockEnteredLock | src/async/EventLoop.cpp:85-85 | the second mutex is had only with the loop outside `run` |
| EventLoops.EventLoop.UnlockEnteredLock | src/async/EventLoop.cpp:86-87 | the acquire returns with the lock held |
| EventLoops.EventLoop.ClearOwner | src/async/EventLoop.cpp:103-103 | the owner is forgotten while the mutex is still held |
| EventLoops.EventLoop.UnlockExitedLock | src/async/EventLoop.cpp:104-104 | the mutex is free |
| EventLoops.EventLoop.LoopStep | src/async/EventLoop.cpp:44-50 | one step of the loop thread; it ends exactly at the test with `stopping` set, and after line 49 it is back at the test |
| EventLoops.EventLoop.RequestStop | src/async/EventLoop.cpp:61-61 | `stopping` is set and nothing else |
| EventLoops.EventLoopLock.Take | src/async/EventLoopLock.h:17-20 | the new guard has the loop, the old one is left empty |
| EventLoops.EventLoopLock.Destroy | src/async/EventLoopLock.cpp:7-10 | a live guard clears the owner and frees the mutex, a null guard changes nothing |
| EventLoops.MovedGuardReleasesOnce | src/async/EventLoopLock.h:9-23 | of a guard and the one it was moved into, exactly one releases: the owner is cleared and the mutex free |
| Pool.StepKeeps | src/async/ThreadPool.cpp:18-57 | every step keeps: with somebody asleep the tasks are at most the awake poppers plus the notifications owed; after the stop the tasks present and to come are at least the workers owed a pop; every pushed task is queued or popped, as often as it was pushed |
| Pool.NobodySleepsOverATask | src/async/ThreadPool.cpp:20-27 | in every reachable state with a task queued, a worker asleep and no notification owed, an awake worker is about to pop |
| Pool.EveryTaskResumed | src/async/ThreadPool.cpp:28-33 | over every run a coroutine was pushed as often as it is still queued or a worker began to resume it |
| Pool.BusyDrops | src/async/ThreadPool.cpp:18-45 | every own step of a pool that is given no more tasks lowers a measure |
| Pool.RestingMeansDone | src/async/ThreadPool.cpp:18-35 | in every reachable state of a pool with workers, not stopped, in which nothing can move by itself: no task is queued, everybody is asleep, and every coroutine was resumed as often as it was pushed |
| Pool.NobodyLeaves | src/async/ThreadPool.cpp:18-18 | in every run without a stop no worker has left its loop |
| Pool.EverybodyLeaves | src/async/ThreadPool.cpp:53-57 | in every run with one, once nothing can move by itself all have |
| Pool.StoppedMeansExited | src/async/ThreadPool.cpp:53-57 | a stopped pool in which nothing can move by itself has only exited workers |
| Pool.EnergyDrops | src/async/ThreadPool.cpp:18-45 | after the stop every own step lowers a measure; a push from outside adds two to it, a spurious wake-up one |
| Pool.ShutdownIsBounded | src/async/ThreadPool.cpp:53-57 | after the stop the own steps of any run are bounded by the measure at the stop plus what comes from outside |
| Pool.ThreadPool.TestStop | src/async/ThreadPool.cpp:18-18 | the worker goes on to pop exactly while the flag is down, and leaves otherwise |
| Pool.ThreadPool.PopTask | src/async/ThreadPool.cpp:20-35 | the task pushed last is taken and the worker is resuming exactly that coroutine; a null runs nothing, an empty list puts the worker to sleep |
| Pool.ThreadPool.PushTask | src/async/ThreadPool.cpp:40-44 | the task is last in the list and a notification is owed |
| Pool.ThreadPool.NotifyOne | src/async/ThreadPool.cpp:45-45 | one sleeper is woken, if there is one |
| Pool.ThreadPool.TaskReturned | src/async/ThreadPool.cpp:33-35 | the worker is back at the test of the flag |
| Pool.ThreadPool.BlockingStop | src/async/ThreadPool.cpp:53-55 | the flag is up, one null for each worker is queued behind the tasks, nothing is owed, and only sleepers have moved |
| Pool.ThreadPool.IsScheduled | src/async/ThreadPool.cpp:59-67 | true exactly when the address is in the list |
| Join.AdvanceMeaning | src/async/Promise.h:58-95 | every step of a coroutine, a resumption or an outside failure keeps the ending its root is heading for: the outcome of nested calls for the creator, or the escape of that exception once the root has suspended |
| Join.AdvanceKeeps | src/async/Promise.h:67-83 | every step keeps: parents' promises untouched, an exception held by the ended or failed coroutine only, whoever has suspended is joined with all between it and the root, the root is never joined |
| Join.AdvanceEnds | src/async/FinalAwait.h:16-26 | every step lowers the steps left |
| Join.AdvanceLost | src/async/Promise.h:14-21 | the promises already gone unchecked plus those still to go are constant: the coroutines that throw before they have suspended |
| Join.ScheduleKeeps | src/async/ChainedAwaitObject.h:21-54 | the same for any number of roots under any schedule |
| Join.LikeNestedCalls | src/async/Promise.h:14-95 | under any interleaving of any number of trees: the outcome of nested calls reaches a finished root's creator if and only if it is a value or nothing in the tree suspends, otherwise exactly that exception escapes; every stored exception was handed over exactly once and in order, and the promises destroyed unchecked are exactly the coroutines that threw before they had suspended |
| Join.EscapesFromRoot | src/async/Promise.h:14-16 | a run in which a root's exception is neither stored nor handed over and leaves the worker that resumed it |
| Join.EndsInTime | src/async/FinalAwait.h:16-26 | a root is over after at most as many steps of its own as its tree costs, however it is interleaved |
| Join.ThrowBeforeJoin | src/async/Promise.h:97-102 | a run in which promises are destroyed unchecked |
| Promises.Promise.UnhandledException | src/async/Promise.h:14-21 | without a caller the exception goes on to the creator and is not stored; with one it is stored for it |
| Promises.Promise.AwaitResume | src/async/ChainedAwaitObject.h:66-76 | the parent gets exception or value and the promise may be destroyed |
| Promises.JoinedChild | src/async/ChainedAwaitObject.h:21-54 | a child that is joined and then ends with an outcome hands over exactly that outcome, transfers to its caller and may be destroyed |
| Codec.ScalarsRoundTrip | src/transport/Buffer.h:117-124 | any vector of integers or blocks comes back equal and leaves the rest |
| Codec.AscendingEntries | src/transport/Buffer.h:95-102 | the entries written are those of the map, by strictly ascending keys |
| Codec.AscendingIsMap | src/transport/Buffer.h:126-136 | they are as many as the map has, and assigned one after the other they give the map |
| Codec.EntriesRoundTrip | src/transport/Buffer.h:126-136 | any integer-keyed integer map comes back equal and leaves the rest |
| Codec.RoundTrip | src/transport/Buffer.h:80-136 | any value that fits its schema comes back equal and leaves the rest |
| Codec.RoundTripAll | src/transport/Buffer.h:80-136 | any sequence of integers, Ids, signatures, strings, vectors and maps comes back equal under the same schemas, consuming exactly the bytes written |
| Formats.DecodeExactly | src/transport/Buffer.h:104-136 | for all bytes and every schema: a read returns a value and a rest if and only if the bytes begin with that value written in full and go on with that rest; a map takes the last value of each key written |
| Formats.ThrowsExactly | src/transport/Buffer.cpp:108-117 | a read throws exactly on bytes that begin with no value of the schema |
| Formats.Extends | src/transport/Buffer.h:104-136 | what is read does not depend on what comes after |
| Formats.CutThrows | src/transport/Buffer.h:104-136 | a value cut short anywhere throws, whatever its kind |
| Formats.CutAllThrows | src/transport/Buffer.h:104-136 | so does a sequence of values cut short anywhere |
| Formats.ItemAt | src/transport/Buffer.h:89-93 | item `i` of a vector stands at `i` times the size of an item behind the count |
| Formats.PairAt | src/transport/Buffer.h:95-102 | entry `i` of a map stands at `i` times the size of an entry behind the count, its key first |
| Buffers.Buffer.constructor | src/proto/RequestBuffer.h:11-12 | the length is body plus header in 32 bits; the offset lies within it exactly when the sum does not wrap below the header |
| Buffers.Buffer.WriteBytes | src/transport/Buffer.cpp:54-60 | all or nothing: on success exactly these bytes at the offset and none elsewhere, otherwise no change |
| Buffers.Buffer.WriteString | src/transport/Buffer.cpp:119-127 | count and text or nothing |
| Buffers.Buffer.WriteScalars | src/transport/Buffer.h:89-93 | the loop leaves a prefix of the encoding, the whole one exactly when it fits |
| Buffers.Buffer.WriteVec | src/transport/Buffer.h:89-93 | count and items, or a prefix of them, the whole exactly when it fits |
| Buffers.Buffer.WriteMap | src/transport/Buffer.h:95-102 | count and entries by ascending keys, or a prefix of them, the whole exactly when it fits |
| Buffers.Buffer.WriteAll | src/transport/Buffer.h:77-102 | a series of writes succeeds exactly when its encoding fits, and then that encoding is in place and nothing else changed |
| Buffers.Buffer.ReadScalar | src/transport/Buffer.h:107-115 | exactly the bytes of the integer or block, or a throw that consumes nothing |
| Buffers.Buffer.ReadString | src/transport/Buffer.cpp:108-117 | succeeds exactly when the bytes ahead begin with a count and as many bytes of text, returns that text and stands behind it; otherwise throws |
| Buffers.Buffer.ReadScalars | src/transport/Buffer.h:117-124 | the loop of `readVec` reads what the format says or throws |
| Buffers.Buffer.ReadEntries | src/transport/Buffer.h:126-136 | the loop of `readMap`, where a key read again replaces the earlier value |
| Buffers.Buffer.ReadAll | src/transport/Buffer.h:104-136 | a series of reads gives what the format says and stands behind it, or throws at the first that is short; the offset stays within the buffer either way |
| Sizes.CalcSizeWraps | src/transport/Buffer.h:27-51 | `calcSize` over integers, Ids and strings is the number of bytes they are written in, modulo 2^32 |
| Sizes.PassExactly | src/transport/Buffer.cpp:54-60 | the guards of any series of writes pass exactly when its bytes fit `len - offset` in 32 bits, wherever the offset is |
| Sizes.InBoundsExactly | src/transport/Buffer.cpp:54-60 | when the guards pass, all bytes go into the array if and only if the offset was within the length or there are none |
| Sizes.SizeExactly | src/proto/RequestBuffer.h:11-12 | writing values into a buffer of their `calcSize` behind any header passes every guard and `assertFullyUsed` exactly when they take less than 2^32 bytes, and stays within the array exactly when header and values together do |
| Sizes.FillExactly | src/transport/Buffer.h:138-142 | in place, for any values and header: the buffer is filled within its array, with no throw and no byte over, if and only if header and values together fit 32 bits, and then the body is their encoding |
| Buffers.WriteThenRead | src/transport/Buffer.h:80-136 | in place: values written where there is room are read back from there, equal, up to exactly where the writing stopped |

## Left out

- Data races, the C++ memory model, pointer lifetime and allocation failure: steps are atomic.
- `maxResponseSize` (src/proto/ClientTransport.cpp:26): stored and never enforced by the code.
- Refused requests beyond stopping the connection: the code's handling is an open todo.
- `listen`'s loop over the remaining handlers after ClosedTransportException (src/proto/ServerHandler.cpp:51-60), and failures of the transport below client and server: the composed connection stays open.
- Starvation: fairness of the scheduler, among acquirers of the event-loop lock and among callers that spin on a full tag table.
- `stop` of the event loop after its acquire: `uv_stop`, joining the thread, the loop's result.
- libuv, sockets, DNS, glog, `main.cpp`, `PlainSocketServer`, `PlainSocketTransport::connect`, `NodeContext`, `SyncCoroutineWaiter`: plumbing around the modelled parts.
- The cryptographic code and SecureOverlayTransport: foreign calls or pass-through.
- PublicKey and Node codecs: reading fills a new empty vector, so there is no round trip to state. `Buffer(std::vector<char>)`: it leaves the length 0.
- Id comparison and hex conversion: easy members only.
- `ThreadPool::waitEmpty`: it waits under a different mutex than the one that guards the list, so no progress claim holds.
- Double faults: a second exception for a promise that already holds one (an assertion in src/async/Promise.h:18).
- What the process does when an exception escapes a root: it ends there, while the model lets the other roots go on.
- `reserve` in `readVec` and the signed loop counter of `readVec` and `readMap`: counts of 2^31 and more are read by the same rule as smaller ones.
- Buffers.Buffer.constructor: when header and length wrap below the header, the offset lies behind the end and `len - offset` wraps too; the methods that change bytes are specified for buffers whose offset is within them, and Sizes covers the counters of the others.
- Sizes.FillExactly: stops when the length wraps below the header, where the source goes on outside its array; Sizes.SizeExactly says what its checks do then.
- Framing.Listen: the framing part of the loop only; reaping and handlers are in Server and ServerHandlers.
- Link.EveryRequestInOnePlace: up to the first refused header, because the code's behaviour after it is unfinished.
- Progress.EveryPingReturns: for runs without a collision of tags and callers that do not read zero bytes forever.
- Socket.FailureReachesReader: that libuv reports the end of the stream again once reading is turned on again is taken as given.
- ServerHandlers.ServerHandler.ReapFinished: empties the list, which the source does not; its next reap would use entries that are gone.
- ServerHandlers.ServerHandler.OnHeader: stops after a refused header, where the source falls through an open todo.
- EventLoops.EventLoopLock.Destroy: both steps of the release in one; steps of other threads between them are in Loops.
- Pool.StoppedMeansExited: a resumed coroutine is taken to return control to its worker.
- Promises.Promise.AwaitResume: hands exception or value to the parent in one step; the source does so when the result object is touched.

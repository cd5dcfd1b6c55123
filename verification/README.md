# Verified model of the echo server and of Reactor_v4

The repository holds two reactor servers that send back what they receive. `echo_server` (`src/`, `include/`) keeps
a connection per socket with an input and an output buffer and runs each connection on one event loop.
`Reactor_v4` reads lines on an IO thread, hands them to a bounded task queue and a thread pool, and gets the answers
back through the loop's functor list. This project models both and proves what they promise, and exactly when they keep
it. `echo_server` sends back what came in, in order, until the connection begins to close, however reads and writes are
cut, as long as no direct send meets a broken pipe and nobody else sends. `Reactor_v4` answers each message it has
received once, under every scheduling of its threads, as long as no client leaves the IO thread waiting in the middle of
a line or of an answer; in order of arrival only with a single worker, and otherwise with a bounded amount of
overtaking.

## Modules

| file | content |
|---|---|
| `Bytes.dfy` | bytes, options, concatenation of payloads |
| `Buffer.dfy` | the growable buffer: a class over one array, and its index arithmetic for whole runs |
| `ConnectionSpec.dfy` | the connection as a machine on values: state, epoll interest, buffers, posted tasks |
| `ConnectionTheorems.dfy` | the invariant of that machine and the step theorem |
| `EchoTheorems.dfy` | theorems about every run: order, echo, half close, foreign sends |
| `StreamTheorems.dfy` | the echo among other senders, and when everything is out |
| `ClosingTheorems.dfy` | the next state of every event, half close, forced close, what callbacks do |
| `Happenings.dfy` | what happens to a connection as its loop sees it, and what a run of that reads |
| `Connection.dfy` | the classes that work in place, each method proved to do what the machine does |
| `EchoServer.dfy` | naming, round robin, and the removal cascade |
| `TaskHandoff.dfy` | posting tasks to a loop: mutex, vector, eventfd |
| `TaskPool.dfy` | the bounded queue and the thread pool over interleaved threads, and `stop()` |
| `Pipeline.dfy` | IO thread, queue, workers and the way back as one machine |
| `PipelineOrder.dfy` | in what order that machine answers |
| `LineServer.dfy` | that machine with its sockets: where the IO thread waits for a client, and what then happens |
| `SocketIO.dfy` | `readn`, `readline`, `writen` and line framing |

## How the model is built

The kernel is never trusted. Arbitrary scripts say what each `readv` and `send` of a connection returns, and cut the peeks,
reads and sends of SocketIO. A theorem holds for all of them. Scripts are finite; past their end a connection's `send` is
not ready, and a `readv` or a SocketIO call is served in full.

`runInLoop` runs its argument inline on the loop thread, so the write-complete callback fires in the middle of
`sendInLoop` and `handleWrite`. The callback is any finite script of sends, shutdowns and force-closes, and the
functions and methods that run it call each other recursively, as the code does.

`Connections.Connection` keeps the source's fields and buffers. `View()` is its value, and each method's contract
says that the new `View()` is the machine's function of the old one. The theorems are about the machine. `Serve` and
`EchoOneConnection` carry them over to the objects, for any list of happenings: readiness reported by epoll, calls from the
loop and from other threads, posted tasks falling due. `EchoServers.EchoServer` shows that the removal cascade does to a
connection what `HandleError` and `HandleClose` of the machine say.

The multi-threaded parts are machines with one program counter per thread and labelled steps. Taking a mutex, the
test of a wait loop, the wait, a write to an unguarded flag, and each read or write of the eventfd are separate
steps. Condition variables wake one waiter of any choice, may wake spuriously, and let newcomers barge in.

`Pipeline` lets the IO thread's `receive` and `send` return at once. `LineServer` splits both, because the sockets of
`Reactor_v4` block: the IO thread enters `receive` on a readable connection and leaves it when the stream holds a line,
and leaves `send` when the client's window has room for the message. Every run of it is a run of `Pipeline`.

## Where the code does not do what its documentation says

- A client of `Reactor_v4` can silence it for all the others. The IO thread runs `readline` and `writen` itself. A client
  that ends its stream in the middle of a line keeps it in `readline` for ever, and messages already received are not
  answered in any continuation (`ScrapSilencesServer`, `DeadForever`); one that does not read its answer keeps it in
  `writen` until it does (`FullWindowSilencesServer`, `SendWaits`). Everything received is sent if and only if the
  stream being read, if any, holds a line and every client has room for what it will be sent (`DeliveredIff`).
- With two or more workers `Reactor_v4` may answer a later message first (`SecondOvertakesFirst`). The order of arrival
  is kept in every run if and only if there is no second worker, or no message gets through at all because the
  queue has no room (`OrderKeptIff`). The first k answers are among the first k + workers - 1 messages
  (`OvertakingIsBounded`).
- `ThreadPool::stop` is commented to wait until the queue is empty and then for the threads to exit. Without a worker it
  polls a non-empty queue for ever; it can leave its polling if and only if there is a worker or nothing to drain
  (`PollEndsIff`), and then it gets at least to its join under every scheduling (`StopGetsThrough`). `wakeup()` clears the
  flag and notifies without the mutex, so a worker between its test and its wait misses both (`HangIsReachable`).
  From the join on, without spurious wakeups and late pushes, `stop()` returns under every scheduling if no worker
  sleeps or is about to wait, and otherwise under none (`StopReturnsIff`); which of the two is decided at the moment of
  `notify_all` (`NotifyAllDecides`).
- After EPIPE or ECONNRESET `sendInLoop` drops the payload and leaves the connection CONNECTED, so a later payload
  can follow a hole (`BrokenPipeLeavesHole`). `EchoEndToEnd` is therefore an equivalence: output equals input while
  CONNECTED if and only if no direct send met such an error; in particular whenever the kernel has no such
  answer in store.
- A posted shutdown that runs after the connection was closed shuts the write side over bytes still queued, because
  `shutdownInLoop` looks at the interest, which closing has cleared (`ShutOverQueuedHappens`). It is the only way this can
  happen (`ShutOverQueued`).
- A connection that closed through `handleClose` stays in the loop's handler table for ever (`ClosedStaysRegistered`),
  because `destroyConnection` acts only on a CONNECTED one (`HandlerLeavesTable`).
- `readline` returns if and only if the stream holds a line or enough bytes; otherwise it peeks for ever
  (`ReadlineReturnsIff`). `receive` cuts a line at its first NUL byte (`Receive`).
- Round robin skips or repeats a loop where its 32-bit counter turns negative, at connection 2^31, and where it comes
  back to 0, at 2^32 (`RotatesIff`, `RotationBreaks`). Every loop follows the one before, and no loop ever gets two
  connections ahead, if and only if the number of loops divides 2^32 (`RotatesForever`, `BalancedForever`).

## Model

| member | source | states |
|---|---|---|
| `EchoTheorems.EchoEndToEnd` | src/connection.cpp:104-210 | In every run of reads of any size, partial writes, errors, shutdowns and closes in which only the message callback sends: while CONNECTED, bytes sent plus bytes queued are exactly the bytes received if and only if no direct send met a broken pipe, and none does if the kernel has no such answer in store. Without such an error they are a prefix of them in any state. The input buffer is empty between events. |
| `EchoTheorems.EveryRun` | src/connection.cpp:171-210 | With any callback script run inline and any foreign tasks: wire plus output buffer is the concatenation of the accepted payloads in acceptance order. epoll is armed for writing exactly while something is queued. Unless the connection is DISCONNECTED, the write side is shut only with nothing queued. A requested shutdown is never forgotten. |
| `EchoTheorems.NeverBack` | src/connection.cpp:36-90 | The state only moves forward and a closed connection never gets any interest back. After leaving CONNECTED the stream is frozen. After the write side is shut no byte reaches the wire. |
| `EchoTheorems.RunKeeps` | src/connection.cpp:36-225 | The invariant, the forward relation and the pending-shutdown guarantee hold over any finite run from any state that satisfies them. |
| `EchoTheorems.DrainShutsWrite` | src/connection.cpp:121-144 | The `handleWrite` that drains a DISCONNECTING connection shuts the write side, unless the write-complete callback force-closes it, and only then not. |
| `EchoTheorems.ClosingCallback` | src/connection.cpp:60-90 | On a closing connection any list of callback actions amounts to one forced close or to nothing. |
| `EchoTheorems.HandlerLeavesTable` | src/connection.cpp:46-58 | An event takes the handler out of the loop's table if and only if it calls `destroyConnection` while the connection is CONNECTED: a posted removal, or with a single loop an error event or a failed read. |
| `EchoTheorems.ClosedStaysRegistered` | src/connection.cpp:146-155 | A connection that is DISCONNECTED and still registered stays so in every continuation. |
| `EchoTheorems.ShutOverQueued` | src/connection.cpp:212-219 | An event shuts the write side with bytes still queued if and only if it runs a posted shutdown on a connection already DISCONNECTED. |
| `EchoTheorems.ShutOverQueuedHappens` | src/connection.cpp:78-90 | It happens: a payload not taken, a shutdown from another thread, a forced close, then the posted task. |
| `EchoTheorems.BrokenPipeLeavesHole` | src/connection.cpp:180-201 | On EPIPE or ECONNRESET the payload is dropped, the connection stays CONNECTED, and the next payload goes out after the hole. |
| `EchoTheorems.ForeignSendsInOrder` | src/connection.cpp:60-72 | In every run, callbacks and loop-side sends included: the payloads other threads posted are, in call order, those whose task ran while CONNECTED, those whose task ran later (none if still CONNECTED), and those that still wait; the first reach `sendInLoop` in this order. |
| `StreamTheorems.ChunksAreEchoed` | src/connection.cpp:104-119 | In every run, with any callbacks and sends from anywhere: the chunks read spell what was received, those read while CONNECTED come first and are offered to `sendInLoop` in order, each at its own place, and while CONNECTED there are no others. |
| `StreamTheorems.NothingElseIsOffered` | src/connection.cpp:171-210 | When only the echo and other threads send: `sendInLoop` is offered exactly the chunks read and the posted payloads run while CONNECTED, each once, in the order of events. |
| `StreamTheorems.OnlyForeignSends` | src/event_loop.cpp:217-227 | When only other threads send and nothing is read, with any closing and any other events: what they posted is, in call order and each once, what was offered, what came too late, and what still waits. |
| `StreamTheorems.WritesDrain` | src/connection.cpp:121-144 | A queue of n bytes is on the wire, in order, after n write events that each take something. |
| `StreamTheorems.EchoCompletes` | src/echo_server.cpp:201-210 | After that many write events on a CONNECTED echo without a fault, what was sent is what was received. |
| `EchoTheorems.CallbackFires` | src/connection.cpp:121-144 | The write-complete callback fires if and only if nothing remains: by a direct send taken whole with nothing queued, or by the write that empties the buffer. |
| `EchoTheorems.SendLogs` | src/connection.cpp:171-210 | One `sendInLoop` either accepts its payload or loses it to a broken pipe, and then either fires the callback or touches only the output buffer and the interest in writing. |
| `EchoTheorems.RunEchoes` | src/echo_server.cpp:201-210 | With quiet callbacks the payloads offered are a prefix of what was received, all of it while CONNECTED, and a fault makes the accepted bytes strictly fewer. |
| `ConnectionTheorems.StepKeeps` | src/connection.cpp:36-225 | Every event keeps the invariant and the forward relation, covers an owed shutdown, and, unless the connection is already DISCONNECTED, shuts the write side only when the output is empty. |
| `ConnectionTheorems.SendKeeps` | src/connection.cpp:171-210 | `sendInLoop` with its nested callbacks keeps the invariant, and on a closing connection its callbacks can only close harder. |
| `ConnectionTheorems.WriteKeeps` | src/connection.cpp:121-144 | `handleWrite` moves bytes from buffer to wire without changing their order or number, disarms epoll when drained, and keeps the invariant through the callback. |
| `ConnectionTheorems.ReadKeeps` | src/connection.cpp:104-119 | Reading, end of stream and a read error keep the invariant. |
| `ConnectionTheorems.EventsKeep` | src/event_loop.cpp:31-56 | One dispatch, in the order hang-up, error, read, write, keeps the invariant even if an earlier callback closed the connection. |
| `ConnectionTheorems.ForeignKeeps` | src/connection.cpp:60-90 | Calls from other threads keep the invariant, never move the state back, leave the write side as it is, and do not lose an owed shutdown. |
| `ClosingTheorems.NextState` | src/connection.cpp:36-225 | The next state for every event: DISCONNECTED if and only if it was, or the event is a hang-up without input, a read at the end of the stream, with one loop an error or failed read of a CONNECTED connection, a forced close on the loop, a posted forced close or (while CONNECTED) removal, or a callback called in it forces the close; otherwise DISCONNECTING if and only if it was, or the event or such a callback requests it; before the connection is established only that counts. |
| `ClosingTheorems.TasksAfter` | src/event_loop.cpp:172-182 | For every event: what it posts, at the back; a run takes the first; nothing else touches the tasks. |
| `ClosingTheorems.ForcedCloseAndRemoval` | src/connection.cpp:85-90 | A close forced on another thread is not lost: in every continuation the connection is DISCONNECTED or the task still waits. The same of a removal, which makes it leave CONNECTED. |
| `ClosingTheorems.ShutdownOnLoop` | src/connection.cpp:78-83 | `shutdown()` on the loop of a CONNECTED connection: DISCONNECTING, and the write side shut if and only if nothing is queued. |
| `ClosingTheorems.ShutdownPosted` | src/connection.cpp:78-83 | On another thread: DISCONNECTING at once and a task posted, and when it runs the write side is shut if and only if nothing is queued. |
| `ClosingTheorems.ShutWhenDone` | src/connection.cpp:212-219 | In every run, a closing connection without such a task has its write side shut if and only if nothing is queued. |
| `ClosingTheorems.ShutdownCompletes` | src/connection.cpp:121-144 | From the request on, n write events that each take something send all n queued bytes in order and then shut the write side, if and only if the callback at the end does not force the close. |
| `ClosingTheorems.WritableProgress` | src/event_loop.cpp:31-56 | An event that reports the socket writable, whatever else it reports, puts queued bytes on the wire unless it closes the connection. |
| `ClosingTheorems.CallbackSends` | src/connection.cpp:181-195 | The write-complete callback's actions are performed in order: its sends are offered behind the payload that completed, and exactly these, up to a closing request, if it is the last callback. |
| `Connections.Connection.SendInLoop` | src/connection.cpp:171-210 | In place: direct send if nothing is queued, the rest appended and epoll armed; the new value of the connection is the machine's, nested callbacks included. |
| `Connections.Connection.Offer` | src/connection.cpp:176-201 | The head of `sendInLoop`: what it leaves to be queued completes the machine's result. |
| `Connections.Connection.SendDirectly` | src/connection.cpp:180-201 | The direct send: what each answer of the kernel does to logs, wire and callback. |
| `Connections.Connection.HandleWrite` | src/connection.cpp:121-144 | In place: sends from the output buffer, retrieves what was taken, and finishes a drained buffer as the machine does. |
| `Connections.Connection.HandleRead` | src/connection.cpp:104-119 | In place: what the kernel's next choice lets it read of the peer's stream is appended and handed to the message callback; at the end of the stream it closes, on an error it reports. |
| `Connections.Connection.Turn` | src/event_loop.cpp:190-215 | Each happening has the effect `Events` says, and moves the peer's stream on by what was read. |
| `Connections.Connection.HandleClose` | src/connection.cpp:146-155 | In place: DISCONNECTED with no interest. |
| `Connections.Connection.HandleError` | src/connection.cpp:157-169 | In place: with one loop the connection is destroyed inline, otherwise left to a posted removal. |
| `Connections.Connection.Send` | src/connection.cpp:60-72 | Refused unless CONNECTED; inline on the loop thread, posted from any other. |
| `Connections.Connection.Shutdown` | src/connection.cpp:78-83 | DISCONNECTING at once; the write side follows inline or by a posted task. |
| `Connections.Connection.ForceClose` | src/connection.cpp:85-90 | From CONNECTED or DISCONNECTING; inline or by a posted task. |
| `Connections.Connection.ShutdownInLoop` | src/connection.cpp:212-219 | Shuts the write side unless writing is still armed. |
| `Connections.Connection.EstablishConnection` | src/connection.cpp:36-44 | CONNECTED, reading enabled, registered. |
| `Connections.Connection.DestroyConnection` | src/connection.cpp:46-58 | Acts on a CONNECTED connection only. |
| `Connections.Connection.MessageCallback` | src/echo_server.cpp:201-210 | Empties the input buffer and sends its content back. |
| `Connections.Connection.HandleEvents` | src/event_loop.cpp:31-56 | Dispatch of one epoll event to the callbacks, in source order. |
| `Connections.Connection.DoPendingTasks` | src/event_loop.cpp:217-227 | Swapping the list out and running the batch does what running the posted tasks one at a time does. |
| `Connections.Connection.Serve` | src/event_loop.cpp:93-106 | A whole run of the object: the machine run over the concatenation, happening by happening, of the events each amounts to, with what each read returns following from stream and kernel. |
| `Happenings.Amounts` | src/event_loop.cpp:190-227 | What each happening does: establishing, the dispatch of a registered connection with the next read of the stream, the API call, a posted removal, all posted tasks. |
| `Happenings.StreamConserved` | src/connection.cpp:104-119 | In every run, bytes received and bytes unread are the peer's stream. |
| `Happenings.WholeStreamIsRead` | src/connection.cpp:104-119 | n readable events without a failure read a stream of up to n bytes to its last byte, however the kernel cuts it, and one more finds its end and closes. |
| `Happenings.AcceptedAndServed` | src/echo_server.cpp:201-210 | And without callbacks all of it is echoed if no send meets a broken pipe. |
| `Connections.EchoOneConnection` | src/echo_server.cpp:201-210 | On the objects: received is the peer's stream up to what the run leaves unread, and what was sent plus what is queued equals what was received unless a direct send met a broken pipe. |
| `Connections.EchoWholeStream` | src/echo_server.cpp:201-210 | After the accept, as many readable events as the stream has bytes: all of it received, and sent or queued. |
| `Connections.EventHandler.EnableWriting` | include/event_loop.h:95 | Sets the write bit of the mask and leaves the read bit. |
| `Connections.EventHandler.DisableWriting` | include/event_loop.h:100 | Clears the write bit of the mask and leaves the read bit. |
| `ByteBuffer.Buffer.Append` | src/buffer.cpp:67-71 | The readable bytes become the old ones followed by the data, whatever makeSpace does. |
| `ByteBuffer.Buffer.MakeSpace` | src/buffer.cpp:98-111 | Yields the requested space without changing the readable bytes; the slide is an ascending copy whose destination is proved to lie outside the source range. |
| `ByteBuffer.Buffer.EnsureWritableBytes` | src/buffer.cpp:73-77 | At least the requested space, contents unchanged. |
| `ByteBuffer.Buffer.Retrieve` | src/buffer.cpp:44-50 | Drops that many bytes, or all if there are fewer. |
| `ByteBuffer.Buffer.RetrieveAsString` | src/buffer.cpp:58-65 | Returns the first bytes, at most as many as there are, and keeps the rest. |
| `ByteBuffer.Buffer.RetrieveUntil` | src/buffer.cpp:52-56 | Drops the bytes in front of a position; a position outside the readable range changes nothing. |
| `ByteBuffer.Buffer.RetrieveAll` | include/buffer.h:109-112 | Empties the buffer and resets both indices to the prepend mark. |
| `ByteBuffer.Buffer.Prepend` | src/buffer.cpp:79-87 | Puts the data in front if it fits before the read index, and otherwise changes nothing. |
| `ByteBuffer.Buffer.Shrink` | src/buffer.cpp:89-96 | Same contents in a fresh array with at least the reserve writable. |
| `ByteBuffer.Buffer.ReadFd` | src/buffer.cpp:113-138 | Whatever the kernel chooses to return, exactly the next n stream bytes are appended across the in-place and spill parts; n is at most the writable space, plus 65536 only if two vectors are used. |
| `ByteBuffer.Buffer.HasWritten` | include/buffer.h:178-180 | The bytes already placed behind the contents become readable. |
| `ByteBuffer.Buffer.Unwrite` | include/buffer.h:186-188 | Takes back the last bytes. |
| `ByteBuffer.Buffer.FindCRLF` | src/buffer.cpp:18-29 | The first CR LF at or after a readable position, none exactly if there is none. |
| `ByteBuffer.Buffer.FindEOL` | src/buffer.cpp:31-42 | The first line feed at or after a readable position, none exactly if there is none. |
| `ByteBuffer.CopyWithin` | src/buffer.cpp:105-107 | An ascending copy within one array delivers the old source bytes whenever the destination is outside the source range. |
| `ByteBuffer.MakeSpaceLayout` | src/buffer.cpp:98-111 | Enough space afterwards. It grows if and only if sliding would not make room, by no more than asked for; otherwise the bytes move left to just behind the eight-byte prepend area. |
| `ByteBuffer.PrependArea` | src/buffer.cpp:79-87 | After any calls without a prepend there is room for eight bytes in front, so a prepend of up to eight bytes succeeds. |
| `ByteBuffer.PrependedAndRetrieved` | src/buffer.cpp:79-87 | Retrieving what was prepended restores the indices. |
| `ByteBuffer.EmptyingFreesAll` | src/buffer.cpp:44-50 | Once everything is retrieved, all but the prepend area is writable again; before, the writable space does not change. |
| `ByteBuffer.ShrunkSize` | src/buffer.cpp:89-96 | After a shrink the array holds the prepend area and the larger of 1024 and the contents plus the reserve. |
| `ByteBuffer.StorageBound` | src/buffer.cpp:67-138 | Over any run in which the bytes held or promised never exceed R and no single request exceeds A, the array never outgrows its first size or R + A + 7 (with shrinks, the default size or R + A + 8). |
| `ByteBuffer.StorageBoundReached` | src/buffer.cpp:98-111 | The bound is tight: for every R and A with 1 <= A < R a run reaches it. |
| `EchoServers.EchoServer.HandleNewConnection` | src/echo_server.cpp:132-177 | A fresh name and id, placed by round robin, established inline on a single loop. |
| `EchoServers.EchoServer.RemoveConnection` | src/echo_server.cpp:179-183 | On the main loop the connection's entry and no other leaves the table; elsewhere the removal is posted. |
| `EchoServers.EchoServer.RemoveConnectionInLoop` | src/echo_server.cpp:185-195 | Erase under the lock, destroy outside it; the mutual recursion through the close callback terminates and never takes the lock twice. |
| `EchoServers.EchoServer.DestroyConnection` | src/connection.cpp:46-58 | A CONNECTED connection becomes DISCONNECTED and its close callback removes it again, harmlessly. |
| `EchoServers.EchoServer.HandleError` | src/echo_server.cpp:159-162 | The error cascade does to the connection what the machine says, and to the table exactly one removal. |
| `EchoServers.EchoServer.HandleClose` | src/connection.cpp:146-155 | The close cascade likewise. |
| `EchoServers.EchoServer.RunMainTask` | src/echo_server.cpp:179-195 | The main loop runs a posted removal: the entry leaves the table, and with worker loops the destruction is posted to the connection's own loop. |
| `EchoServers.EchoServer.RunDestroyTask` | src/connection.cpp:46-58 | The connection's loop runs a posted destruction, which posts another removal only if the connection was CONNECTED. |
| `EchoServers.RemovalsAreBounded` | src/echo_server.cpp:179-195 | With worker loops a removal is not passed to and fro for ever: in every run, each error or close of a connection costs at most two posted tasks, and its own end two more. |
| `EchoServers.EchoServer.GetNextLoop` | src/echo_server.cpp:218-225 | The loop for the next connection, and the counter moved on. |
| `EchoServers.EchoServer.OnlyOneLeaves` | src/echo_server.cpp:185-189 | Erasing one name keeps every other connection. |
| `EchoServers.NameInjective` | src/echo_server.cpp:143-146 | Different ids have different names. |
| `EchoServers.BalancedForever` | src/echo_server.cpp:218-225 | No loop ever gets two connections ahead of another, however many arrive, if and only if the number of loops divides 2^32; and in any case for the first 2^31 connections. |
| `EchoServers.RotatesForever` | src/echo_server.cpp:223 | Every connection goes to the loop after that of the one before, for ever, if and only if the number of loops divides 2^32. |
| `EchoServers.RotatesIff` | src/echo_server.cpp:223 | For every single connection: the rotation breaks only where the counter turns negative or comes back to 0, and there exactly if the loop count does not divide 2^64 - 2^32, or 2^64. |
| `EchoServers.AssignedCount` | src/echo_server.cpp:218-225 | How many connections each loop got, in closed form: for any number of connections if the loop count divides 2^32, and up to the wrap otherwise. |
| `EchoServers.RotationBreaks` | src/echo_server.cpp:223 | Seven loops lose the rotation at connection 2^31; three keep it there and lose it at 2^32. |
| `TaskHandoff.EveryRun` | wd_reactor_server/Reactor_v4/EventLoop.cc:59-98 | In every interleaving: executed, running and pending tasks are what was posted, in lock order. The loop sleeps on posted work only while a poster has yet to ring. A reported eventfd can be read without blocking. |
| `TaskHandoff.Rounds` | wd_reactor_server/Reactor_v4/EventLoop.cc:68-98 | In every run: each return of epoll_wait is dispatched to its end before the loop waits again; the first loop drains once after each dispatch, Reactor_v4 once for each alarm in the middle of one. |
| `TaskHandoff.Drains` | src/event_loop.cpp:93-106 | From every reachable state and under every scheduling: the number of steps is bounded but for new posts and returns of epoll_wait without the alarm, and until all that was posted has been executed, some other step is possible. |
| `TaskHandoff.ApplyKeeps` | wd_reactor_server/Reactor_v4/EventLoop.cc:129-139 | Every step of posters and loop keeps the alarm invariant, for the loop that always drains and for the one that drains only on the alarm. |
| `TaskHandoff.PushKeeps` | src/event_loop.cpp:172-182 | A push, before its ring, keeps the alarm invariant. |
| `TaskHandoff.RingNeverBlocks` | wd_reactor_server/Reactor_v4/EventLoop.cc:184-191 | With fewer than 2^64 posts the write to the eventfd never blocks. |
| `TaskHandoff.DueStep` | wd_reactor_server/Reactor_v4/EventLoop.cc:68-98 | While work is pending, a late ring or a step of the loop is possible that needs neither a new post nor a timeout. |
| `TaskHandoff.StepsLeftDrops` | wd_reactor_server/Reactor_v4/EventLoop.cc:68-98 | Every step uses up one of the steps in store; only a new post or a timeout adds to them, at most eight each. |
| `TaskPool.NoLostWakeup` | wd_reactor_server/Reactor_v4/TaskQueue.cc:22-82 | In every run: while a worker sleeps, queued tasks are at most the notified workers plus the one holding the mutex to take one; dually for blocked producers and free slots. Tasks are handed out in FIFO order, each held or executed once. |
| `TaskPool.BlockedMeansWorkerMoves` | wd_reactor_server/Reactor_v4/TaskQueue.cc:22-82 | With room for one task and one worker, a blocked producer that nobody signalled means that some worker can take a step: never is everybody asleep. |
| `TaskPool.ApplyKeeps` | wd_reactor_server/Reactor_v4/TaskQueue.cc:22-88 | Every step of every thread, spurious wakeups and barging included, keeps mutual exclusion, the bounds and the wakeup counts. |
| `TaskPool.TakeKeeps` | wd_reactor_server/Reactor_v4/TaskQueue.cc:67-77 | After a task was taken and one producer signalled, FIFO order, mutual exclusion and the wakeup counts still hold: each remaining task has its taker, each free slot its filler. |
| `TaskPool.PushKeeps` | wd_reactor_server/Reactor_v4/TaskQueue.cc:42-48 | After a push and its `notify_one`, the same, and the capacity is respected. |
| `TaskPool.ApplyConserves` | wd_reactor_server/Reactor_v4/ThreadPool.cc:103-121 | No step loses or repeats a task: executed plus held tasks are the popped ones. |
| `TaskPool.FrontIsSafe` | wd_reactor_server/Reactor_v4/TaskQueue.cc:67-72 | In every run, a worker about to call `front()` finds the queue non-empty and gets the oldest accepted task not yet handed out. |
| `TaskPool.DrainOnStop` | wd_reactor_server/Reactor_v4/ThreadPool.cc:48-72 | Whenever `stop()` has returned, every accepted task was executed exactly once or is still queued, and none is queued if no `addTask` overlapped `stop()`. |
| `TaskPool.StaysEmpty` | wd_reactor_server/Reactor_v4/ThreadPool.cc:51-58 | Without an overlapping `addTask`, a queue once seen empty by `stop()` stays empty. |
| `TaskPool.AfterNotifyAll` | wd_reactor_server/Reactor_v4/TaskQueue.cc:84-88 | After `notify_all` nobody sleeps, and a worker about to wait exists exactly if it held the mutex between its test and its wait. |
| `TaskPool.StopCanHang` | wd_reactor_server/Reactor_v4/TaskQueue.cc:56-65 | From the join on, some run puts a worker to sleep if and only if one is between its test and its wait. |
| `TaskPool.HangsForever` | wd_reactor_server/Reactor_v4/ThreadPool.cc:66-71 | With a worker asleep or about to wait, `stop()` stays in its join in every run without a spurious wakeup or a late push. |
| `TaskPool.HangIsReachable` | wd_reactor_server/Reactor_v4/ThreadPool.cc:48-72 | Such a run exists from the start, for any capacity and any number of workers but none. |
| `TaskPool.HangsIff` | wd_reactor_server/Reactor_v4/ThreadPool.cc:48-72 | Some run from the start has `stop()` join a sleeping worker if and only if the pool has a worker. |
| `TaskPool.StopGetsThrough` | wd_reactor_server/Reactor_v4/ThreadPool.cc:48-72 | With a worker, or nothing to drain, and no overlapping `addTask`, from any point of `stop()`: runs without spurious wakeups have a bounded number of steps besides idle polls, and until `stop()` has returned, or joins a worker that sleeps, some other step is possible. |
| `TaskPool.PollEndsIff` | wd_reactor_server/Reactor_v4/ThreadPool.cc:51-58 | `stop()` can leave its polling loop if and only if there is a worker or the queue is empty. |
| `TaskPool.PollsForever` | wd_reactor_server/Reactor_v4/ThreadPool.cc:51-58 | Without workers a queued task keeps `stop()` polling in every run whatsoever. |
| `TaskPool.StopReturnsIff` | wd_reactor_server/Reactor_v4/ThreadPool.cc:66-71 | From the join on, without spurious wakeups and late pushes: `stop()` can return if and only if no worker sleeps or is about to wait, and then it returns under every scheduling. |
| `TaskPool.NotifyAllDecides` | wd_reactor_server/Reactor_v4/TaskQueue.cc:84-88 | At `notify_all`: `stop()` can return if and only if the mutex is not held by a worker between its test and its wait. |
| `Pipeline.MessageConservation` | wd_reactor_server/Reactor_v4/TestTcpServer.cc:21-66 | At every interleaving step the messages received are, as a multiset, those in the IO thread's hand, queued, held by workers, pending, in the running batch, or handed to `send`. |
| `Pipeline.BlockedIoMeansWorkerMoves` | wd_reactor_server/Reactor_v4/TestTcpServer.cc:53-66 | Whenever the IO thread is blocked in `push`, some worker can take a step. |
| `LineServer.RunsThePipeline` | wd_reactor_server/Reactor_v4/TestTcpServer.cc:53-66 | Every run of the server with its sockets is a run of the pipeline, so conservation, deadlock freedom, order and the bound on overtaking hold for it. |
| `LineServer.RunningServer` | wd_reactor_server/Reactor_v4/EventLoop.cc:68-98 | From the empty server, in every run: at most 10 steps per worker, 3, and 42 for each thing the outside causes; some thread has a step of its own until everything received has been sent or the IO thread waits for a client; and while it is blocked in `addTask`, a worker has one. |
| `LineServer.DeliveredIff` | wd_reactor_server/Reactor_v4/EventLoop.cc:114-139 | From any reachable state, left to itself, the server sends all it has received if and only if the stream it is reading, if any, holds a line and every client has room for what it will be sent; and then under every scheduling and in a bounded number of steps. |
| `LineServer.ForcedKeepsFate` | wd_reactor_server/Reactor_v4/EventLoop.cc:129-139 | No step of the server's own changes which of the two it will be. |
| `LineServer.LinesAreEnough` | wd_reactor_server/Reactor_v4/SocketIO.cc:41-68 | If every connection that is dispatched has a whole line by then, the IO thread never waits in `receive`. |
| `LineServer.DeadForever` | wd_reactor_server/Reactor_v4/SocketIO.cc:47-65 | In `receive` on a stream that has ended without a line, nothing is received or sent in any continuation. |
| `LineServer.ScrapSilencesServer` | wd_reactor_server/Reactor_v4/EventLoop.cc:114-127 | Such a run exists: one client's line has been received, another client ends its stream without one, and the first is never answered. |
| `LineServer.SendWaits` | wd_reactor_server/Reactor_v4/SocketIO.cc:80-97 | In `send` to a client without room, nothing is sent to anybody in any continuation in which that client does not read. |
| `LineServer.FullWindowSilencesServer` | wd_reactor_server/Reactor_v4/TcpConnection.cc:38-41 | Such a run exists for every window smaller than the answer. |
| `LineServer.ReceivesWhatArrives` | wd_reactor_server/Reactor_v4/SocketIO.cc:41-68 | In every run, the bytes that arrived on a connection, read line by line, are the messages received from it, in order and each cut at its first NUL byte, and the rest is still unread. |
| `LineServer.OneWorkerEchoes` | wd_reactor_server/Reactor_v4/TestTcpServer.cc:21-66 | With one worker, what each client has been sent is a prefix of the lines that arrived from it, each cut at its first NUL byte, and all of them once everything is sent; without NUL bytes, sent plus unread is then what arrived. |
| `LineServer.WindowAddsUp` | wd_reactor_server/Reactor_v4/SocketIO.cc:80-97 | Room and bytes sent add up to the window the peer granted. |
| `Pipeline.ApplyKeeps` | wd_reactor_server/Reactor_v4/TcpConnection.cc:44-49 | Every joint step keeps both halves' invariants and the link between them: what workers executed is what was posted, in that order. |
| `Pipeline.SomeStep` | wd_reactor_server/Reactor_v4/ThreadPool.cc:103-121 | While anything is in flight, some thread has a step that waits for nothing from outside, as far as the IO thread is not inside `receive` or `send`. |
| `Pipeline.StepsLeftDrops` | wd_reactor_server/Reactor_v4/TestTcpServer.cc:21-66 | Every step of any thread uses up one of the steps in store; only new input, spurious wakeups and timeouts add to them. |
| `PipelineOrder.OneWorkerKeepsOrder` | wd_reactor_server/Reactor_v4/ThreadPool.cc:103-121 | With one worker, at every step: sent, on the way back, in work, queued and in hand are, in this order, the messages received. |
| `PipelineOrder.OvertakingIsBounded` | wd_reactor_server/Reactor_v4/ThreadPool.cc:103-121 | In every run the first k messages sent are among the first k + workers - 1 received. |
| `PipelineOrder.SecondOvertakesFirst` | wd_reactor_server/Reactor_v4/TestTcpServer.cc:21-66 | With two or more workers a run sends the second message while the first is still being worked on. |
| `PipelineOrder.OrderKeptIff` | wd_reactor_server/Reactor_v4/TestTcpServer.cc:21-66 | Messages are sent in order of arrival in every run if and only if there is at most one worker or the queue has no room. |
| `SocketIO.Readn` | wd_reactor_server/Reactor_v4/SocketIO.cc:17-37 | The next bytes of the stream, as many as asked for or as there are unless a call fails, in place and nowhere else. |
| `SocketIO.RecvPeek` | wd_reactor_server/Reactor_v4/SocketIO.cc:70-77 | Some next bytes, the stream untouched, interruptions retried; -1 only if a call fails otherwise. |
| `SocketIO.Readline` | wd_reactor_server/Reactor_v4/SocketIO.cc:41-68 | The first line with its line feed or the first maxlen - 1 bytes, terminated in bounds, with exactly those bytes consumed, however peeks and reads are cut. |
| `SocketIO.ReadlineFor` | wd_reactor_server/Reactor_v4/SocketIO.cc:41-68 | On any stream, with the loop cut off after a number of passes: it returns only with that line, and if at least maxlen passes are allowed it returns exactly when the stream holds one. |
| `SocketIO.ReadlinePass` | wd_reactor_server/Reactor_v4/SocketIO.cc:47-65 | One pass in place does what `Pass` says: consumes up to the line feed, or all that was peeked. |
| `SocketIO.LineUnique` | wd_reactor_server/Reactor_v4/SocketIO.cc:41-68 | That description determines the line. |
| `SocketIO.ReadlineReturnsIff` | wd_reactor_server/Reactor_v4/SocketIO.cc:47-65 | Passes of the loop, however the peeks are cut, return within maxlen if and only if the stream holds a line or maxlen - 1 bytes. |
| `SocketIO.Writen` | wd_reactor_server/Reactor_v4/SocketIO.cc:80-97 | A prefix of the data goes out, all of it if no call fails. |
| `SocketIO.FramingRoundTrip` | wd_reactor_server/Reactor_v4/SocketIO.cc:41-97 | Framed messages written one after the other are read back one by one, and what follows stays unread. |
| `SocketIO.LinesSpellStream` | wd_reactor_server/Reactor_v4/SocketIO.cc:41-68 | On any stream, framed or not, the lines read spell the stream up to where reading stopped. |
| `SocketIO.Conversation` | wd_reactor_server/Reactor_v4/SocketIO.cc:41-97 | The round trip through the two loops, under any partial sends, peeks and reads. |
| `SocketIO.Receive` | wd_reactor_server/Reactor_v4/TcpConnection.cc:30-35 | The message is the line up to its first NUL byte, so it is the line if and only if it holds none. |

## Left out

- Threads of Reactor_v4 (TaskQueue.cc, ThreadPool.cc, EventLoop.cc) and the posting side of src/event_loop.cpp are
  machines on values, not classes: Dafny has no threads, and the interleavings are the point.
- Connections.Connection.DoPendingTasks: runs its batch with no foreign call in between. Posts that fall between two tasks of a batch occur in the machine of `ConnectionSpec`, which runs one posted task per step.
- SocketIO.Readline: requires a stream with a line or enough bytes, where it ends. `ReadlineFor` does not. Both exclude a peek that fails, after which the code scans memory nobody wrote.
- SocketIO.ReadlineFor: cuts the loop off after a number of passes, because on a stream that has ended it does not terminate; and no failing peek.
- SocketIO.ReadlinePass: no failing peek.
- SocketIO.Receive: the same requirements as Readline.
- Connections.Connection.HandleClose: without the close callback, which EchoServers.EchoServer.HandleClose has.
- Connections.Connection.DestroyConnection: without the close callback, which EchoServers.EchoServer.DestroyConnection has.
- Connections.Connection.HandleError: with several loops the removal it asks for is the separate happening `RemovedElsewhere`; EchoServers.EchoServer.HandleError posts it.
- TaskPool.StopReturnsIff: stated for tasks that are values, not references. A spurious wakeup or a late push can free a sleeper; neither can be relied on.
- Pipeline.SomeStep: takes `receive` and `send` for single steps. `LineServer.RunningServer` and `LineServer.DeliveredIff` do not.
- Tasks and functors return: `Execute` in TaskPool, `RunOne` in TaskHandoff, and the posted tasks of `echo_server` are single steps, and so `StopGetsThrough`, `StopReturnsIff` and `Drains` assume it of them. Only the `send` of Reactor_v4 is split, in LineServer.
- LineServer: a `send` that fails because the client has reset the connection, a readable connection whose stream has ended with no byte left (it leaves the table), and the order in which epoll reports connections.
- EchoServers.RemovalsAreBounded: other ways of leaving CONNECTED only lower the bound and are not steps of it.
- TaskPool.BlockedMeansWorkerMoves: holds before the exit flag is set; afterwards workers may have left.
- Sizes are unbounded naturals: wrap-around of `size_t` in the buffer and of `next_conn_id_` is not modelled. The wrap of the round-robin counter and the limit of the eventfd counter are.
- The two tests-then-sets of `shutdown` and `forceClose` are atomic steps; so is each method up to where it hands over to the loop.
- The unguarded flags `m_flag` and `m_isExit` and the unguarded `empty()` in `stop()` are read and written atomically, in one global order.
- Message callbacks other than the echo, the connection callback, and `setsockopt`-like calls.
- Failing `epoll_ctl`, `shutdown` and eventfd calls, which the code only logs.
- Object lifetime, raw `this` captures, descriptor reuse, copying and moving buffers.
- `EchoServer::start` and `stop`, `EventLoop::stop` and the quit flag, the sockets' set-up, addresses, logging, options, the client.
- The connection table and the close detection of Reactor_v4's loop, and its Acceptor.
- Reactor_v1 to v3, whose code Reactor_v4 repeats.

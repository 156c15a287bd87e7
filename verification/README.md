# Zero-copy proxy: a verified model

A client frames each message with a 20-byte header, a proxy forwards whole frames between two
sockets without copying bodies through user space, and a server echoes frames back.  The proxy runs
each connection as a work of a hand-written thread pool.  This project models four parts of that
system in Dafny and proves what they promise.

| part | files | source |
|---|---|---|
| thread pool | `poolmachine.dfy`, `poolproofs.dfy`, `pooltheorems.dfy`, `poolruns.dfy`, `poolprogress.dfy`, `poolwait.dfy`, `jpool.dfy` | `src/proxy/jpool.c` |
| relay direction and connection | `os.dfy`, `relay.dfy`, `relayproofs.dfy`, `relaylaws.dfy`, `forwarding.dfy`, `proxy.dfy`, `connection.dfy` | `src/proxy/proxy.c`, `src/proxy/transc.c` |
| user-copy echo | `echo.dfy`, `server.dfy`, `lockstep.dfy`, `echoruns.dfy`, `echolaws.dfy` | `src/server/server.c` |
| header codec, registry | `bytes.dfy`, `codes.dfy`, `codec.dfy`, `jmp.dfy`, `dlist.dfy`, `dlistint.dfy`, `dlistptr.dfy`, `registry.dfy` | `src/client/jmp.c`, `src/proxy/dlist_int.c`, `src/proxy/dlist_ptr.c`, `src/proxy/proxy.c` |

`dafny verify dfyconfig.toml` checks the whole project.

## How the model is built

**Thread pool.**  `PoolMachine` is a step system: any number of workers, any number of adders, one
thread that waits and destroys.  Each thread has a program counter over source lines, the mutex owner
is explicit, and each condition variable has its sleepers that were notified and those that were not.
Every interleaving and every spurious wakeup is a run.  The queue is held as the C program holds it
(`first`, `last`, `next`) beside history sequences.  `JPool` holds the locked regions as a class over
linked nodes; it shares the queue's end functions and the two wait tests with the machine.

**Relay.**  Each system call consults an oracle `Io`, cut down to what the call asked for, so a
sequence of oracles is an arbitrary schedule of short transfers, `EAGAIN`, interrupts, errors and
ends of file.  `Relay.Run` is one direction over such a schedule, `Relay.Events` its event loop.
`Proxy.Transc` is the C object with its four flags, three counters, two header buffers and pipe; every method is proved to take exactly
the machine's step, and `RelayProofs.EventsAreRun` turns every event loop into a run of the system calls
it makes.  A connection is two directions: the descriptor one reads is the descriptor the other writes, so a
direction that closes its source takes the other's write end away.  The well-formedness
predicate `Relay.WF`, with `Proxy.Transc.Shape` over the flags and counters, is the phase invariant:
every function of the machine and every method of the class keeps it.

**Echo.**  `Server.Transc` has the four buffers of the C struct.  Its receive and header phases are
those of the relay with nothing to bound a body but the 1024-byte buffers; its body phase is its own.
`Echo.SEventsAreRun` turns its event loop into a run, and `Lockstep` relates the two programs.

## What was found

Where the code does less than its design promises, the model keeps the code and the theorem states
exactly when the promise holds.

- A header or (in the server) body write that is resumed starts from offset 0 of a buffer that was
  refilled only from `send_bytes` on.  The bytes that leave are right exactly when the bytes due are all
  zero (`Bytes.ResumeSendsDueBytesIffZero`).  So a proxied stream is a prefix of its source if and
  only if no header write is resumed with a nonzero byte due (`RelayProofs.EventLoopStream`), and the
  echo likewise with body writes added (`Lockstep.EchoLoop`).  `RelayProofs.SplitHeaderDiverges` and
  `Lockstep.ResumedBodyDiverges` are small inputs that go wrong.
- After a resumed header `recv_bytes` still counts the earlier pieces, exactly when some header write
  was neither whole nor empty (`RelayProofs.WholeHeadersIff`).  The direction then never clears and never
  reads again (`RelayProofs.ResumedHeaderWedges`).
- A body written again with 1 to 19 of its bytes left makes the server copy a negative count
  (`EchoRuns.ShortTailUndefined`).  With all-or-nothing header writes that, and a body's 1025th byte, are exactly
  what takes its event loop out of the defined (`EchoRuns.LoopUndefinedIffBroken`).
- `ENDIAN` is 1 in `src/proxy/local/proxy_l.h`, while the client writes little-endian bit-fields and the
  server decodes little-endian.  Some event loop of the proxy as built carries a client's messages through exactly
  when every frame length is a multiple of 256; from the first that is not, none writes any more bytes than the
  messages before it have (`Forwarding.ShippedOrderIff`, `Forwarding.ShippedOrderStops`).
- A stream of frames can be carried through if and only if every body fits the pipe
  (`Forwarding.CarriedIffAllFit`, `Forwarding.OversizeStops`).
- The two directions of a connection are not independent once a side hangs up: both end as if alone if and only
  if neither, running alone, writes after the other's source was closed (`Connection.IndependentIffUndisturbed`,
  with an input that loses a frame in `Connection.HangUpLosesFrame`).
- `jpool_wait` before shutdown looks only at `working_cnt`.  From an idle owner's state some schedule lets it return with
  work queued if and only if an add is under way, or more works are queued than the one a worker inside the mutex is
  about to take (`PoolWait.EarlyReturnIffSpareWork`; `PoolTheorems.WaitMayLeaveWork` is one such run).
- `dlist_int_del_node_by_data` lowers `length` even when nothing was unlinked, and so breaks
  `length == node count` exactly when the value is absent; an absent 0 finds the tail sentinel and the program
  dies on its null link (`DListInt.DelNodeByData`).
- Comments that the code contradicts: `src/client/jmp.h:18` gives the header 7 bytes (it has 20);
  `src/proxy/jpool.c:211` says `jpool_add_work` returns whether it failed (it returns whether it succeeded).
  The null test at `src/proxy/dlist_int.c:227` never fails, as an empty list's neighbour is a sentinel.

## Hypotheses

- Pool: thread creation and allocation succeed; no add begins once `jpool_destroy` is called, and none is under
  way when it is; one thread waits.  A node's identity is not reused.
- Relay and server: a call never moves more than it was asked to; a `write` that returns 0 leaves `errno` at
  some value other than `EAGAIN`; a closed descriptor number is not reused for another connection.
- Server: the `transc_t` at `src/server/server.c:354` starts cleared (it is an uninitialised local).  A
  server state is `Undefined` once the C program may write past a body buffer, read past one, or copy a negative
  count: a received body's 1025th byte, a body write resumed with fewer than 20 body bytes left, a body write
  longer than its buffer.

## Model

| member | source | states |
|---|---|---|
| `PoolProofs.InitInv` | src/proxy/jpool.c:120-171 | a fresh pool has as many workers as asked for, two for none, and satisfies the protocol invariant |
| `PoolProofs.StepInv` | src/proxy/jpool.c:71-266 | every step of every thread, and every spurious wakeup, keeps it: mutex ownership, counters, linked queue, node ownership, histories, wakeups |
| `PoolProofs.RunInv` | src/proxy/jpool.c:71-266 | so every run keeps it |
| `PoolTheorems.PoolSize` | src/proxy/jpool.c:125-168 | every reachable pool has the number of workers it was made with: as many as asked for, and two for none |
| `PoolTheorems.MutexHeldAt` | src/proxy/jpool.c:76-107 | in every reachable state the mutex's owner is exactly the thread at a line inside it, line by line: works run, sleepers sleep and lockers wait outside it |
| `PoolTheorems.SleepersMayWake` | src/proxy/jpool.c:79 | any sleeper may wake unnotified, in any reachable state |
| `PoolTheorems.NoLostWakeup` | src/proxy/jpool.c:78-80 | in every reachable state with the mutex free, an un-notified sleeping worker means an empty queue and no stop, and an un-notified sleeping waiter still has something to wait for |
| `PoolTheorems.MutualExclusion` | src/proxy/jpool.c:76-107 | no two threads are at lines inside the mutex |
| `PoolTheorems.CounterMeaning` | src/proxy/jpool.c:86-105 | `working_cnt` is the number of workers between dequeue and decrement, `thread_cnt` the number that have not left, and neither decrement underflows |
| `PoolTheorems.WaitReturnsIff` | src/proxy/jpool.c:257-262 | the wait returns exactly when no worker is busy, or after stop when every worker is past its last unlock |
| `PoolTheorems.WaitMayLeaveWork` | src/proxy/jpool.c:249-266 | a concrete run where the wait returns before stop with a work still queued |
| `PoolWait.EarlyReturnIffSpareWork` | src/proxy/jpool.c:249-266 | from any reachable state where the owner is idle, some way of going on without a new add has a wait return over a queued work if and only if an add is under way or more works are queued than the one a worker inside the mutex is about to take |
| `PoolTheorems.SignalIffAllDone` | src/proxy/jpool.c:98-100 | a worker that finishes wakes a sleeping waiter exactly when no worker is busy, nothing is queued and no shutdown has begun |
| `PoolTheorems.ExactlyOnceFifo` | src/proxy/jpool.c:42-63 | works taken, then drained, then queued are the works submitted, in order and distinct; before destroy nothing is drained |
| `PoolTheorems.InFlightApart` | src/proxy/jpool.c:86-93 | a node a worker holds was dequeued, is allocated, unfreed, not in the queue, and no other worker's |
| `PoolTheorems.MemorySafety` | src/proxy/jpool.c:42-110 | no step touches a freed node, or the pool after it is freed |
| `PoolRuns.RunOnce` | src/proxy/jpool.c:86-93 | in every reachable state no work was run twice or without being dequeued, a dequeued work not yet run is in the hands of a worker about to run it, and one whose node is freed was run or drained |
| `PoolRuns.CleanShutdown` | src/proxy/jpool.c:179-206 | when the pool is freed every worker has finished, no node is left, every submitted node was freed exactly once, and its work was either run, once, or drained |
| `PoolProgress.QuietStep` | src/proxy/jpool.c:71-266 | every step of a thread going on by itself lowers a rank over program counters and the queue, and a spurious wakeup adds at most 60 |
| `PoolProgress.QuietBounded` | src/proxy/jpool.c:71-266 | so a run without new calls has at most rank plus 61 steps per spurious wakeup, be it a shutdown from its call or a pool working off its queue |
| `PoolProgress.NoDeadlock` | src/proxy/jpool.c:71-266 | in every reachable state with work queued, or a wait or a destroy under way from its first line on, some thread can take its next line without a new call or a spurious wakeup |
| `PoolProgress.QuietEnds` | src/proxy/jpool.c:71-266 | a reachable state that can go no further has every worker asleep or gone, no call under way, a destroyed pool freed, every submitted work run or drained and its node freed |
| `PoolProgress.AddIsServed` | src/proxy/jpool.c:216-241 | in every reachable state before destroy any idle adder may add any new work, and threads going on by themselves can have it run |
| `PoolProgress.DestroyCanComplete` | src/proxy/jpool.c:179-206 | from every reachable state with no call under way a destroy can be called and carried through until the pool is freed |
| `JPool.Pool.constructor` | src/proxy/jpool.c:120-137 | an empty queue, and two threads when asked for none |
| `JPool.Pool.WorkGet` | src/proxy/jpool.c:42-63 | removes exactly the first node of the chain, leaves its link into the queue, and acts on the ends as the machine does |
| `JPool.Pool.Begin` | src/proxy/jpool.c:86-87 | dequeues the first work and counts it |
| `JPool.Pool.End` | src/proxy/jpool.c:96-100 | before shutdown it signals exactly when no worker is left busy and the chain is empty, and never after |
| `JPool.Pool.AddWork` | src/proxy/jpool.c:216-241 | refuses a null function and changes nothing, else appends one new node to the chain and one work to the submissions |
| `JPool.Pool.DrainAndStop` | src/proxy/jpool.c:187-195 | frees each queued node once, in queue order, and sets stop |
| `Bytes.ResumeSendsDueBytesIffZero` | src/proxy/proxy.c:229-247 | a resumed write sends the bytes due exactly when they are all zero |
| `Relay.Run` | src/proxy/proxy.c:111-284 | every schedule keeps the phase invariant relating phase, announced length, header progress, pipe contents and counters |
| `RelayProofs.BytesConserved` | src/proxy/proxy.c:92-292 | in every run bytes read are bytes written plus bytes held in header buffer and pipe, and neither stream is ever rewritten |
| `RelayProofs.EventLoopStream` | src/proxy/proxy.c:301-355 | for every sequence of events the peer's stream is a prefix of the source's if and only if no header write was resumed with a nonzero byte due, and then output and unsent rest of the last frame are the complete valid frames received |
| `RelayProofs.StreamCorrectIffClean` | src/proxy/proxy.c:211-292 | the same equivalence over every schedule of system calls |
| `RelayProofs.StoreAndForward` | src/proxy/proxy.c:136-151 | in clean runs the output, with the unsent rest of at most the last frame, is the complete valid frames received: nothing of an unfinished or refused frame leaves |
| `RelayProofs.StepFramed` | src/proxy/proxy.c:111-192 | in every run, clean or not, header buffer and pipe hold exactly what was read after the last complete frame |
| `RelayProofs.FramesAfterBody` | src/proxy/proxy.c:189-191 | a frame counts as received with its last body byte and not before |
| `RelayProofs.HeaderWrite` | src/proxy/proxy.c:227-259 | one header write into a correct stream: right bytes when whole or zero, otherwise a byte that differs for good |
| `RelayProofs.WholeHeadersIff` | src/proxy/proxy.c:247-259 | a state shows no split header (none half sent, and `recv_bytes` exactly the pipe while a body is sent) if and only if every header write so far was whole or empty; and then the run is clean |
| `RelayProofs.SplitHeaderDiverges` | src/proxy/proxy.c:227-259 | two events that send one small frame's header as 5 and 15 bytes: the exact wrong output, and 5 bytes too many counted |
| `RelayProofs.DirtyRunDiverges` | src/proxy/proxy.c:234-247 | a run with any unclean header write has a wrong byte in its output from then on |
| `RelayProofs.ResumedHeaderWedges` | src/proxy/proxy.c:267-283 | with that excess the direction never clears and never reads again, whatever follows |
| `RelayProofs.OversizeNeverSent` | src/proxy/proxy.c:165-192 | a body larger than the pipe keeps its frame in the receive phase for ever and nothing of it is written |
| `RelayProofs.BudgetFalls` | src/proxy/proxy.c:167-283 | each transfer lowers a measure by exactly the bytes it moved, and it is zero exactly when the state clears |
| `RelayProofs.FrameClears` | src/proxy/proxy.c:167-283 | a frame in flight that fits the pipe and whose header goes out whole clears within that measure of calls that each move a byte |
| `RelayLaws.FrameClearsByEvents` | src/proxy/proxy.c:330-354 | the same by events: a frame in flight clears within the measure of events that offer bytes, each going on where an earlier one stopped |
| `RelayLaws.DrainsTwice` | src/proxy/proxy.c:340-350 | both body splices of one event count: it sends the sum of their offers, up to the body |
| `RelayLaws.AgainsVanish` | src/proxy/proxy.c:115-171 | however many EAGAINs a schedule has, and wherever, the run is the one without them |
| `RelayLaws.ClosesIff` | src/proxy/proxy.c:114-192 | an open source is closed exactly by an interrupt, an end of file, an error, or a header that is short or announces no body; never by EAGAIN, a full pipe or a write |
| `RelayLaws.ReadTakes` | src/proxy/proxy.c:113-167 | an open source's bytes are read in order, as many as are offered, wanted and have room |
| `RelayLaws.HeaderBytesSent` | src/proxy/proxy.c:229-247 | byte by byte what a header write sends: byte `i` of the header whatever went before, or zero below `send_bytes` on a resume |
| `Forwarding.CarriedIffAllFit` | src/proxy/proxy.c:330-354 | some event loop carries a stream of valid frames through if and only if every body fits the pipe |
| `Forwarding.OversizeStops` | src/proxy/proxy.c:165-192 | once a frame does not fit, no event loop writes any more bytes than the frames before it have, and in a clean run it writes those frames |
| `RelayProofs.WholeFrameInOneEvent` | src/proxy/proxy.c:330-354 | one event with complete transfers forwards exactly one frame that fits the pipe and clears |
| `Forwarding.ShippedOrderStops` | src/proxy/local/proxy_l.h:24 | with `ENDIAN 1`, from a little-endian client's first message whose frame length is not a multiple of 256 on, no event loop writes any more bytes than the messages before it have |
| `Forwarding.ShippedOrderIff` | src/proxy/local/proxy_l.h:24 | some event loop carries such a client's messages through if and only if every frame length is a multiple of 256 |
| `RelayProofs.EventsAreRun` | src/proxy/proxy.c:614-621 | a sequence of events is the run of the system calls it makes, so the theorems on runs hold of event loops |
| `Proxy.Transc.ClearData` | src/proxy/transc.c:11-22 | resets flags, counters and both buffers of any object, whatever they held; with an empty pipe it then awaits a header |
| `Proxy.Transc.RecvHeader` | src/proxy/proxy.c:111-158 | takes the machine's header step, and returns a closing code exactly when the machine closes |
| `Proxy.Transc.RecvBody` | src/proxy/proxy.c:165-193 | takes the machine's pipe-filling step, with the same closing codes |
| `Proxy.Transc.RecvData` | src/proxy/proxy.c:92-201 | a header that arrives is followed by a try at the body in the same call |
| `Proxy.Transc.SendHeader` | src/proxy/proxy.c:227-260 | takes the machine's header write, and on any failure changes no field |
| `Proxy.Transc.SendBody` | src/proxy/proxy.c:267-284 | takes the machine's pipe-draining step |
| `Proxy.Transc.SendData` | src/proxy/proxy.c:211-292 | header then body in one call, stopping at the first failure |
| `Proxy.Transc.ProcessData` | src/proxy/proxy.c:330-354 | the whole handler refines one machine event and ends with no uncleared frame |
| `Connection.IndependentIffUndisturbed` | src/proxy/proxy.c:301-355 | however the two sides' events interleave, both directions end as if alone if and only if neither, running alone, writes a byte after the other closed its source |
| `Connection.DirectionsIndependent` | src/proxy/proxy.c:614-621 | so runs in which neither side is closed end as if each direction's events had come alone |
| `Connection.HangUpLosesFrame` | src/proxy/proxy.c:330-344 | three events in which a hang-up keeps a received frame from a direction that alone would have sent it |
| `Connection.ConnectionStreams` | src/proxy/proxy.c:555-626 | in a new connection, hang-ups included, each direction's output is a prefix of its input exactly when its own header writes were clean, and then whole frames |
| `Connection.Session.ProcessData` | src/proxy/proxy.c:301-321 | the ready descriptor selects direction and pipe, writes fail when the other side is closed, and the other direction is untouched |
| `Server.Transc.ClearTransc` | src/server/server.c:40-54 | resets flags, counters and all four buffers, and keeps both streams |
| `Server.Transc.RecvHeader` | src/server/server.c:142-189 | the header step for every announced length, with the same closing codes |
| `Server.Transc.AppendBody` | src/server/server.c:218-224 | stores received bytes behind those already held: the body array's front is the body read so far |
| `Server.Transc.RecvBody` | src/server/server.c:196-226 | the body step wherever the bytes received fit the buffer |
| `Server.Transc.SendHeader` | src/server/server.c:255-288 | the header write |
| `Server.Transc.DecodeHeader` | src/server/server.c:163-187 | a whole header is accepted exactly when it announces a body, and the buffer holds it |
| `Server.Transc.RefillBody` | src/server/server.c:294-318 | the body write buffer: the whole body at first, on a resume the middle of it, 20 bytes short and not at the front |
| `Server.Transc.SendBody` | src/server/server.c:294-332 | takes exactly the echo machine's body write |
| `Server.Transc.HandleEvent` | src/server/server.c:363-409 | one pass of the event loop refines one event of the echo machine |
| `Lockstep.BodyWriteBytes` | src/server/server.c:301-320 | the front of the refilled buffer is what is due exactly when the write is the first or the bytes due are zero |
| `Lockstep.ZeroCopyMatchesUserCopy` | src/server/server.c:195-332 | under one schedule with clean body writes, the proxy with any pipe above 1024 bytes and the server are in matching phases with equal counters, equal input and equal output |
| `Lockstep.SameOutputsIffCleanBodies` | src/server/server.c:301-332 | in a defined run the two programs emit the same stream throughout if and only if the body writes are clean |
| `Echo.SEventsAreRun` | src/server/server.c:363-409 | a sequence of passes of the event loop is the run of the system calls it makes |
| `Lockstep.EchoLoop` | src/server/server.c:363-409 | for every sequence of events the server survives, the echo is at every moment a prefix of the input if and only if header and body writes were clean, and then whole frames in order; a relay given the same calls writes the same throughout if and only if body writes were clean |
| `Lockstep.EchoesWholeFrames` | src/server/server.c:132-332 | in a clean run of system calls the echo, with the rest of at most the last frame, is the complete frames received |
| `Lockstep.CompleteWritesEcho` | src/server/server.c:132-332 | with complete writes, for any splitting of body reads, the echo is clean and stays defined exactly while no frame received, whole or in part, has more than 1024 body bytes |
| `Lockstep.EchoExact` | src/server/server.c:363-409 | the same for the event loop: it is defined exactly for such inputs, and its output with the rest of the last frame is the received frames in order |
| `Lockstep.ResumedBodyDiverges` | src/server/server.c:301-320 | a 21-byte body sent as 1 and 20 bytes: the echo ends in 20 zeros |
| `EchoRuns.EchoClears` | src/server/server.c:195-332 | with complete writes a frame within the buffers clears after at most its missing body bytes plus two calls that each move a byte |
| `EchoLaws.EchoClearsByPasses` | src/server/server.c:363-409 | the same by passes of the event loop that offer body bytes and complete writes |
| `EchoLaws.PassReads` | src/server/server.c:390-397 | a pass in the middle of a body reads on, as many bytes as are offered and missing |
| `EchoLaws.BodyInTwoReads` | src/server/server.c:381-397 | a pass that finds header, part of the body and the rest at its second try has received the frame |
| `EchoLaws.SAgainStays` | src/server/server.c:144-148 | a call that moves nothing leaves the server as it was exactly when its refill stays within the buffers |
| `EchoLaws.SClosesIff` | src/server/server.c:145-216 | the client is closed by exactly the offers that close the proxy's source, and by no write |
| `EchoLaws.BodyBytesSent` | src/server/server.c:301-320 | byte by byte what a body write sends: byte `i` of the body, or zero on a resume outside the copied middle |
| `EchoRuns.LoopUndefinedIffBroken` | src/server/server.c:301-306 | with all-or-nothing header writes an event loop leaves the defined exactly when a read brings a body's 1025th byte or a body is written again with 1 to 19 bytes left |
| `EchoRuns.ShortTailUndefined` | src/server/server.c:304-306 | a 30-byte body of which 15 bytes went out: the next try, whatever it is offered, is undefined |
| `Lockstep.EchoIffClean` | src/server/server.c:243-332 | the equivalence of `EchoLoop` over every schedule of system calls |
| `Codec.ByteOrder` | src/proxy/transc.c:44-56 | each decoder inverts its own byte order; across orders the three bytes come back reversed, which is the same number exactly when the outer bytes are equal |
| `Codec.LengthField` | src/proxy/transc.c:30-59 | a header is refused exactly for a leading NUL or an unknown byte order; otherwise its three length bytes are the encoding of the result |
| `Codec.LengthOrder` | src/server/server.c:74 | accepted headers' lengths are ordered as their length bytes are, from the last byte in little-endian order and from the first in big-endian |
| `Codec.PlacedLength` | src/proxy/transc.c:45-56 | the decoder finds the length at bytes 1 to 3, weighted by the byte order |
| `Codec.EncodedPlaces` | src/client/jmp.h:20-35 | version, length, flag and code of an encoded message stand at bytes 0, 1-3, 4 and 5-7, zeros up to 20, then the body |
| `Codec.FramesOfFlatten` | src/server/server.c:61-86 | parsing concatenated whole frames gives them back first |
| `Codec.FramesAreAPrefix` | src/proxy/proxy.c:136-151 | what the parser returns is whole valid frames and the front of the stream |
| `Codec.EncodedMessage` | src/client/jmp.c:56-74 | an encoded message is accepted exactly for a nonzero version and a nonempty body, and decodes to itself |
| `Codec.FramingRoundTrip` | src/client/jmp.c:56-74 | any sequence of such messages survives encoding, concatenation, framing and decoding |
| `Codec.ClientHeaderReadByProxy` | src/proxy/transc.c:45-49 | the proxy as built reads a client's length right exactly when it is a multiple of 256, and otherwise expects more than 64 KiB |
| `Jmp.Message.SetMsg` | src/client/jmp.c:56-74 | the message's bytes are the encoding of its arguments, field by field at their positions; without data it fails and changes nothing |
| `DList.List.LinkLast` | src/proxy/dlist_int.c:59-73 | appends the node between mutually inverse links |
| `DList.List.Unlink` | src/proxy/dlist_int.c:125-142 | removes exactly one node and keeps the links mutually inverse |
| `DListInt.AddNode` | src/proxy/dlist_int.c:52-82 | appends the value and counts it |
| `DListInt.DelNodeByData` | src/proxy/dlist_int.c:112-151 | dies exactly on an absent 0; otherwise removes exactly the first occurrence, and the length is kept true exactly when there was one |
| `DListInt.DelNodeByNode` | src/proxy/dlist_int.c:84-110 | dies exactly on the tail sentinel; otherwise removes exactly that node, or for a stranger changes only the length |
| `DListInt.FindNodeByData` | src/proxy/dlist_int.c:199-220 | the first node with the value, else NULL; an absent 0 finds the tail sentinel |
| `DListInt.FindLastNodeData` | src/proxy/dlist_int.c:226-228 | the last value, or the sentinel's 0 for an empty list |
| `DListPtr.AddNode` | src/proxy/dlist_ptr.c:95-125 | appends a fresh copy of the data; null is refused and changes nothing |
| `DListPtr.FindLastNodeData` | src/proxy/dlist_ptr.c:275-277 | the last entry, or NULL |
| `DListPtr.FindNodeDataByData` | src/proxy/dlist_ptr.c:224-247 | the first entry with the same `src_fd`, or NULL |
| `DListPtr.GetPrevNode` | src/proxy/dlist_ptr.c:283-294 | the node before a member, the sentinel before the first, NULL for a stranger |
| `Registry.ProxyState.AddWorkData` | src/proxy/proxy.c:634-646 | the work submitted is the list's own fresh copy of the last accepted descriptor's data |
| `Registry.ProxyState.Register` | src/proxy/proxy.c:774-791 | after any number of rounds the two lists agree entry by entry and the i-th work submitted carries the second list's i-th copy |

## Left out

- Sockets, `epoll`, signals, `fcntl`, `getsockopt` and the singleton: an event and the results of its system calls are parameters.
- The guards on a negative descriptor and a null pipe in `proxy_recv_data` and `proxy_send_data`: the callers never pass either.
- Two connections at once: workers share `dst_fd` and the `events` array without a lock, and the code promises nothing there.
- The unlocked read of `working_cnt` in `proxy_wait` (src/proxy/proxy.c:387-394): it only delays an accept.
- Scheduler fairness: termination is a bound on steps and the absence of dead ends, for work functions that return.
- A work function's own steps: they are one step of its worker.
- `dlist_int_destroy`, `dlist_ptr_final`, `dlist_ptr_destroy`: each reads a node after freeing it.
- `dlist_ptr_del_node_by_node`, `dlist_ptr_del_node_by_data`, and so `proxy_delete_src_info`: the first has its comparison inverted, the second names a field that does not exist.
- DListInt.DelNodeByData: what the list holds once the program has died on the tail sentinel's null link.
- DListInt.DelNodeByNode: the same.
- Server.Transc.HandleEvent: a pass that overruns a body buffer, where the C program means nothing.
- Server.Transc.RecvBody: the read that overruns it.
- Server.Transc.SendBody: a write past the buffer or a resume with a negative copy count.
- JPool.Pool.MustWait: no row of its own; `PoolTheorems.WaitReturnsIff` says what its test means.
- JPool.Pool.DrainAndStop: that `work_first` keeps its old value is in the frame; the machine proves no worker follows it.
- Running out of memory, in any list or in the pool.
- `src/proxy/jevtmgr.c`, `src/proxy/jthread.c`, `src/jtime.c`, `src/client/client.c`, `src/proxy/main.c`, `src/proxy/pipe.c`: stubs, thin wrappers and terminal handling.

# Verified models of the socket servers

Dafny models of the repository's C# async server and of the queueing, packet and
locking code of its two IOCP servers, with proofs about every input, every behaviour
of the network and every interleaving. `dafny verify dfyconfig.toml` checks everything.

How the source's forms are modelled:

- Objects that are changed in place are classes over real arrays, each method proved
  against a function of the old state; the laws proved about those functions say what
  they are in terms of bytes, queues and tables, without naming them.
- A socket is a script of the receives and send outcomes it will produce; what other
  flows do while a handler waits is a script too. A theorem over all scripts is a
  theorem over all behaviours.
- Code that several threads or tasks run at once is a system of atomic steps, and the
  theorems are about every state of every run. Besides what must never happen they say
  what can: which steps are enabled when, and that uninterrupted they do what the
  methods do.

| file | what it models |
|---|---|
| `Bytes`, `Collections` | machine integers, block copy, shared facts |
| `SlideBuffer`, `Framing`, `Messages` | byte FIFO, stream reassembly, wire format |
| `ClientContext`, `ReqHandler`, `GameServer` | sending, request handling with retry, the receive loop |
| `SendPump`, `SendRefinement`, `SendProgress`, `AsyncLock` | many senders sharing one send buffer; the lock they try |
| `ConnectionPool`, `UserManager` | connection indices and shutdown; the user pool |
| `RetryQueue`, `RetryOrder` | the first C++ server's job queue, and the order it keeps |
| `RequestTurns`, `TurnProgress` | the second C++ server's per-client turns |
| `JobFactory`, `PacketData`, `EchoJob`, `PacketOwnership` | jobs, packets, their pools, and who owns what |
| `SpinLock` | the CAS lock and its guard |

## Where the code falls short of its intent

Each of these is a lemma with the exact condition or a concrete run.

- `RecvAsync` ignores a failed `Enqueue`. Data survives every cut of the stream if and
  only if the stream fits (`Framing.LosslessIffFits`); lengths of 1 to 15361 always do.
- `SendMsg` does not await its lock attempt, although the documentation
  (`C#_TCP_async_await/Readme.md:34-38`) says only one flow sends at a time. Senders
  that do not overlap are unaffected; in general the stream is right throughout if and only
  if no send repeats bytes not yet popped or reaches behind the size (`SendPumps.StreamIff`). The
  awaited protocol is modelled beside it, and has a gap of its own
  (`SendPumps.LeftoversCanHappen`, exactly delimited by `QuietIsDrainedIff`).
- A send that fails after its message was buffered is retried as if it had not been:
  one extra reply per fault, and never one too few (`GameServers.EchoAtLeastOnce`,
  `ReqHandlers.FaultDuplicates`).
- An index taken for an accept that fails is never returned
  (`ConnectionPools.IndexConservation`).
- `SendMsgTCP` answers false when `WSASend` fails although the packet stays queued; the
  job then keeps and resends it (`PacketOwnership.SingleOwnerIff`, `FailedPushHappens`,
  `RequestTurns.AnsweredInOrderIff`).
- The first C++ server finishes requests out of order when an earlier one is retried more
  often than a later one (`RetryOrders.OneWorkerKeepsOrderIff`). The second one does not,
  but a message that arrives just as a turn ends can be left waiting
  (`RequestTurns.StrandedIff`).
- A disconnect does not clear the job slot, its stage or the send queue of its index, so
  the next client can be answered requests it never made
  (`RequestTurns.InheritedReplyHappens`, exactly delimited by `AnsweredInOrderIff`).
- A request that no job can be made of is not popped, and blocks its client
  (`RequestTurns.RefusedRequestBlocks`).
- A full 84-byte echo parameter behind its size field is refused as too long
  (`JobFactories.EchoAcceptedIff`), and the client's own layout, which has no size field,
  comes back shifted (`JobFactories.ClientEchoIntactIff`).
- Echo replies of the C# server carry request number 0, not the request's
  (`GameServers.EchoConversation`).

## Model

| member | source | states |
|---|---|---|
| `SlideBuffers.FifoLaw` | C#_TCP_async_await/CSServerLib/CSServerLib/SlideBuffer.cs:30-115 | Over every sequence of Enqueue, Dequeue and Pop, bytes let out followed by bytes held equal bytes held at first followed by bytes taken in, and the buffer never exceeds its capacity. |
| `SlideBuffers.ViewStable` | C#_TCP_async_await/CSServerLib/CSServerLib/SlideBuffer.cs:132-149 | Over any operations that remove nothing, the first n held bytes, which are what a window on them shows, stay the same. |
| `SlideBuffers.SlideBuffer.Enqueue` | C#_TCP_async_await/CSServerLib/CSServerLib/SlideBuffer.cs:30-57 | On the real array: answers true exactly for no bytes, or when the message has that many and they fit; puts them behind the held bytes, and leaves every array byte that a window on those can show as it was. Refines the FIFO. |
| `SlideBuffers.SlideBuffer.Dequeue` | C#_TCP_async_await/CSServerLib/CSServerLib/SlideBuffer.cs:66-93 | The first n held bytes arrive in the caller's array and the rest slides to the front in place, exactly when both have n bytes; refused requests change nothing. |
| `SlideBuffers.SlideBuffer.Pop` | C#_TCP_async_await/CSServerLib/CSServerLib/SlideBuffer.cs:95-115 | Removes exactly the first n bytes by sliding in place, or nothing when fewer are held. |
| `SlideBuffers.SlideBuffer.Peek` | C#_TCP_async_await/CSServerLib/CSServerLib/SlideBuffer.cs:121-130 | The first four bytes as a number with the lowest byte first, 0 below four bytes. |
| `SlideBuffers.SlideBuffer.GetMsg` | C#_TCP_async_await/CSServerLib/CSServerLib/SlideBuffer.cs:132-149 | Succeeds exactly when at least four bytes are held and the number they make, lowest byte first, is between 1 and the bytes held; then the window shows that many, otherwise the caller's window is untouched. |
| `SlideBuffers.LengthIsLittleEndian` | C#_TCP_async_await/CSServerLib/CSServerLib/SlideBuffer.cs:121-149 | What Peek and GetMsg read is base 256 with the lowest digit first; a buffer that begins n, 0, 0, 0 has a frame of n bytes at its head once it holds that many. |
| `Bytes.DecodesLittleEndian` | C#_TCP_async_await/CSServerLib/CSServerLib/SlideBuffer.cs:121-130 | Reading an integer off the wire gives the number whose base-256 digits its bytes are, lowest first. |
| `Bytes.EncodesLittleEndian` | C#_TCP_async_await/CSServerLib/CSServerLib/ReqHandler.cs:139-158 | Writing one puts down those digits, lowest first. |
| `Bytes.ArrayCopy` | C#_TCP_async_await/CSServerLib/CSServerLib/SlideBuffer.cs:110-111 | Block copy by loop, right also when source and target overlap in one array. |
| `Framing.DeframeConserves` | C#_TCP_async_await/CSServerLib/CSServerLib/CSSocketServer.cs:178-183 | Frames plus remainder are the stream. |
| `Framing.DeframeDrains` | C#_TCP_async_await/CSServerLib/CSServerLib/SlideBuffer.cs:132-149 | No complete frame is left undelivered. |
| `Framing.DeframeIsTheCut` | C#_TCP_async_await/CSServerLib/CSServerLib/CSSocketServer.cs:178-183 | There is exactly one way to cut a stream into frames each as long as the four bytes at its start say, with no complete frame left over, and the one-shot deframer finds it. |
| `Framing.DeframeAppend` | C#_TCP_async_await/CSServerLib/CSServerLib/CSSocketServer.cs:171-184 | Deframing a+b equals deframing a, then continuing from its remainder with b. |
| `Framing.ChunkingIndependence` | C#_TCP_async_await/CSServerLib/CSServerLib/CSSocketServer.cs:171-184 | For every cut into receives of 1 to 1024 bytes of a stream that fits, the loop delivers exactly the one-shot deframer's frames, keeps its remainder, and loses nothing. |
| `Framing.LegalLengthsFit` | C#_TCP_async_await/CSServerLib/CSServerLib/ClientContext.cs:12-14 | Declared lengths in 1..15361 are enough for a stream to fit. |
| `Framing.LosslessIffFits` | C#_TCP_async_await/CSServerLib/CSServerLib/ClientContext.cs:122-132 | Exact condition for the ignored Enqueue answer to be harmless: no cut loses a byte if and only if every frame of declared length 0 or above 15361 has at most 16384 bytes from its first byte on. |
| `Framing.UnfitStreamLoses` | C#_TCP_async_await/CSServerLib/CSServerLib/ClientContext.cs:122-132 | For every other stream, gives a cut for which some Enqueue fails. |
| `Framing.MaxFrameIsTight` | C#_TCP_async_await/CSServerLib/CSServerLib/ClientContext.cs:12-14 | The bound is tight: declared length 15362 already admits a loss. |
| `Messages.DecodeEncodeMessage` | C#_TCP_async_await/CSServerLib/CSServerLib/NetworkMessage.cs:9-28 | Reading back a written header and payload gives code, request number and payload, and the size field is the frame's length. |
| `Messages.Layout` | C#_TCP_async_await/CSServerLib/CSServerLib/NetworkMessage.cs:9-28 | The bytes written: size, code in two's complement and request number at offsets 0, 4 and 8, lowest byte first, and the payload as it is from offset 12. |
| `Messages.WireRoundTrip` | C#_TCP_async_await/CSServerLib/CSServerLib/ReqHandler.cs:139-158 | Any list of messages, written, concatenated and cut arbitrarily, comes back through the receive loop as exactly that list. |
| `ClientContexts.PumpSendsInOrder` | C#_TCP_async_await/CSServerLib/CSServerLib/ClientContext.cs:63-101 | For every behaviour of the socket: bytes leave in order, sent plus unsent is what was buffered, a normal end means nothing unsent, and only a fault ends the loop early. |
| `ClientContexts.PumpDrains` | C#_TCP_async_await/CSServerLib/CSServerLib/ClientContext.cs:63-101 | Without faults, whatever partial, empty or retried sends occur, the loop ends with exactly the buffered bytes sent. |
| `ClientContexts.PumpSendsSegments` | C#_TCP_async_await/CSServerLib/CSServerLib/ClientContext.cs:65-82 | Each send is offered 1024 bytes, or all there is if that is less: a socket that takes whatever it is offered is asked exactly as often as there are segments. |
| `ClientContexts.SendKeepsAccount` | C#_TCP_async_await/CSServerLib/CSServerLib/ClientContext.cs:39-105 | Wire bytes followed by buffered bytes stay the accepted messages in order. |
| `ClientContexts.SendAccepts` | C#_TCP_async_await/CSServerLib/CSServerLib/ClientContext.cs:41-52 | A message is accepted exactly when the socket is there and the bytes fit, and then it is one more accepted message. |
| `ClientContexts.SendDelivers` | C#_TCP_async_await/CSServerLib/CSServerLib/ClientContext.cs:39-105 | For every socket: a refused message changes nothing; an accepted one goes behind what is buffered, and true means that the buffer has been emptied, other senders' bytes included, while false means a fault. |
| `ClientContexts.SendFaults` | C#_TCP_async_await/CSServerLib/CSServerLib/ClientContext.cs:94-100 | A send that accepted its message reports false exactly when it met a fault. |
| `ClientContexts.ClientContext.Drain` | C#_TCP_async_await/CSServerLib/CSServerLib/ClientContext.cs:63-101 | The while loop over the real buffer and socket computes the pump function and terminates. |
| `ClientContexts.ClientContext.SendMsg` | C#_TCP_async_await/CSServerLib/CSServerLib/ClientContext.cs:39-105 | The whole new sending state and answer, for every socket script, when no other sender overlaps. |
| `ClientContexts.ClientContext.RecvAsync` | C#_TCP_async_await/CSServerLib/CSServerLib/ClientContext.cs:113-140 | One receive: false for a missing socket, closure or exception; otherwise the bytes are queued if they fit and dropped if not. |
| `ClientContexts.ClientContext.GetMsg` | C#_TCP_async_await/CSServerLib/CSServerLib/ClientContext.cs:142-145 | A window on the first complete frame, if any. |
| `ClientContexts.ClientContext.PopMsg` | C#_TCP_async_await/CSServerLib/CSServerLib/ClientContext.cs:147-150 | Removes the frame the window showed. |
| `ClientContexts.ClientContext.constructor` | C#_TCP_async_await/CSServerLib/CSServerLib/ClientContext.cs:16-25 | Empty buffers of 4096 and 16384 bytes and a 1024-byte receive area, none shared. |
| `ReqHandlers.ParseAcceptsEchoRequests` | C#_TCP_async_await/CSServerLib/CSServerLib/ReqHandler.cs:69-123 | Frames accepted are exactly those of 96 bytes or more with a zero type field, and the decoded parameter re-encodes to bytes 12..96. |
| `ReqHandlers.EchoReplyBytes` | C#_TCP_async_await/CSServerLib/CSServerLib/ReqHandler.cs:112-158 | The reply byte by byte: size 96, code and request number 0, then request bytes 12..96. |
| `ReqHandlers.RejectedIff` | C#_TCP_async_await/CSServerLib/CSServerLib/ReqHandler.cs:69-123 | On a connection in any condition a handler rejects exactly what is not an echo request, and then leaves everything as it was. |
| `ReqHandlers.RetrySucceedsIff` | C#_TCP_async_await/CSServerLib/CSServerLib/ReqHandler.cs:97-109 | Retrying exactly, for every behaviour of network, other senders and client table: a handler succeeds if and only if at the start or after one of the waits the client is in the table, its socket is there, the reply fits and no send faults; it stops at the first such try, and one still retrying has used up every wait. |
| `ReqHandlers.RetryCopies` | C#_TCP_async_await/CSServerLib/CSServerLib/ReqHandler.cs:97-137 | Exactly-once under retry: copies put in the send stream number one for success plus one per fault met, so a successful handler put its reply in once if and only if no send met a fault. |
| `ReqHandlers.FaultDuplicates` | C#_TCP_async_await/CSServerLib/CSServerLib/ReqHandler.cs:97-137 | One fault is enough, for any reply that fits the buffer twice: the handler reports success with its reply on the wire twice. |
| `ReqHandlers.RetryPlaces` | C#_TCP_async_await/CSServerLib/CSServerLib/ReqHandler.cs:97-137 | Those copies stand at distinct new places of the stream and are the reply, whatever other senders do during the waits. |
| `ReqHandlers.RetryKeepsAccount` | C#_TCP_async_await/CSServerLib/CSServerLib/ReqHandler.cs:97-137 | Retrying keeps wire plus buffer equal to the accepted messages. |
| `ReqHandlers.HealthyFrame` | C#_TCP_async_await/CSServerLib/CSServerLib/ReqHandler.cs:69-137 | On a healthy idle connection a request puts exactly its 96-byte reply on the wire, and any other frame puts nothing. |
| `ReqHandlers.MakeMsg` | C#_TCP_async_await/CSServerLib/CSServerLib/ReqHandler.cs:139-158 | The buffer written field by field is the encoded message. |
| `GameServers.EchoRefinement` | C#_TCP_async_await/CSServerLib/CSServerLib/CSSocketServer.cs:163-199 | However stream and replies are cut, what goes out on a healthy connection is one 96-byte reply per echo request of the one-shot deframer's frames, in order, and nothing else. |
| `GameServers.EchoAtLeastOnce` | C#_TCP_async_await/CSServerLib/CSServerLib/CSSocketServer.cs:163-199 | The same on a connection in any condition and for any socket: full buffers, a client not in the table, other senders in between, sends that fault. The handlers get to the replies due in order, and to all of them unless one is still retrying after every wait; each stands in the send stream at least once, copies of one before those of the next, with exactly one copy too many per fault met; wire plus buffer carry the stream. |
| `GameServers.EchoUnderContention` | C#_TCP_async_await/CSServerLib/CSServerLib/CSSocketServer.cs:163-199 | So without faults each reply stands in the send stream exactly once and in order; not all of them do if and only if a handler is still retrying, and then every wait has been used. |
| `GameServers.EchoConversation` | C#_TCP_async_await/CSServerLib/CSServerLib/ReqHandler.cs:112-137 | End to end: a client that sends any list of echo messages reads back one answer to each, carrying the first 84 payload bytes, however both directions are cut. |
| `GameServers.ServeKeepsAccount` | C#_TCP_async_await/CSServerLib/CSServerLib/CSSocketServer.cs:171-184 | For every behaviour of network and other senders, wire plus buffer stay the accepted messages in order. |
| `GameServers.ServeBufferIsDeframe` | C#_TCP_async_await/CSServerLib/CSServerLib/CSSocketServer.cs:178-183 | The GetMsg/OnReceive/PopMsg loop serves exactly the deframed frames, in order, and leaves the remainder. |
| `GameServers.ClosureEnds` | C#_TCP_async_await/CSServerLib/CSServerLib/CSSocketServer.cs:171-176 | A receive that brings nothing ends the loop, whatever would have come after it. |
| `GameServers.GameServer.SendMsg` | C#_TCP_async_await/CSServerLib/CSServerLib/CSSocketServer.cs:64-78 | False for a client not in the table, otherwise the client's send. |
| `GameServers.GameServer.HandleEchoJob` | C#_TCP_async_await/CSServerLib/CSServerLib/ReqHandler.cs:112-137 | Sends the reply and reports Success or NotFinished. |
| `GameServers.GameServer.RetryEcho` | C#_TCP_async_await/CSServerLib/CSServerLib/ReqHandler.cs:97-109 | The retry loop computes the function that RetrySucceedsIff is about, and ends without success only when every wait is used up. |
| `GameServers.GameServer.HandleReq` | C#_TCP_async_await/CSServerLib/CSServerLib/ReqHandler.cs:69-110 | Header checks, parameter check and retry loop on the viewed bytes. |
| `GameServers.GameServer.DrainFrames` | C#_TCP_async_await/CSServerLib/CSServerLib/CSSocketServer.cs:178-183 | The inner loop on the real buffers computes the serving function. |
| `GameServers.GameServer.RecvLoop` | C#_TCP_async_await/CSServerLib/CSServerLib/CSSocketServer.cs:163-199 | The whole receive loop on arrays, buffers and sockets computes the function the echo theorems are about. Each look at m_IsRun that finds the server running is followed by one receive, one at most brings nothing and is the last, and the loop ends for no other reason than that, a stopped server, or a handler still retrying; a stopped server receives, accepts and sends nothing. OnConnect comes first, OnDisconnect and the release of the socket last, each once. |
| `SendPumps.PumpInvariant` | C#_TCP_async_await/CSServerLib/CSServerLib/ClientContext.cs:47-104 | Awaited protocol, any number of senders and partial sends: one holder at most, and sent bytes followed by buffered bytes (less those sent and not yet popped) are the accepted messages in Enqueue order. |
| `SendPumps.AttemptWinsIff` | C#_TCP_async_await/CSServerLib/CSServerLib/ClientContext.cs:54-61 | An awaited lock attempt wins exactly when nobody holds the lock, and a loser's message is too late exactly when the holder has read an empty buffer; not awaited, every attempt wins. |
| `SendRefinements.SoloSendIsSend` | C#_TCP_async_await/CSServerLib/CSServerLib/ClientContext.cs:39-105 | Refinement: in either protocol, whatever state the others are in, a sender's steps that nobody interrupts leave wire, buffer, socket and answer exactly as the sequential SendMsg does, for every socket; an awaited attempt that loses leaves its message buffered. |
| `SendRefinements.BufferSteps` | C#_TCP_async_await/CSServerLib/CSServerLib/ClientContext.cs:47-92 | In every state, overlapping senders included, the enqueue and pop steps do what the buffer's operations do; a Pop of more than is left changes nothing. |
| `SendPumps.PopNeverFails` | C#_TCP_async_await/CSServerLib/CSServerLib/ClientContext.cs:84-92 | The holder's Pop always removes exactly the bytes just sent. |
| `SendPumps.NormalExitHasDrained` | C#_TCP_async_await/CSServerLib/CSServerLib/ClientContext.cs:65-71 | A holder leaving normally has sent exactly the messages accepted before its last size read. |
| `SendPumps.LeftoversCameTooLate` | C#_TCP_async_await/CSServerLib/CSServerLib/ClientContext.cs:54-71 | With the lock free, nobody due and a normal last exit, the buffer holds exactly the messages accepted after that read, each of whose senders failed its attempt between the read and the release. |
| `SendPumps.QuietIsDrainedIff` | C#_TCP_async_await/CSServerLib/CSServerLib/ClientContext.cs:54-102 | Error exits included: with the lock free and nobody due, nothing is left to send if and only if the last exit was normal (or none) and no message with bytes in it was accepted after its last size read. |
| `SendPumps.LeftoversCanHappen` | C#_TCP_async_await/CSServerLib/CSServerLib/ClientContext.cs:54-71 | That window is real: a run that ends with an unsent message and nobody to send it. |
| `SendProgress.SendersFinish` | C#_TCP_async_await/CSServerLib/CSServerLib/ClientContext.cs:54-104 | Progress of the awaited protocol: from any reachable state, without further messages, any interleaving that cannot continue has made boundedly many moves (bounded by the work there was and the sends that took nothing or were refused), every sender has returned, the lock is free, and the buffer is empty exactly under the drain condition. |
| `SendPumps.StreamIff` | C#_TCP_async_await/CSServerLib/CSServerLib/ClientContext.cs:54-101 | The account exactly, for the code as written and for the awaited protocol, over every run of any number of senders: it holds in every state if and only if no send sent bytes another sender had still to pop, and none sent bytes behind the end of what was buffered. |
| `SendPumps.ClashBreaksStream` | C#_TCP_async_await/CSServerLib/CSServerLib/ClientContext.cs:78-92 | Either kind of send breaks the account, whatever the bytes. |
| `SendPumps.NonOverlappingSendersKeepStream` | C#_TCP_async_await/CSServerLib/CSServerLib/ClientContext.cs:54-101 | So the code as written keeps the account as long as no two senders are between lock attempt and release at once. |
| `SendPumps.SendsAreNeverBlocked` | C#_TCP_async_await/CSServerLib/CSServerLib/ClientContext.cs:78-82 | In either protocol a sender about to send can do so, stale bytes behind the size included. |
| `SendPumps.UnawaitedSendersDuplicate` | C#_TCP_async_await/CSServerLib/CSServerLib/ClientContext.cs:54-61 | The first kind happens in the code as written: two senders put the same prefix on the wire and the second Pop asks for more than is left. |
| `SendPumps.UnawaitedSenderSendsStale` | C#_TCP_async_await/CSServerLib/CSServerLib/ClientContext.cs:65-82 | So does the second: a sender sends a byte that has already been sent and popped. |
| `AsyncLocks.LockSafety` | C#_TCP_async_await/CSServerLib/CSServerLib/AsyncLock.cs:11-66 | Any number of flows waiting or trying: one inside at most, the permit out exactly then, no handle shared, and the semaphore never released beyond its permit. |
| `AsyncLocks.GrantedIff` | C#_TCP_async_await/CSServerLib/CSServerLib/AsyncLock.cs:18-39 | An immediate attempt gets a handle, and a waiter can be granted one, exactly when no flow is inside. |
| `AsyncLocks.DisposeReturnsPermit` | C#_TCP_async_await/CSServerLib/CSServerLib/AsyncLock.cs:58-65 | Disposing a handle in use goes through and returns the permit; disposing it again changes nothing. |
| `AsyncLocks.DisposedForGood` | C#_TCP_async_await/CSServerLib/CSServerLib/AsyncLock.cs:58-65 | From the moment its flag is set a handle stays disposed, and no flow ever releases it again. |
| `AsyncLocks.AsyncLock.TryLockAsync` | C#_TCP_async_await/CSServerLib/CSServerLib/AsyncLock.cs:32-39 | A fresh handle and one permit less, or null exactly when none was left. |
| `AsyncLocks.Handler.Dispose` | C#_TCP_async_await/CSServerLib/CSServerLib/AsyncLock.cs:58-65 | Only the first Dispose releases; on a full semaphore it raises and the flag stays down. |
| `ConnectionPools.PoolInvariant` | C#_TCP_async_await/CSServerLib/CSServerLib/CSSocketServer.cs:111-161 | What every step of accept loop, tasks, continuations and Close keeps. |
| `ConnectionPools.IndexInOnePlace` | C#_TCP_async_await/CSServerLib/CSServerLib/CSSocketServer.cs:119-144 | An index is never in two of: free queue, accept loop's hand, one live context. |
| `ConnectionPools.TryAddsSucceed` | C#_TCP_async_await/CSServerLib/CSServerLib/CSSocketServer.cs:135-136 | Both TryAdds always succeed. |
| `ConnectionPools.LookupFindsNewest` | C#_TCP_async_await/CSServerLib/CSServerLib/CSSocketServer.cs:64-78 | A lookup finds a context exactly while one of that index is listed, and it is the newest one ever created for it. |
| `ConnectionPools.Registry.TryGetClient` | C#_TCP_async_await/CSServerLib/CSServerLib/CSSocketServer.cs:66-75 | The lookup on the fields is the one of the interleaving model. |
| `ConnectionPools.IndexConservation` | C#_TCP_async_await/CSServerLib/CSServerLib/CSSocketServer.cs:123-152 | Queued, in-hand and live indices number 1024 less the accepts that failed, whose indices are not returned. |
| `ConnectionPools.IndicesInOrder` | C#_TCP_async_await/CSServerLib/CSServerLib/CSSocketServer.cs:123-144 | Indices are handed out first in, first out: 0..1023, then the returned ones in the order they came back. |
| `ConnectionPools.TakesIndexIff` | C#_TCP_async_await/CSServerLib/CSServerLib/CSSocketServer.cs:119-127 | The running accept loop takes the front index exactly while fewer than 1024 indices are live or lost; otherwise it waits and nothing changes. |
| `ConnectionPools.AcceptGoesThrough` | C#_TCP_async_await/CSServerLib/CSServerLib/CSSocketServer.cs:123-144 | From any reachable state with the server running and an index free, an accept can go through its five steps, and leaves a new context in both tables under the front index and nothing else changed. |
| `ConnectionPools.DisconnectGoesThrough` | C#_TCP_async_await/CSServerLib/CSServerLib/CSSocketServer.cs:138-144 | So can the end of any watched context: it leaves both tables and its index goes to the back of the queue. |
| `ConnectionPools.FailedAcceptGoesOn` | C#_TCP_async_await/CSServerLib/CSServerLib/CSSocketServer.cs:146-149 | A failed accept costs its index and nothing else: the loop goes on. |
| `ConnectionPools.CloseWaitsForAll` | C#_TCP_async_await/CSServerLib/CSServerLib/CSSocketServer.cs:47-62 | When Close returns, every receive loop ever started has completed, OnDisconnect and Release included. |
| `ConnectionPools.CloseGoesThrough` | C#_TCP_async_await/CSServerLib/CSServerLib/CSSocketServer.cs:47-62 | And Close does return, once every receive task has completed, whether the accept loop is between accepts or waiting in one. |
| `ConnectionPools.Registry.CreateIndexPool` | C#_TCP_async_await/CSServerLib/CSServerLib/CSSocketServer.cs:201-211 | The loop leaves exactly 0..1023 queued in order. |
| `ConnectionPools.Registry.TryDequeue` | C#_TCP_async_await/CSServerLib/CSServerLib/CSSocketServer.cs:123-127 | The front index and the rest kept, or none and nothing changed when the queue is empty. |
| `ConnectionPools.Registry.Publish` | C#_TCP_async_await/CSServerLib/CSServerLib/CSSocketServer.cs:135-136 | Each TryAdd enters the context under its index unless the index is there already; the same functions the two steps of the interleaving model use. |
| `ConnectionPools.Registry.Continuation` | C#_TCP_async_await/CSServerLib/CSServerLib/CSSocketServer.cs:138-144 | The index is out of both tables and at the back of the queue; the same functions the three steps of the interleaving model use. |
| `UserManagers.UsersConserved` | C#_TCP_async_await/CSServerLib/CSServerLib/UserManager.cs:32-86 | Interleaved calls, one step per critical section: each of the 1024 users is in exactly one of pool, table and one caller's hand, and distinct keys hold distinct users. |
| `UserManagers.UserCount` | C#_TCP_async_await/CSServerLib/CSServerLib/UserManager.cs:53-64 | Pooled, seated and carried users always make 1024, so the pool is empty exactly when table and hands hold all. |
| `UserManagers.SectionsSucceedIff` | C#_TCP_async_await/CSServerLib/CSServerLib/UserManager.cs:32-86 | Each critical section gets what is there, whatever the other callers are at: AddUser takes a user exactly while table and hands hold fewer than 1024, and seats it exactly when its key is absent; ReleaseUser takes the key's user exactly when there is one. |
| `UserManagers.SoloCallsMatchMethods` | C#_TCP_async_await/CSServerLib/CSServerLib/UserManager.cs:32-86 | Uninterrupted, the steps do what the methods do and the caller carries nothing at the end. |
| `UserManagers.UserManager.AddUser` | C#_TCP_async_await/CSServerLib/CSServerLib/UserManager.cs:53-86 | True exactly when the pool is not empty and the key is absent, and then the front user is seated; a refused key sends that user to the back, and an empty pool changes nothing. |
| `UserManagers.UserManager.ReleaseUser` | C#_TCP_async_await/CSServerLib/CSServerLib/UserManager.cs:32-51 | The key is absent afterwards, and its user, if there was one, is at the pool's end. |
| `UserManagers.UserManager.constructor` | C#_TCP_async_await/CSServerLib/CSServerLib/UserManager.cs:16-30 | 1024 distinct users pooled. |
| `RetryQueues.JobInOnePlace` | IOCP/IOCPServerLib/IOCPServerLib/GameServer.cpp:142-172 | Any number of workers: each created job is in exactly one of queue, one worker's hand and the deallocated ones, and stands in its list once. |
| `RetryQueues.NoOvertaking` | IOCP/IOCPServerLib/IOCPServerLib/GameServer.cpp:162-165 | A job at position k, requeued ones included, comes out only after the k ahead of it, in their order. |
| `RetryQueues.RetriedJobIsOvertaken` | IOCP_TCP+UDP/README.md:17-19 | The stated reason for the redesign happens: a retried job is finished after a later one, even with one worker. |
| `RetryOrders.OneWorkerKeepsOrderIff` | IOCP_TCP+UDP/README.md:17-19 | One worker and a batch queued before its first pop: jobs are deallocated in creation order if and only if their retry counts do not decrease. |
| `RetryOrders.QueueFinishedInOrderIff` | IOCP/IOCPServerLib/IOCPServerLib/GameServer.cpp:142-172 | The same for any workers whose jobs in hand do not overlap, from any reachable moment: a queue is finished in its order if and only if no job needs more retries than one behind it. |
| `RetryOrders.JobsBeginInOrder` | IOCP/IOCPServerLib/IOCPServerLib/GameServer.cpp:76-76 | Any number of workers, any retries: jobs are first popped in creation order. |
| `RetryOrders.OvertakenWereBegun` | IOCP/IOCPServerLib/IOCPServerLib/GameServer.cpp:147-165 | Any number of workers: a job that a finished later one has overtaken has been popped, so it is in a worker's hand or retried and queued again. |
| `RetryQueues.WorkerStepCostsOne` | IOCP/IOCPServerLib/IOCPServerLib/GameServer.cpp:142-172 | Every pop, execution and settlement takes exactly one off the sum, over unfinished jobs, of remaining steps. |
| `RetryQueues.WorkersFinish` | IOCP/IOCPServerLib/IOCPServerLib/GameServer.cpp:142-172 | If jobs answer NOT_FINISHED finitely often and none are added, every interleaving that cannot continue has taken exactly as many steps as its start had work, with the queue empty and every job deallocated. |
| `RetryQueues.StopEndsPopping` | IOCP/IOCPServerLib/IOCPServerLib/GameServer.cpp:142-150 | Once m_IsRun is false, each worker that was between jobs can still pop one job, and the others none. |
| `RetryQueues.StoppedWorkersLeave` | IOCP/IOCPServerLib/IOCPServerLib/GameServer.cpp:121-153 | When the stopped workers can do no more, all are gone, none with a job in hand, and every created job is deallocated or still queued. |
| `RetryQueues.JobQueue.OnReceive` | IOCP/IOCPServerLib/IOCPServerLib/GameServer.cpp:54-87 | Every request is popped, and the jobs made are queued in request order. |
| `RetryQueues.CreatedExactly` | IOCP/IOCPServerLib/IOCPServerLib/GameServer.cpp:54-87 | Those are exactly the jobs that came of a request, each at the place given by how many came of the requests before it. |
| `RetryQueues.JobQueue.Settle` | IOCP/IOCPServerLib/IOCPServerLib/GameServer.cpp:155-170 | NOT_FINISHED puts the job at the queue's end, every other code deallocates it; the same functions the settling step of the interleaving model uses. |
| `RequestTurns.AnsweredInOrderIff` | IOCP_TCP+UDP/README.md:17-21 | Order and exactly-once for one client over any workers, arrivals, failures, retries and earlier clients of its index: its answered, current and waiting requests are the ones it sent in order if and only if no reply was queued and yet reported as not sent and the client before it left nothing in the send queue or in a job, in the slot or half parsed (DoDisconnect, IOCPCore.cpp lines 676-695, and Connection.cpp lines 27-56 clear neither). Without the former, what was left comes first. |
| `RequestTurns.InheritedReplyHappens` | IOCP_TCP+UDP/RacingGameServer/RacingGameServer/Job.cpp:216-225 | The latter happens: a client that sent nothing is answered any creatable request of the one before it, whose send was refused after it had gone. |
| `RequestTurns.TornRequestHappens` | IOCP_TCP+UDP/RacingGameServer/RacingGameServer/Job.cpp:47-94 | So does a disconnect between making a job and popping its message (GameServer.cpp lines 211-231): the pop takes the new client's own request, and the old one is answered instead. |
| `RequestTurns.ClientTurns.ResetConnection` | IOCP_TCP+UDP/README.md:15-21 | ResetConnection (Connection.cpp lines 27-56): clears the receive buffer, and leaves stage, job slot and unsent replies to the next client. |
| `RequestTurns.RefusedRequestBlocks` | IOCP_TCP+UDP/RacingGameServer/RacingGameServer/Job.cpp:47-94 | A request CreateJob refuses is never popped (ParseReq, GameServer.cpp lines 210-231): what waits is always a tail of what this client sent, and holds it and all its later requests; replies number at most the requests before it, those left behind and those queued twice. |
| `RequestTurns.StrandedIff` | IOCP_TCP+UDP/README.md:64-69 | HandleReq and the thread pool (GameServer.cpp lines 157-187, ThreadPool.cpp lines 132-156), one worker woken per receive (IOCPCore.cpp lines 742-744): with no worker at a client and no wake-up queued, nothing waits if and only if the last turn did not stop at a request without a job and nothing arrived after it found the inbox empty; what did is all that waits, and then a worker was turned away. |
| `RequestTurns.StrandedCanHappen` | IOCP_TCP+UDP/README.md:64-69 | Any messages can be stranded that way, as many as one receive brings, with a single worker turned away. |
| `TurnProgress.WorkersFinish` | IOCP_TCP+UDP/README.md:15-21 | Progress (GameServer.cpp lines 150-281, ThreadPool.cpp lines 132-156): with no more arrivals and the client staying, any interleaving of workers that cannot continue has made boundedly many moves (bounded by the work there was, the unfinished turns, and a message overtaken by a disconnect), left no turn unfinished, and answered in order all but a tail; the tail begins with a request that got no job, or is what arrived after the last look, and then a worker was turned away. |
| `RequestTurns.OneTurnAtATime` | IOCP_TCP+UDP/README.md:64-69 | HandleReq (GameServer.cpp lines 157-187): One worker at most is in a client's turn, and the job slot is filled exactly between parsing and sending. |
| `RequestTurns.TurnAnswersAll` | IOCP_TCP+UDP/README.md:15-21 | HandleReq (GameServer.cpp lines 166-199): a turn without failures, resumed from any stage, answers every waiting request and every one that arrives until it finds the inbox empty, in order, and then returns REQ_FAILED. |
| `RequestTurns.TurnStopsAtFirstFailure` | IOCP_TCP+UDP/README.md:15-21 | HandleReq (GameServer.cpp lines 166-199): whatever arrives during it, a turn answers the requests before its first failure in order and stops there: a request without a job stays in the inbox with REQ_FAILED; a failed Execute, a refused send, and a send queued and reported as failed each leave the request in the slot, that stage to resume from, and NOT_FINISHED. |
| `RequestTurns.ResumedTurn` | IOCP_TCP+UDP/README.md:15-21 | A turn resumed at Execute or Send goes on with the request in the slot, and stops again at the stage that fails. |
| `RequestTurns.EntersIff` | IOCP_TCP+UDP/README.md:64-69 | HandleReq (GameServer.cpp lines 157-164): over every run, a worker that takes a wake-up gets its turn exactly when no other is at the client, and resumes where the last one stopped. |
| `RequestTurns.StepsAreNeverBlocked` | IOCP_TCP+UDP/README.md:64-69 | ThreadPool.cpp lines 132-156: no step is blocked, whatever it meets; the lock is given back, and a worker that returns NOT_FINISHED, and no other, is queued again. |
| `RequestTurns.TurnKeepsSound` | IOCP_TCP+UDP/README.md:15-21 | Any turn, whatever fails and arrives during it, leaves the client accounted for at the stage it will resume from. |
| `RequestTurns.HandleReq` | IOCP_TCP+UDP/README.md:64-69 | HandleReq (GameServer.cpp lines 150-200): OTHER_ERR for an index out of range, NOT_MY_TURN and no change while another worker holds the client's lock, otherwise a whole turn with the lock free again after it. |
| `RequestTurns.ClientTurns.RunStages` | IOCP_TCP+UDP/README.md:15-21 | HandleReq (GameServer.cpp lines 164-200): the loop with fall-through stages, with messages arriving before any parse, computes the turn function: new state, stage to resume from and code. |
| `RequestTurns.ClientTurns.ParseReq` | IOCP_TCP+UDP/README.md:20-21 | ParseReq (GameServer.cpp lines 202-234): fills the slot and pops the message, or leaves both. |
| `RequestTurns.ClientTurns.SendRes` | IOCP_TCP+UDP/RacingGameServer/RacingGameServer/Job.cpp:216-225 | SendRes (GameServer.cpp lines 258-281): empties the slot exactly on a reported success; a reply queued and reported as not sent stays. |
| `JobFactories.JobFactory.CreateJob` | IOCP_TCP+UDP/RacingGameServer/RacingGameServer/Job.cpp:47-100 | For every message: a job with its kind, number and parameter exactly when every check passes and there is memory; undefined exactly for a negative type, which indexes the table; otherwise null, and no block is lost. |
| `JobFactories.JobFactory.DeallocateJob` | IOCP_TCP+UDP/RacingGameServer/RacingGameServer/Job.cpp:156-167 | The block goes back to the pool; a null job is ignored. |
| `JobFactories.CreatableIff` | IOCP_TCP+UDP/RacingGameServer/RacingGameServer/Job.cpp:47-100 | Off the bytes: type 1 is a token request of any length up to 8196, types 0 and 2 are echoes of at most 84 bytes behind the header, no other type makes a job, and types from 2^31 on are the negative ones; the parameter is bytes 16 on, zero-filled. |
| `JobFactories.EchoAcceptedIff` | IOCP_TCP+UDP/RacingGameServer/RacingGameServer/Job.cpp:174-186 | An echo request laid out as ReqMessage is accepted if and only if its parameter has at most 80 of the struct's 84 bytes, and then those bytes are echoed, zero-filled. |
| `JobFactories.ClientEchoIntactIff` | IOCP_TCP+UDP/RacingGameServer/RacingGameServer/Job.cpp:80-94 | The layout the client sends (TestClient/main.cpp lines 105-114), without payload-size field, is accepted up to 84 bytes, and what comes back is what was sent if and only if every byte of it is zero. |
| `JobFactories.MemoryPool.Allocate` | IOCP_TCP+UDP/RacingGameServer/RacingGameServer/MemoryPool.cpp:36-53 | The front block or a new one, never one still listed; null exactly when empty and out of memory. |
| `JobFactories.MemoryPool.Deallocate` | IOCP_TCP+UDP/RacingGameServer/RacingGameServer/MemoryPool.cpp:56-63 | The block is listed again, once; null is ignored. |
| `JobFactories.MemoryPool.constructor` | IOCP_TCP+UDP/RacingGameServer/RacingGameServer/MemoryPool.cpp:3-20 | The loop lists as many distinct new blocks as allocations found memory. |
| `Packets.PacketData.Init` | IOCP_TCP+UDP/RacingGameServer/RacingGameServer/PacketData.cpp:122-153 | The fields written one behind the other are the encoded message; one too large for a packet is refused and changes nothing. The total is computed in 32 bits. |
| `Packets.PacketData.InitEmpty` | IOCP_TCP+UDP/RacingGameServer/RacingGameServer/PacketData.cpp:155-175 | The same without payload. |
| `Packets.PacketData.Pop` | IOCP_TCP+UDP/RacingGameServer/RacingGameServer/PacketData.cpp:75-85 | The first n bytes go and the rest slides to the front in place; too large an n empties the packet. |
| `Packets.PacketData.Allocate` | IOCP_TCP+UDP/RacingGameServer/RacingGameServer/PacketData.cpp:25-59 | A new array of that size with as much of the contents as fits; zero or no memory changes nothing. |
| `Packets.PacketsRoundTrip` | IOCP_TCP+UDP/RacingGameServer/RacingGameServer/PacketData.cpp:122-153 | Whatever Init accepts comes back through the C# receive loop, however cut. |
| `Packets.PacketPool.Allocate` | IOCP_TCP+UDP/RacingGameServer/RacingGameServer/PacketPool.cpp:43-63 | An empty packet of full capacity, off the list for good; null exactly when the list is empty and memory is out. |
| `Packets.PacketPool.Deallocate` | IOCP_TCP+UDP/RacingGameServer/RacingGameServer/PacketPool.cpp:65-76 | The packet is emptied and listed, once; null is ignored. |
| `Packets.PacketPool.constructor` | IOCP_TCP+UDP/RacingGameServer/RacingGameServer/PacketPool.cpp:3-22 | As many distinct clean packets as of the hundred allocations found memory. |
| `EchoJobs.EchoJob.Execute` | IOCP_TCP+UDP/RacingGameServer/RacingGameServer/Job.cpp:188-214 | The job ends with one packet holding its reply, and a packet left from an earlier try is back in the pool; on failure it keeps what it had and the pool keeps every packet. |
| `EchoJobs.EchoJob.SendRes` | IOCP_TCP+UDP/RacingGameServer/RacingGameServer/Job.cpp:216-225 | For refused, queued, and queued although the send failed: where the packet is afterwards, by the functions the ownership model steps with; job and connection share it exactly in the last case. |
| `EchoJobs.Connection.SendMsgTCP` | IOCP_TCP+UDP/RacingGameServer/RacingGameServer/Job.cpp:216-219 | SendMsgTCP (Connection.cpp lines 108-128): a packet stands last in the ring afterwards exactly when it is not null, the client is connected and a slot is free, idle or not; the answer is true exactly for such a packet unless the connection was idle and WSASend failed. |
| `EchoJobs.RingKeepsOrder` | IOCP_TCP+UDP/RacingGameServer/RacingGameServer/Job.cpp:216-219 | Over any list of sends (Connection.cpp lines 108-128), whatever is idle and whatever fails: the packets stand in the ring in the order handed over, as many as there is room for, and of those false was answered exactly when the connection was idle and the I/O failed. |
| `PacketOwnership.SingleOwnerIff` | IOCP_TCP+UDP/RacingGameServer/RacingGameServer/Job.cpp:188-225 | Over every run of allocations, retries, sends, returns and destructions, each packet has a single owner throughout if and only if no send was queued and then reported as failed (SendMsgTCP, Connection.cpp lines 108-128). |
| `PacketOwnership.FailedPushShares` | IOCP_TCP+UDP/RacingGameServer/RacingGameServer/Job.cpp:216-225 | That answer (Connection.cpp lines 117-125) leaves the packet with two owners in whatever state it comes. |
| `PacketOwnership.FailedPushHappens` | IOCP_TCP+UDP/RacingGameServer/RacingGameServer/Job.cpp:188-225 | A run of five steps gets there, leaving the one packet with the sender and the job. |
| `PacketOwnership.NothingLostNothingOverrun` | IOCP_TCP+UDP/RacingGameServer/RacingGameServer/Job.cpp:188-225 | In all other runs every packet is somewhere, free packets are empty and of full capacity, Init has room for what it writes, and every memory block is listed free once or under one job. |
| `PacketOwnership.SoloExecuteMatches` | IOCP_TCP+UDP/RacingGameServer/RacingGameServer/Job.cpp:188-214 | The steps of one Execute that nobody interrupts do what the method does: a payload that fits leaves the job with the pool's front packet, written, and the older one at the back; one that does not leaves the job as it was. The pool grows only when its list is empty. |
| `PacketOwnership.BlocksGoRound` | IOCP_TCP+UDP/RacingGameServer/RacingGameServer/Job.cpp:8-14 | A job takes the front block, a new one only when none is free, and gives it to the back; the packet it dies with is deleted, not pooled. |
| `PacketOwnership.SentPacketReturns` | IOCP_TCP+UDP/RacingGameServer/RacingGameServer/PacketPool.cpp:65-76 | A sent packet goes, emptied, to the back of the pool's list, whichever completes first. |
| `SpinLocks.MutualExclusion` | IOCP_TCP+UDP/RacingGameServer/RacingGameServer/SpinLock.cpp:8-64 | Any number of threads, spurious failures, try guards and early unlocks: the flag is down exactly while one guard owns the lock, and no two do. |
| `SpinLocks.TakesIff` | IOCP_TCP+UDP/RacingGameServer/RacingGameServer/SpinLock.cpp:8-41 | Over every run, an exchange that does not fail spuriously and a try take the lock exactly when no guard owns it; a failed exchange is reset and repeated. |
| `SpinLocks.ReleasesOnce` | IOCP_TCP+UDP/RacingGameServer/RacingGameServer/SpinLock.cpp:43-64 | Only the owner's unlock or destructor raises the flag, and after an early unlock the destructor does not. |
| `SpinLocks.WithoutResetTwoOwn` | IOCP_TCP+UDP/RacingGameServer/RacingGameServer/SpinLock.cpp:10-14 | Without the reset of expected, two guards would own the lock. |
| `SpinLocks.SpinLock.Spin` | IOCP_TCP+UDP/RacingGameServer/RacingGameServer/SpinLock.cpp:8-16 | The spin ends at the first attempt that finds the lock free and succeeds, never on a taken lock; then the flag is down, and until then it is as the others left it. |
| `SpinLocks.SpinLock.TryLock` | IOCP_TCP+UDP/RacingGameServer/RacingGameServer/SpinLock.cpp:24-28 | Succeeds exactly when the lock was free; the flag is down either way. |
| `SpinLocks.SpinLockGuard.Unlock` | IOCP_TCP+UDP/RacingGameServer/RacingGameServer/SpinLock.cpp:56-64 | Raises the flag only if this guard holds it, and only once. |
| `SpinLocks.SpinLockGuard.Destroy` | IOCP_TCP+UDP/RacingGameServer/RacingGameServer/SpinLock.cpp:43-49 | Raises the flag only if this guard still holds it. |
| `SpinLocks.SpinLockGuard.Try` | IOCP_TCP+UDP/RacingGameServer/RacingGameServer/SpinLock.cpp:35-41 | Holds the lock exactly when it was free. |

## Left out

- ClientContexts.ClientContext.SendMsg: is about senders that do not overlap; overlapping ones are in `SendPumps`, where the buffer is a value and each of its operations, and each send, is one step.
- ClientContexts.ClientContext.Release: only the socket becoming null; Close and Dispose of the socket are not modelled.
- GameServers.GameServer.RecvLoop: the end of the receive script stands for an exception; what OnConnect and OnDisconnect log is reduced to the event.
- GameServers.GameServer.RetryEcho: a handler that is still retrying when the script of waits ends is reported as such; that it would end is not claimed.
- Packets.PacketData.Init: the packet must have room for what passes the size check, which the source does not look at; the overload for strings does the same and is not repeated.
- Packets.PacketData.Pop: `CopyMemory` on overlapping ranges is taken to copy as if they did not overlap, and a packet without an array must have nothing left to slide.
- JobFactories.JobFactory.CreateJob: what a negative type leads to is undefined in the source and stays so here; `RequestTurns` counts such a message as refused. CreateUDPJob is not modelled.
- AsyncLocks.AsyncLock.TryLockAsync: LockAsync, which waits, is in the step system only; fairness of the semaphore, and one handle disposed by two flows at once, are left out.
- SpinLocks.SpinLock.Spin: the values other threads leave in the flag are an input; the blocking guard constructor is in the step system only.
- ConnectionPools.Registry.Publish: AcceptLoop itself is in the step system only, where each operation on a shared collection is one step; its OverflowException branch is left out.
- RetryQueues.JobQueue.Settle: JobThread itself is in the step system only; requests and the jobs made of them are opaque there, and Execute answers from an oracle that says how often each job will retry and what it answers then.
- RequestTurns.HandleReq: messages are whole (the receive buffer's capacity and bytes cut off by it are left out), the index is checked once for all tables, and in the method messages arrive before a parse only; in the step system they arrive at any time. Storing what a receive brings and waking a worker for it are one step.
- RequestTurns.AnsweredInOrderIff: a disconnect may come between making a job and popping its message, but looking at the message and copying it into the job are one step; whether a queued reply is ever sent is left out.
- PacketOwnership.NothingLostNothingOverrun: packets and blocks are numbers, so their reuse is captured and their bytes are not; the send buffer's ring and the completion that returns its packets are one step.
- The second C++ server's `GameServer.cpp`, `Connection.cpp` and `ThreadPool.cpp` are named by file and line in the text of their rows; the source column of those rows gives the documentation or the caller they serve.
- Destructors of pools and packets, and PacketData::Free.
- Sockets, tasks and threads themselves; the Epoll, Select, blocking and IOCP network code, scatter/gather, UDP tokens.
- Resizing and stopping the thread pool, the time-based pool, the database, zones, LogManager, logging and delays, request types other than echo in the C# server.

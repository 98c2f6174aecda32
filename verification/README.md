# Verification of the NKE socket filter

The kernel extension swallows every packet of a socket, shows it to a user-mode client and puts it back into the stack
once the client has answered. This project models the parts of it that carry the data and proves what they promise:

- the ring of notifications shared with the client, first call by call, then with one producer and one consumer
  interleaved byte by byte (`Bytes`, `DataQueue`, `SharedQueue`, `QueueCapacity`, `QueueSteps`);
- the pool of data buffers and the scattering of a packet over them, first alone, then by any number of threads at once
  (`IndexLists`, `FreeBuffers`, `SocketFilterBuffers`, `PoolSteps`);
- the pending queue of one socket: its passes as functions (`PendingQueue`, `SocketState`), the object that runs them in
  place (`SocketObject`), every interleaving of its critical sections (`SocketRuns`), what follows for whole runs
  (`SocketTheorems`), what the client has seen (`SocketNotices`) and what becomes of each packet (`SocketPackets`);
- the lifetime of a socket object (`SocketLifetime`) and all objects with the two global lists and the attach callbacks
  (`SocketSystem`);
- postponed reports and the recursion between delivery and the release of buffers (`Delivery`);
- the two run-down protocols (`ClientRef`, `DetachingLock`).

`dafny verify dfyconfig.toml` checks everything.

## How to read it

Code that edits an object in place is a class whose methods are proved equal to functions of the old state: the loops of
`SocketObject` compute the functions of `SocketState`, those of `SharedQueue` refine the FIFO of `DataQueue`, those of
`SocketFilterBuffers` the pool of `FreeBuffers`. What happens concurrently is a machine whose steps are the source's
critical sections, or its single atomic operations where there is no lock; a run is any sequence of enabled steps, so
every statement about runs is about every interleaving of any number of threads. Memory is sequentially consistent.
Buffers, client, clock and the stack's injection functions may answer anything at any time: their answers are parameters
of the steps.

Safety alone would let a machine do nothing. So the answers of the calls are fixed as well, each by what happened in the
run and not by the step that gives it: when an enqueue is refused and when it signals (`QueueSteps.RefusedIff`,
`QueueSteps.NotifiesIff`), when a scatter backs out (`PoolSteps.ScatterIff`), how a packet is queued, until when it blocks
and who frees it (`SocketPackets`), what the two run-down protocols answer (`ClientRef.GetterIff`, `ClientRef.RegisterIff`,
`ClientRef.UnregisterIff`, `DetachingLock.SwapIff`) and in which order sockets are served (`SocketSystem.NoOvertaking`).
And nothing is ever stuck: from every reachable state the ring can be emptied, the buffers can come back, the run-downs and
a detach can come to their end (`EverythingIsDelivered`, `EveryBufferComesBack`, `UnregistrationCompletes`,
`RemovalCompletes`, `FreedInTheEnd`).

The runs of one socket (`SocketRuns`) are the lowest layer. `SocketLifetime` adds references, lists and detaching to such
a world, and `SocketSystem` puts many of these together; its runs inherit the invariants below it.

## Where the code does less than it says

The model follows the code. Each place where a comment or an assertion of the source does not hold is stated with the
exact condition under which it does, or with a run that violates it:

- `copyDataToBuffers` gives the buffers back on failure but leaves their indices in the array, and `FltData` releases the
  array again. At whatever moment that happens, pool and owners survive it exactly if every buffer of the array is free
  then and none is the last free one (`SecondReleaseIsSafeIff`, and for any interleaving `LateReleaseIsSafeIff`): the
  second release takes a buffer from a thread that has been given it meanwhile. If nobody else uses the pool in between,
  the condition is that no buffer was free to begin with, or that the packet is shorter than its header says and ends
  before the free buffers do (`NkeSocketFilter.CopyAndReleaseOnError`).
- The guard against releasing a buffer twice lets the last free buffer through, and the free list becomes a cycle
  (`AcceptsIff`, `ReleaseLastCloses`, `ReleaseIsSafeIff`). It also lets a buffer through that was never created.
- The compare-and-swap of an acquire is safe exactly if the link it installs is still current (`CasIsSafeIff`). Contrary
  to the remark in the source the head can come back with another link: exactly if there are at least two buffers
  (`HeadComesBackIff`).
- A failed report of a packet past its deadline does not end the delivery pass, and the next attempt overwrites the array
  of buffers. A pass over a queue gives back what it has to, and keeps to the assertion in front of the release, whatever
  buffers and client do, exactly if no unreported packet of the queue but the last is past its deadline
  (`PassIsOrderlyIff`); otherwise a buffer stays acquired for good and one the client is reading is handed out again
  (`LateFirstOfTwo`). The delivery loop terminates in any case, with at most n(n+1)/2 passes for n listed sockets, and with
  at most n if no queue can be late in this way (`Delivery.Reporter.DeliverWaitingNotifications`).
- A packet can count as reported although the client has never been told of it: exactly if `FltData` queued it as reported
  and has not come to its notification, or if a notification of it failed, `FltData`'s own or that of a delivery pass that
  went past it (`UnknownIff`; `FirstNotificationLost` is the shortest run). An answer given unasked can then get the packet
  to the stack unless the socket is disconnecting, and no other queued packet can get there so (`SlipsIff`). With a client
  that only answers notifications it does not happen (`NotifiedBeforeInjected`).
- The assertion at the end of a failing `getUserClient` holds exactly while an unregistration is under way, as long as
  unregistrations do not overlap (`PendingIff`). It fails after one that has fitted between the two looks at the client
  (`NoUnregistrationPending`), and during one if a second of the same client has lost against it
  (`OverlappingUnregistrations`). The protocol does not need it.

## Model

| member | source | states |
|---|---|---|
| `SharedQueue.IODataQueue.EnqueueWithBarrier` | NKE/NetworkKernelExtension/NkeIOUserClient.cpp:514-593 | an enqueue either appends the message to the FIFO the bytes stand for or changes nothing, as the offsets decide, and signals the reader exactly if the queue was empty |
| `DataQueue.Place32AgreesIff` | NKE/NetworkKernelExtension/NkeIOUserClient.cpp:516-582 | the decision in UInt32 arithmetic is the intended one for all offsets exactly if queue size and entry size together stay below 2^32 |
| `SharedQueue.IODataQueue.StoreWrapped` | NKE/NetworkKernelExtension/NkeIOUserClient.cpp:541-557 | a wrapped entry lies at the start of the area and its size is repeated at the old tail exactly if a header fits there; no other byte changes |
| `SharedQueue.IODataQueue.DequeueEntry` | NKE/NetworkKernelExtension/NkeSocketObject.cpp:42-90 | status, size, data and remaining messages are those of a plain FIFO: it succeeds exactly if there is a message and, if it is wanted, its size fits; a refused dequeue changes nothing |
| `DataQueue.EnqueueAppends` | NKE/NetworkKernelExtension/NkeIOUserClient.cpp:523-582 | whichever of the three places the producer chooses, the messages the bytes stand for are the old ones and the new one |
| `DataQueue.ConsumerFindsWrap` | NKE/NetworkKernelExtension/NkeSocketObject.cpp:50-63 | the consumer restarts at offset 0 exactly where the producer wrapped |
| `DataQueue.EmptyIff` | NKE/NetworkKernelExtension/NkeSocketObject.cpp:49-63 | head equals tail exactly if no message is held |
| `DataQueue.DequeueRefines` | NKE/NetworkKernelExtension/NkeSocketObject.cpp:42-90 | a dequeue on the bytes refines a dequeue on the FIFO |
| `DataQueue.HoldsIsUnique` | NKE/NetworkKernelExtension/NkeSocketObject.cpp:42-90 | the bytes of a ring can be read in one way only |
| `DataQueue.RunIsFifo` | NKE/NetworkKernelExtension/NkeIOUserClient.cpp:514-593 | over any sequence of enqueues and dequeues of any sizes nothing is lost, duplicated or reordered |
| `QueueCapacity.EmptyRingAcceptsIff` | NKE/NetworkKernelExtension/NkeIOUserClient.cpp:523-582 | an empty ring accepts an entry from every head position exactly if two such entries fit |
| `QueueCapacity.UniformRun` | NKE/NetworkKernelExtension/NkeSocketFilter.h:409-417 | with entries of one size at most queueSize / size are held in any run, and an enqueue is refused only if at least one less are |
| `QueueSteps.StalePlaceIsFree` | NKE/NetworkKernelExtension/NkeIOUserClient.cpp:516-582 | the place chosen with an out-of-date head holds no unread byte |
| `QueueSteps.StepKeeps` | NKE/NetworkKernelExtension/NkeIOUserClient.cpp:514-593 | every single byte store, byte load (the size field included) and offset update of producer or consumer keeps the layout of the ring |
| `QueueSteps.ConcurrentRunIsFifo` | NKE/NetworkKernelExtension/NkeIOUserClient.cpp:516-590 | in every interleaving the accepted messages are the delivered ones followed by those held |
| `QueueSteps.NoLostWakeup` | NKE/NetworkKernelExtension/NkeIOUserClient.cpp:584-590 | a consumer that went to sleep over a non-empty ring has a notification pending or about to be sent |
| `QueueSteps.NeverStuck` | NKE/NetworkKernelExtension/NkeSocketObject.cpp:42-90 | no operation is ever caught in the middle by an access outside the queue area |
| `QueueSteps.RefusedIff` | NKE/NetworkKernelExtension/NkeIOUserClient.cpp:516-582 | in every interleaving an enqueue is refused exactly if, when it read the offsets, there was room neither behind the tail nor in front of the head |
| `QueueSteps.NotifiesIff` | NKE/NetworkKernelExtension/NkeIOUserClient.cpp:584-590 | in every interleaving an enqueue signals exactly if all earlier messages had been delivered when it began, or if just its own is left when it looks again |
| `QueueSteps.WokenByNotice` | NKE/NetworkKernelExtension/NkeIOUserClient.cpp:584-590 | a sleeper is woken only by a notification sent since the last wake-up |
| `QueueSteps.EverythingIsDelivered` | NKE/NetworkKernelExtension/NkeSocketObject.cpp:42-90 | from every reachable state the consumer can take everything the ring holds, needing nothing from the producer but a notification that is due |
| `FreeBuffers.InitialIsSound` | NKE/NetworkKernelExtension/NkeSocketFilter.cpp:125-162 | after set-up all created buffers are on the free list, the last one first |
| `FreeBuffers.ListIsDistinct` | NKE/NetworkKernelExtension/NkeSocketFilter.cpp:1084-1167 | a free list that ends visits no buffer twice |
| `FreeBuffers.AcquireKeeps` | NKE/NetworkKernelExtension/NkeSocketFilter.cpp:1084-1126 | an acquire hands out a buffer nobody owns and keeps the partition into free and acquired buffers; it fails only if none is free |
| `FreeBuffers.ReleaseKeeps` | NKE/NetworkKernelExtension/NkeSocketFilter.cpp:1134-1167 | the release of an acquired buffer is accepted and keeps the partition |
| `FreeBuffers.AcceptsIff` | NKE/NetworkKernelExtension/NkeSocketFilter.cpp:1141-1149 | the release guard accepts exactly the acquired buffers, the buffers that were never created and the last free one |
| `FreeBuffers.ReleaseLastCloses` | NKE/NetworkKernelExtension/NkeSocketFilter.cpp:1134-1167 | releasing the last free buffer turns the free list into a cycle |
| `FreeBuffers.ReleaseIsSafeIff` | NKE/NetworkKernelExtension/NkeSocketFilter.cpp:1134-1167 | a release request of any index keeps the pool in order exactly if it names neither the last free buffer nor one never created |
| `FreeBuffers.CasIsSafeIff` | NKE/NetworkKernelExtension/NkeSocketFilter.cpp:1092-1112 | a compare-and-swap of the head is a correct acquire exactly if the link it installs is the current one |
| `FreeBuffers.HeadComesBackIff` | NKE/NetworkKernelExtension/NkeSocketFilter.cpp:1088-1112 | with a free buffer, the other threads can bring the head back with another link exactly if there are two buffers at all |
| `FreeBuffers.SecondReleaseIsSafeIff` | NKE/NetworkKernelExtension/NkeSocketFilter.cpp:1134-1167 | releasing an array again, whatever happened to the pool since, leaves pool and owners alone exactly if each of its buffers is free and none is the last free one |
| `FreeBuffers.SecondReleaseAtOnce` | NKE/NetworkKernelExtension/NkeSocketFilter.cpp:1240-1250 | if nothing happened since, that means the array is empty or other free buffers lie behind its own |
| `SocketFilterBuffers.NkeSocketFilter.constructor` | NKE/NetworkKernelExtension/NkeSocketFilter.cpp:91-165 | the loop builds the initial free list and stops at the first buffer that cannot be created |
| `SocketFilterBuffers.NkeSocketFilter.AcquireSocketDataBufferForIO` | NKE/NetworkKernelExtension/NkeSocketFilter.cpp:1084-1126 | takes the first free buffer, or reports that there is none |
| `SocketFilterBuffers.NkeSocketFilter.ReleaseSocketDataBufferFromIO` | NKE/NetworkKernelExtension/NkeSocketFilter.cpp:1134-1167 | gives an acquired buffer back; any other index has the effect the guard allows and no more |
| `SocketFilterBuffers.NkeSocketFilter.CopyDataMbuf` | NKE/NetworkKernelExtension/NkeDataBuffer.cpp:108-125 | copies the clipped length from the offset, or fails and leaves the buffer alone |
| `SocketFilterBuffers.NkeSocketFilter.FillBuffers` | NKE/NetworkKernelExtension/NkeSocketFilter.cpp:1196-1232 | alone on the pool: the loop ends; on success it used as many distinct buffers as the packet needs and no more, and their contents concatenate to the packet |
| `SocketFilterBuffers.NkeSocketFilter.CopyDataToBuffers` | NKE/NetworkKernelExtension/NkeSocketFilter.cpp:1175-1253 | alone on the pool: the answer is known from packet and free buffers beforehand; on success as above with a terminated array; on failure the acquired buffers are as before and the array still names the buffers given back |
| `SocketFilterBuffers.NkeSocketFilter.ReleaseDataBuffers` | NKE/NetworkKernelExtension/NkeSocketFilter.cpp:1257-1272 | releases the indices in front of the terminator; distinct acquired ones all return to the free list |
| `SocketFilterBuffers.NkeSocketFilter.CopyAndReleaseOnError` | NKE/NetworkKernelExtension/NkeSocketObject.cpp:1116-1134 | alone on the pool: after a failed copy and the second release the pool is in order exactly if no buffer was free, or the packet is shorter than its header says and ends before the free buffers do |
| `PoolSteps.InvKeeps` | NKE/NetworkKernelExtension/NkeSocketFilter.cpp:1084-1272 | every step of any thread scattering, giving back or handing over buffers keeps the pool, the owners and the contents |
| `PoolSteps.PoolStaysSound` | NKE/NetworkKernelExtension/NkeSocketFilter.cpp:1084-1167 | in every interleaving free and owned buffers partition the pool |
| `PoolSteps.ArraysAreExclusive` | NKE/NetworkKernelExtension/NkeSocketFilter.cpp:1196-1238 | in every interleaving an array, complete or not, names distinct buffers nobody else has, and its next index lies inside it |
| `PoolSteps.FilledIsPacket` | NKE/NetworkKernelExtension/NkeSocketFilter.cpp:1196-1238 | in every interleaving a complete array has as many buffers as the packet needs and their contents concatenate to it |
| `PoolSteps.ScatterIff` | NKE/NetworkKernelExtension/NkeSocketFilter.cpp:1196-1232 | in every interleaving a scatter backs out exactly if every buffer is owned when it acquires one or the packet ends too early; otherwise it goes on to the next part of the packet until the length is covered |
| `PoolSteps.EveryBufferComesBack` | NKE/NetworkKernelExtension/NkeSocketFilter.cpp:1084-1272 | wherever the threads are, all buffers can come back to the pool: each thread needs only steps of its own, and the client has to give back what it has |
| `PoolSteps.LateReleaseIsSafeIff` | NKE/NetworkKernelExtension/NkeSocketObject.cpp:1268-1274 | at any moment of any interleaving, releasing a stale array is harmless exactly if all its buffers are free and none is the last free one; a buffer somebody owns by then is taken away |
| `PendingQueue.DeliveryKeeps` | NKE/NetworkKernelExtension/NkeSocketObject.cpp:1360-1540 | a delivery pass keeps the shape of the queue and the packets, signals the senders of the packets it got through, and leaves packets waiting exactly if it stopped early |
| `PendingQueue.DeliveredIff` | NKE/NetworkKernelExtension/NkeSocketObject.cpp:1377-1463 | a pass gets past a packet exactly if no report up to it has failed within 60 seconds of the allocation; what it does to the flags of the packet |
| `PendingQueue.VerdictKeeps` | NKE/NetworkKernelExtension/NkeSocketObject.cpp:1899-1973 | a verdict changes at most the two verdict flags of reported packets with that index |
| `PendingQueue.VerdictReaches` | NKE/NetworkKernelExtension/NkeSocketObject.cpp:1919-1967 | in a well-shaped queue it reaches every reported packet it names |
| `PendingQueue.CollectKeeps` | NKE/NetworkKernelExtension/NkeSocketObject.cpp:1707-1788 | a reinjection takes, per direction, a prefix of reported packets nobody waits for and keeps the rest well shaped |
| `PendingQueue.PurgeKeeps` | NKE/NetworkKernelExtension/NkeSocketObject.cpp:2019-2118 | a purge takes all packets of its directions and keeps the rest well shaped, in any direction |
| `SocketObject.NkeSocketObject.EnqueuePkt` | NKE/NetworkKernelExtension/NkeSocketObject.cpp:1137-1230 | the packet becomes the last one, unreported exactly if its copy failed or another packet waits; otherwise the client is to be notified; when to block the sender and to list the socket |
| `SocketObject.NkeSocketObject.DeliverPendingPackets` | NKE/NetworkKernelExtension/NkeSocketObject.cpp:1370-1475 | the loop computes the delivery pass and reports exactly when it stopped early |
| `SocketObject.NkeSocketObject.SetDeferredDataProperties` | NKE/NetworkKernelExtension/NkeSocketObject.cpp:1899-1973 | the loop applies the verdict to the first reported packet with that index, if any |
| `SocketObject.NkeSocketObject.TakeDeferredData` | NKE/NetworkKernelExtension/NkeSocketObject.cpp:1707-1788 | the unlinking loop moves exactly the ready packets, in order, to the local list |
| `SocketObject.NkeSocketObject.InjectPackets` | NKE/NetworkKernelExtension/NkeSocketObject.cpp:1793-1883 | every packet of the local list in order: dropped exactly if it is not allowed or the socket is disconnecting, else injected or rejected as the stack answers; its buffer is freed here exactly if it was dropped or an inbound injection failed |
| `SocketObject.NkeSocketObject.PurgePendingQueue` | NKE/NetworkKernelExtension/NkeSocketObject.cpp:2019-2118 | the unlinking loop removes exactly the packets of its directions, takes them off the counters and wakes exactly their senders |
| `SocketObject.NkeSocketObject.VerifyPendingPacketsQueue` | NKE/NetworkKernelExtension/NkeSocketObject.cpp:1977-2015 | the debug check of neighbours passes exactly if the whole queue is a reported prefix and an unreported suffix |
| `SocketRuns.InvKeeps` | NKE/NetworkKernelExtension/NkeSocketObject.cpp:991-2118 | every step of one socket keeps queue shape, counters, order, placement of packets, signals, permissions and buffer ownership |
| `SocketRuns.AllocatedIsFresh` | NKE/NetworkKernelExtension/NkeSocketObject.cpp:782-847 | a new packet has an index no packet has or had, carries length and direction it was given, is past its deadline exactly 60 seconds after the moment of its allocation, and is counted, in its direction only, before it can be seen |
| `SocketRuns.PermittedVerdict` | NKE/NetworkKernelExtension/NkeSocketObject.cpp:1925-1967 | a verdict for a packet still queued is applied, so an earlier allow does not survive a deny |
| `SocketRuns.QueuedIsUnique` | NKE/NetworkKernelExtension/NkeSocketObject.cpp:782-847 | a queued packet shares its index with no other packet and has not left |
| `SocketTheorems.StreamOrder` | NKE/NetworkKernelExtension/NkeSocketObject.cpp:1722-1785 | per direction: given up, being injected and queued, in this order, are the packets accepted, in every run |
| `SocketTheorems.QueueShape` | NKE/NetworkKernelExtension/NkeSocketObject.cpp:1977-2015 | the queue is a reported prefix and an unreported suffix of length packetsWaitingForReporting; allowed implies answered implies reported |
| `SocketTheorems.CountersMatch` | NKE/NetworkKernelExtension/NkeSocketObject.cpp:823-829 | packet and byte counters equal the sums over just allocated, local and queued packets and are never negative |
| `SocketTheorems.EveryBufferGivenUpOnce` | NKE/NetworkKernelExtension/NkeSocketObject.cpp:1807-1881 | every packet ever swallowed is in exactly one place; whether its buffer is freed follows from its fate |
| `SocketPackets.QueuedIff` | NKE/NetworkKernelExtension/NkeSocketObject.cpp:1137-1230 | in every run FltData queues a packet as reported exactly if its copy succeeded and no queued packet is unreported; only then is the client to be notified, only otherwise is an outbound sender blocked |
| `SocketPackets.RunRecords` | NKE/NetworkKernelExtension/NkeSocketObject.cpp:1899-1973 | in every run a packet counts as answered, allowed or passed over exactly if the steps of the run have made it so: allowed means allowed while it was queued and reported, and not denied since |
| `SocketPackets.HoldsUpIff` | NKE/NetworkKernelExtension/NkeSocketObject.h:253-261 | in every run a queued packet holds up its direction while it is unreported, and then until it is answered, 60 seconds have gone by since its allocation, or a delivery pass has gone past it after a failure |
| `SocketPackets.TakenIff` | NKE/NetworkKernelExtension/NkeSocketObject.cpp:1722-1785 | a reinjection takes a packet of its direction exactly if neither it nor a packet in front of it holds it up |
| `SocketPackets.FateIff` | NKE/NetworkKernelExtension/NkeSocketObject.cpp:1807-1858 | in every run a packet given up was purged, offered to the stack with success or failure, or dropped, exactly as the steps say, and the filter frees its buffers exactly if the stack has not taken them |
| `SocketTheorems.SendersWokenOnce` | NKE/NetworkKernelExtension/NkeSocketObject.cpp:1282-1293 | a sender waits exactly while its packet is unreported, is woken at most once, and before its packet has left |
| `SocketTheorems.OnlyAllowedIsInjected` | NKE/NetworkKernelExtension/NkeSocketObject.cpp:1807-1809 | whatever is offered to the stack was allowed by the last verdict before it left the queue |
| `SocketTheorems.NotifiedBeforeInjected` | NKE/NetworkKernelExtension/NkeSocketObject.cpp:1404-1475 | with a client that only answers notifications, whatever is offered to the stack had been reported |
| `SocketNotices.NoticedKeeps` | NKE/NetworkKernelExtension/NkeSocketObject.cpp:1137-1467 | every step keeps: of each queued packet marked as reported exactly one is true, the client was notified, FltData has still to notify it, or a notification failed |
| `SocketNotices.HistoryIff` | NKE/NetworkKernelExtension/NkeSocketObject.cpp:1238-1266 | which of these is true is read off the steps of the run |
| `SocketNotices.UnknownIff` | NKE/NetworkKernelExtension/NkeSocketObject.cpp:1238-1475 | in every run a queued packet marked as reported is unknown to the client exactly if FltData has not come to its notification or a notification of it failed |
| `SocketNotices.SlipsIff` | NKE/NetworkKernelExtension/NkeSocketObject.cpp:1748-1809 | from every state that satisfies the invariant of all runs, an unasked answer can get a queued packet the client does not know to the stack exactly if it is marked as reported, unknown and the socket is not disconnecting |
| `SocketNotices.OnlyMarkedSlip` | NKE/NetworkKernelExtension/NkeSocketObject.cpp:1748-1809 | no sequence of answers and reinjections offers an unreported packet to the stack, or any of a disconnecting socket |
| `SocketNotices.FirstNotificationLost` | NKE/NetworkKernelExtension/NkeSocketObject.cpp:1238-1266 | a run of three steps into such a state |
| `SocketTheorems.LateQueueIsTaken` | NKE/NetworkKernelExtension/NkeSocketObject.h:253-261 | past its deadline a packet holds up neither a delivery pass nor a reinjection |
| `SocketTheorems.DeadlineDrain` | NKE/NetworkKernelExtension/NkeSocketObject.cpp:1748-1784 | if all packets are past their deadline, one delivery pass, whatever fails, and one full reinjection empty the queue and all counters; dropped are exactly the packets without an allow on them, or all if the socket is disconnecting |
| `SocketLifetime.InvKeeps` | NKE/NetworkKernelExtension/NkeSocketFilter.cpp:344-448 | every step of insertion, lookup, delivery, release and detaching (the wait for the detaching lock included) keeps reference count, lists, stages and the cover of waiting packets |
| `SocketLifetime.CoveredKeeps` | NKE/NetworkKernelExtension/NkeSocketObject.cpp:1195-1220 | every event keeps: an attached socket with packets to report is listed or with a deliverer that will process or reinsert it |
| `SocketLifetime.WaitingChanges` | NKE/NetworkKernelExtension/NkeSocketObject.cpp:1195-1463 | packets start to wait only when the first unreported one is queued, and wait on after a pass only if it stopped early |
| `SocketLifetime.ReportListIff` | NKE/NetworkKernelExtension/NkeSocketObject.cpp:1195-1220 | a socket enters the report list exactly when its first packet has to wait or a deliverer puts it back, and leaves it exactly when a deliverer takes it or it is detached |
| `SocketLifetime.PassLeavesIff` | NKE/NetworkKernelExtension/NkeSocketObject.cpp:1377-1463 | after a pass the socket is to be put back exactly if packets still wait |
| `SocketLifetime.SocketsListIff` | NKE/NetworkKernelExtension/NkeSocketObject.cpp:421-560 | an object enters the list of sockets exactly when it is inserted, which attaches it, and leaves it exactly when it is detached |
| `SocketLifetime.InUseIsAlive` | NKE/NetworkKernelExtension/NkeSocketObject.cpp:570-603 | an object that can be entered or found has references left |
| `SocketLifetime.FreedIsClean` | NKE/NetworkKernelExtension/NkeSocketObject.cpp:400-417 | when the last reference goes, everything free() asserts holds, whatever deliverers did meanwhile |
| `SocketLifetime.DetachCompletes` | NKE/NetworkKernelExtension/NkeSocketFilter.cpp:413-448 | after the purge of a detach the queue is empty and all counters are zero, so its final wait ends |
| `SocketLifetime.PurgedStaysQuiet` | NKE/NetworkKernelExtension/NkeSocketFilter.cpp:413-448 | no later event brings a packet back to a detached object |
| `SocketLifetime.FreedInTheEnd` | NKE/NetworkKernelExtension/NkeSocketFilter.cpp:413-448 | from every reachable state of an object that is being detached, everybody who holds a reference can finish, the detach ends, and the last reference goes |
| `SocketSystem.InvKeeps` | NKE/NetworkKernelExtension/NkeSocketObject.cpp:421-603 | every step of the whole system keeps both lists equal to their flags, one object per socket, unique sequence numbers, and what each running FltAttach knows about the list |
| `SocketSystem.InsertIsExclusive` | NKE/NetworkKernelExtension/NkeSocketFilter.cpp:358-381 | in every run, FltAttach finds nothing listed for its socket when it inserts, because it has looked and detached what it found |
| `SocketSystem.AttachInserts` | NKE/NetworkKernelExtension/NkeSocketFilter.cpp:358-381 | in every run an FltAttach that has returned has put a new attached object of its socket in front of the list |
| `SocketSystem.NobodyIsStranded` | NKE/NetworkKernelExtension/NkeSocketObject.cpp:1334-1592 | in every run: waiting sockets are listed or owned, lists match flags without duplicates, and the reference count is one per list plus one per holder |
| `SocketSystem.FreedObjectsAreClean` | NKE/NetworkKernelExtension/NkeSocketObject.cpp:400-417 | in every run a freed object is in no list, has no user and no packet |
| `SocketSystem.FindInSocketsList` | NKE/NetworkKernelExtension/NkeSocketObject.cpp:583-598 | the search finds a listed object of the socket whenever there is one |
| `SocketSystem.LookupFindsTheOnlyOne` | NKE/NetworkKernelExtension/NkeSocketObject.cpp:570-603 | a lookup finds the only listed object of the socket, or there is none |
| `SocketSystem.LookupRetains` | NKE/NetworkKernelExtension/NkeSocketObject.cpp:570-603 | in every reachable state a lookup gives its caller one reference to the listed object of the socket, or there is none and nothing changes |
| `SocketSystem.FirstIsPopped` | NKE/NetworkKernelExtension/NkeSocketObject.cpp:1334-1349 | in every reachable state a deliverer can take the first socket of the report list and takes over its reference |
| `SocketSystem.NoOvertaking` | NKE/NetworkKernelExtension/NkeSocketObject.cpp:1559-1578 | in every run, of two sockets that stay in the report list the one in front stays in front, and is served first |
| `SocketSystem.StaleVerdictChangesNothing` | NKE/NetworkKernelExtension/NkeSocketFilter.cpp:1309-1328 | a verdict changes only the object with its sequence number, which no other object has |
| `SocketSystem.MatchingVerdictIsApplied` | NKE/NetworkKernelExtension/NkeSocketFilter.cpp:1309-1328 | a verdict with the right sequence number takes effect on the packet it names, if that has been reported and is still queued |
| `SocketSystem.VerdictArrives` | NKE/NetworkKernelExtension/NkeSocketFilter.cpp:1295-1330 | in every reachable state an answer for a listed socket can be looked up and given, and with the right sequence number it takes effect on the packet it names |
| `SocketSystem.RulingIsLastVerdict` | NKE/NetworkKernelExtension/NkeSocketFilter.cpp:1300-1330 | the ruling kept for a packet is the last verdict with its object's sequence number and its index before it left |
| `SocketSystem.PermissionSafety` | NKE/NetworkKernelExtension/NkeSocketObject.cpp:1807-1809 | over all sockets and runs, a packet offered to the stack was allowed by that last verdict |
| `Delivery.PassIsOrderlyIff` | NKE/NetworkKernelExtension/NkeSocketObject.cpp:1377-1467 | whatever its attempts come to, a pass over a queue releases what it owes and has something to release only after a failure, exactly if no unreported packet but the last is past its deadline |
| `Delivery.LateFirstOfTwo` | NKE/NetworkKernelExtension/NkeSocketObject.cpp:1423-1467 | two packets, the first past its deadline: its buffer stays acquired, and the buffer the client has just been told of is the next to be handed out |
| `Delivery.Reporter.ReportPackets` | NKE/NetworkKernelExtension/NkeSocketObject.cpp:1360-1540 | the loop computes the delivery pass; what it tried are the unreported packets it reached, and error, release and array are read off the last of them |
| `Delivery.Reporter.DeliverWaitingNotifications` | NKE/NetworkKernelExtension/NkeSocketObject.cpp:1319-1601 | every call ends, the report list never grows, a socket leaves it only with nothing left to report and stays only after a failed pass, behind those not served yet; a pass whose last attempt failed is the last one the call makes itself; there are at most n(n+1)/2 passes for n listed sockets, fewer if some are left, and at most n if no listed queue can be late |
| `Delivery.Reporter.ReleaseDataBuffersAndDeliverNotifications` | NKE/NetworkKernelExtension/NkeSocketFilter.cpp:1276-1284 | the same for the function that calls it back |
| `ClientRef.InvKeeps` | NKE/NetworkKernelExtension/NkeIOUserClient.cpp:724-866 | every atomic step of every thread keeps the count of invocations, the pointer and the reference counts |
| `ClientRef.InvocationsAreCounted` | NKE/NetworkKernelExtension/NkeIOUserClient.cpp:807-866 | clientInvocations is the number of threads between increment and decrement |
| `ClientRef.HeldClientIsAlive` | NKE/NetworkKernelExtension/NkeIOUserClient.cpp:750-866 | while a thread holds a client its registration is not released, cannot be, and the client has references |
| `ClientRef.GetterIff` | NKE/NetworkKernelExtension/NkeIOUserClient.cpp:807-848 | in every run getUserClient returns a client exactly if userClient pointed to it when it was read and when it was compared, and was not NULL at the last look |
| `ClientRef.GetterSucceeds` | NKE/NetworkKernelExtension/NkeIOUserClient.cpp:807-848 | if userClient points to one registration at each step of the call and no unregistration is pending at its look, the call returns that client |
| `ClientRef.RegisterIff` | NKE/NetworkKernelExtension/NkeIOUserClient.cpp:724-748 | in every run a registration goes through exactly if no unregistration was pending at its look and no client was registered at its compare-and-swap |
| `ClientRef.UnregisterIff` | NKE/NetworkKernelExtension/NkeIOUserClient.cpp:750-770 | in every run an unregistration removes a registration exactly if userClient pointed to its client at its look and does at its compare-and-swap |
| `ClientRef.ReferencesStayPositive` | NKE/NetworkKernelExtension/NkeIOUserClient.cpp:724-791 | no client is released more often than it was retained |
| `ClientRef.DrainWaitsForInvocations` | NKE/NetworkKernelExtension/NkeIOUserClient.cpp:774-786 | a waiting unregistration can go on exactly if no thread is inside |
| `ClientRef.UnregistrationCompletes` | NKE/NetworkKernelExtension/NkeIOUserClient.cpp:774-791 | from every reachable state a waiting unregistration can come to its end and release the client: the threads inside need only steps of their own |
| `ClientRef.PendingIff` | NKE/NetworkKernelExtension/NkeIOUserClient.cpp:750-836 | as long as unregistrations do not overlap, the flag the assertion of a failing getter looks at is set exactly while one is past setting it and has not ended |
| `ClientRef.NoUnregistrationPending` | NKE/NetworkKernelExtension/NkeIOUserClient.cpp:815-836 | a run in which the assertion of a failing getter does not hold |
| `ClientRef.OverlappingUnregistrations` | NKE/NetworkKernelExtension/NkeIOUserClient.cpp:766-836 | a run in which the loser of two unregistrations takes the flag back while the winner waits and a getter backs out |
| `DetachingLock.InvKeeps` | NKE/NetworkKernelExtension/NkeSocketObject.cpp:2407-2466 | every atomic step keeps the count, and a count of zero stays zero |
| `DetachingLock.CountIsHolders` | NKE/NetworkKernelExtension/NkeSocketObject.cpp:2407-2436 | lockCount is the number of holders plus one while the socket is not detached |
| `DetachingLock.SwapIff` | NKE/NetworkKernelExtension/NkeSocketObject.cpp:2407-2419 | in every run an acquisition is refused exactly if at its last look the socket was being detached and nobody held the lock; it succeeds exactly if not and the count has not changed; else it looks again |
| `DetachingLock.RemovalIsFinal` | NKE/NetworkKernelExtension/NkeSocketObject.cpp:2440-2466 | once acquireDetachingLockForRemoval has returned nobody holds the lock, then or ever after |
| `DetachingLock.RemovalWaitsForHolders` | NKE/NetworkKernelExtension/NkeSocketObject.cpp:2440-2466 | the remover is let through exactly when no holder is left |
| `DetachingLock.RemovalCompletes` | NKE/NetworkKernelExtension/NkeSocketObject.cpp:2423-2466 | from every reachable state a waiting removal comes to its end once the holders have released the lock; nobody else has to do anything |
| `DetachingLock.AcquireAlone` | NKE/NetworkKernelExtension/NkeSocketObject.cpp:2407-2436 | an undisturbed acquisition succeeds exactly if the count is not zero, and the release undoes it |

## Left out

- SharedQueue.IODataQueue.EnqueueWithBarrier: requires that queue size plus entry size stay below 2^32; the source does not check this, and `DataQueue.Place32AgreesIff` says that nothing weaker will do.
- SocketFilterBuffers.NkeSocketFilter.FillBuffers: one thread alone on the pool; `PoolSteps` has any number of threads, on values.
- SocketFilterBuffers.NkeSocketFilter.CopyAndReleaseOnError: both releases at once, nobody else on the pool; `PoolSteps.LateReleaseIsSafeIff` has any interleaving.
- PoolSteps.InvKeeps: acquire and release are single steps; when that is justified is `FreeBuffers.CasIsSafeIff`. The client gives back only what it has.
- SocketLifetime.InvKeeps: that the detaching lock has been acquired is a step with no condition there; the lock is a module of its own.
- SocketSystem.InsertIsExclusive: the stack serializes the attach and detach callbacks of one socket.
- SocketSystem.NobodyIsStranded: is a safety statement; that some thread calls `DeliverWaitingNotifications` again is up to the client's releases.
- Delivery.Reporter.DeliverWaitingNotifications: other threads queue nothing meanwhile; with arrivals only safety is stated, in `SocketSystem`.
- ClientRef.HeldClientIsAlive: a registering caller has a reference of its own until `registerUserClient` has returned.
- ClientRef.PendingIff: for unregistrations that do not overlap; for others there is the run that fails.
- FltData and FltDetach: the stack detaches a socket only when no data callback is under way on it.
- The step machines (`QueueSteps`, `PoolSteps`, `SocketRuns`, `SocketLifetime`, `SocketSystem`, `ClientRef`, `DetachingLock`) are on values: a method
  is sequential, and these properties are about other threads coming between any two steps. Linked lists are sequences.
- A NULL queue pointer in `IODataQueueDequeue` and NULL mbufs.
- Weak memory ordering, and wrap-around of `dataIndex` and of socket sequence numbers.
- The one-second timeouts of `msleep`: a wait is a step that is enabled when its condition holds.
- Chains of mbufs, tags and `prependMbufHdr`: an mbuf is a byte sequence with a header length, and packets arrive untagged.
- `sock_inject_data_in`, `sock_inject_data_out`, `sock_setsockopt`: any result; the receive window is not modelled.
- The `error` of an injection round that drops its packet is not initialised in the source; the model lets it have any value.
- The capturing mode "nothing" and `checkForInjectionCompletion` without waiting, which only ever answers false.
- Driver and client lifecycle, ports, memory mapping, addresses, event logging, debug-only fields and counters.
- The size of a queue entry header (four bytes) comes from an IOKit header, which is not part of the repository.
- `acquireForIO`, `releaseFromIO`, `read` and `write` of `NkeDataBuffer`: the first two only flip a flag, the others are not called.

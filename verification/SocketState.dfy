/** The state of one socket object and its critical sections, each as a function of the state. */
module SocketState {
  import opened PendingQueue

  /** The fields the lock protects, and the local list of whoever holds the injection mutex. */
  datatype Socket = Socket(
    pendingQueue: seq<Packet>,
    packetsWaitingForReporting: int,
    numberOfPendingInPackets: int,
    totalPendingBytesIn: int,
    numberOfPendingOutPackets: int,
    totalPendingBytesOut: int,
    pendingDataNextIndex: nat,
    disconnecting: bool,
    injectionMutexHeld: bool,
    packetsToInject: seq<Packet>)

  function Packets(s: Socket, inbound: bool): int {
    if inbound then s.numberOfPendingInPackets else s.numberOfPendingOutPackets
  }

  function PendingBytes(s: Socket, inbound: bool): int {
    if inbound then s.totalPendingBytesIn else s.totalPendingBytesOut
  }

  /** The paired atomic additions to the counters of one direction. */
  function Account(s: Socket, inbound: bool, packets: int, bytes: int): Socket {
    if inbound
    then s.(numberOfPendingInPackets := s.numberOfPendingInPackets + packets, totalPendingBytesIn := s.totalPendingBytesIn + bytes)
    else s.(numberOfPendingOutPackets := s.numberOfPendingOutPackets + packets, totalPendingBytesOut := s.totalPendingBytesOut + bytes)
  }

  /** allocatePkt: the packet exists and is counted before it is queued. */
  function NewPacket(s: Socket, inbound: bool, dataLength: nat, totalbytes: nat, now: nat): Packet {
    Packet(s.pendingDataNextIndex, dataLength, totalbytes, now, inbound, false, false, false, false, false)
  }

  function AfterAllocate(s: Socket, inbound: bool, totalbytes: nat): Socket {
    Account(s, inbound, 1, totalbytes).(pendingDataNextIndex := s.pendingDataNextIndex + 1)
  }

  /** A packet has to wait for its report if the buffers failed or if another packet is waiting already. */
  predicate Defers(s: Socket, copyFailed: bool) {
    copyFailed || s.packetsWaitingForReporting != 0
  }

  function Queued(s: Socket, p: Packet, copyFailed: bool): Packet {
    if Defers(s, copyFailed) then p.(needToBeReported := true, waitEntry := !p.dataInbound) else p
  }

  /** The locked part of FltData. */
  function AfterEnqueue(s: Socket, p: Packet, copyFailed: bool): Socket {
    s.(pendingQueue := s.pendingQueue + [Queued(s, p, copyFailed)],
       packetsWaitingForReporting := s.packetsWaitingForReporting + if Defers(s, copyFailed) then 1 else 0)
  }

  /** The locked part of DeliverWaitingNotifications for this socket. */
  function AfterDeliver(s: Socket, attempts: seq<Attempt>): Socket
    requires |attempts| >= |s.pendingQueue|
  {
    var n := Done(s.pendingQueue, attempts);
    s.(pendingQueue := AfterDelivery(s.pendingQueue, attempts),
       packetsWaitingForReporting := s.packetsWaitingForReporting - Waiting(s.pendingQueue[..n]))
  }

  function AfterProperty(s: Socket, index: nat, allow: bool): Socket {
    s.(pendingQueue := AfterVerdict(s.pendingQueue, index, allow))
  }

  /** The first phase of reinjectDeferredData, under both locks. */
  function AfterTake(s: Socket, t: DataType, clock: seq<nat>): Socket
    requires |clock| >= |s.pendingQueue|
  {
    s.(injectionMutexHeld := true,
       packetsToInject := Collected(s.pendingQueue, t, clock),
       pendingQueue := AfterCollect(s.pendingQueue, t, clock))
  }

  /** One round of its second phase. */
  function AfterInject(s: Socket): Socket
    requires s.packetsToInject != []
  {
    var p := s.packetsToInject[0];
    Account(s, p.dataInbound, -1, -(p.totalbytes as int)).(packetsToInject := s.packetsToInject[1..])
  }

  /** purgePendingQueue. */
  function AfterPurge(s: Socket, t: DataType): Socket {
    var purged := Select(s.pendingQueue, t);
    Account(Account(s, true, -|Tickets(purged, true)|, -Bytes(Tickets(purged, true))),
            false, -|Tickets(purged, false)|, -Bytes(Tickets(purged, false))).(
      pendingQueue := Without(s.pendingQueue, t),
      packetsWaitingForReporting := s.packetsWaitingForReporting - Waiting(purged))
  }

  /** What becomes of a packet taken out of the queue. */
  datatype Fate = Injected | Rejected | Dropped | Purged

  /** freedByFilter: this filter calls mbuf_freem; otherwise the stack has taken the buffer. */
  datatype Record = Record(ticket: Ticket, fate: Fate, freedByFilter: bool)

  /** The outcome of one injection; `error` is the injection's result, or whatever an earlier round left behind
      when there is no injection. */
  function Outcome(p: Packet, disconnecting: bool, error: bool): Record {
    var dropped := disconnecting || !p.allowData;
    Record(TicketOf(p),
           if dropped then Dropped else if error then Rejected else Injected,
           dropped || (error && p.dataInbound))
  }

  function PurgeRecords(q: seq<Packet>): (r: seq<Record>)
    ensures |r| == |q| && forall i :: 0 <= i < |q| ==> r[i] == Record(TicketOf(q[i]), Purged, true)
  {
    seq(|q|, i requires 0 <= i < |q| => Record(TicketOf(q[i]), Purged, true))
  }
}

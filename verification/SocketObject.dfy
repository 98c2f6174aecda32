/** The socket object itself: its critical sections as loops over the pending queue, updating it in place. */
module SocketObject {
  import opened PendingQueue
  import opened SocketState

  // ---------------------------------------------------------------- one more packet at the end of a prefix

  lemma Snoc(q: seq<Packet>, k: nat)
    requires k < |q|
    ensures q[..k + 1] == q[..k] + [q[k]]
    ensures Waiting(q[..k + 1]) == Waiting(q[..k]) + if q[k].needToBeReported then 1 else 0
    ensures Waiters(q[..k + 1]) == Waiters(q[..k]) + if q[k].waitEntry then [q[k].dataIndex] else []
  {
    assert q[..k + 1] == q[..k] + [q[k]];
    WaitingConcat(q[..k], [q[k]]);
    assert Waiters([q[k]]) == (if q[k].waitEntry then [q[k].dataIndex] else []) + Waiters([]);
  }

  lemma {:induction false} SelectConcat(a: seq<Packet>, b: seq<Packet>, t: DataType)
    ensures Select(a + b, t) == Select(a, t) + Select(b, t)
  {
    if a == [] {
      assert a + b == b;
    } else {
      var first := if Concerns(t, a[0].dataInbound) then [a[0]] else [];
      assert (a + b)[0] == a[0] && (a + b)[1..] == a[1..] + b;
      SelectConcat(a[1..], b, t);
      assert first + (Select(a[1..], t) + Select(b, t)) == (first + Select(a[1..], t)) + Select(b, t);
    }
  }

  lemma {:induction false} WithoutConcat(a: seq<Packet>, b: seq<Packet>, t: DataType)
    ensures Without(a + b, t) == Without(a, t) + Without(b, t)
  {
    if a == [] {
      assert a + b == b;
    } else {
      var first := if Concerns(t, a[0].dataInbound) then [] else [a[0]];
      assert (a + b)[0] == a[0] && (a + b)[1..] == a[1..] + b;
      WithoutConcat(a[1..], b, t);
      assert first + (Without(a[1..], t) + Without(b, t)) == (first + Without(a[1..], t)) + Without(b, t);
    }
  }

  lemma SplitSnoc(q: seq<Packet>, k: nat, t: DataType)
    requires k < |q|
    ensures Select(q[..k + 1], t) == Select(q[..k], t) + if Concerns(t, q[k].dataInbound) then [q[k]] else []
    ensures Without(q[..k + 1], t) == Without(q[..k], t) + if Concerns(t, q[k].dataInbound) then [] else [q[k]]
  {
    assert q[..k + 1] == q[..k] + [q[k]];
    SelectConcat(q[..k], [q[k]], t);
    WithoutConcat(q[..k], [q[k]], t);
    assert [q[k]][1..] == [];
  }

  lemma TicketsSnoc(q: seq<Packet>, p: Packet, d: bool)
    ensures |Tickets(q + [p], d)| == |Tickets(q, d)| + if p.dataInbound == d then 1 else 0
    ensures Bytes(Tickets(q + [p], d)) == Bytes(Tickets(q, d)) + if p.dataInbound == d then p.totalbytes else 0
  {
    TicketsConcat(q, [p], d);
    assert [p][1..] == [] && [TicketOf(p)][1..] == [];
    assert Tickets([p], d) == if p.dataInbound == d then [TicketOf(p)] else [];
    BytesConcat(Tickets(q, d), Tickets([p], d));
  }

  // ---------------------------------------------------------------- loops that take packets out of the queue

  // TAILQ_REMOVE of the element at a position
  function Unlinked(q: seq<Packet>, at: nat): seq<Packet>
    requires at < |q|
  {
    q[..at] + q[at + 1..]
  }

  /** Once the first k packets have been examined: the packets passed over, and what is left of the queue. */
  function Passed(q: seq<Packet>, k: nat, t: DataType): nat
    requires k <= |q|
  {
    |Without(q[..k], t)|
  }

  function Rest(q: seq<Packet>, k: nat, t: DataType): (r: seq<Packet>)
    requires k <= |q|
    ensures |r| == Passed(q, k, t) + |q| - k
  {
    Without(q[..k], t) + q[k..]
  }

  function Ready(q: seq<Packet>, k: nat, t: DataType, clock: seq<nat>): seq<Packet>
    requires k <= |q| <= |clock|
  {
    Select(LatchedAll(q[..k], clock), t)
  }

  function Woken(q: seq<Packet>, k: nat, t: DataType): seq<nat>
    requires k <= |q|
  {
    Waiters(Select(q[..k], t))
  }

  function Freed(s: Socket, purged: seq<Packet>): Socket {
    Account(Account(s, true, -|Tickets(purged, true)|, -Bytes(Tickets(purged, true))),
            false, -|Tickets(purged, false)|, -Bytes(Tickets(purged, false))).(
      packetsWaitingForReporting := s.packetsWaitingForReporting - Waiting(purged))
  }

  /** The counters once a purge has come past the first k packets. */
  function Gone(s: Socket, k: nat, t: DataType): Socket
    requires k <= |s.pendingQueue|
  {
    Freed(s, Select(s.pendingQueue[..k], t))
  }

  // the two guards of the source say whether a packet is of the wrong direction
  lemma Guards(p: Packet, t: DataType)
    ensures Concerns(t, p.dataInbound) <==> !((p.dataInbound && t != All && t != Inbound) || (!p.dataInbound && t != All && t != Outbound))
  {
  }

  // the kept packets, the one examined and the rest
  lemma Examined(kept: seq<Packet>, q: seq<Packet>, k: nat)
    requires k < |q|
    ensures var l := kept + q[k..];
            && |kept| < |l| && l[|kept|] == q[k]
            && Unlinked(l, |kept|) == kept + q[k + 1..]
            && l == (kept + [q[k]]) + q[k + 1..]
  {
    assert q[k..] == [q[k]] + q[k + 1..];
    assert kept + ([q[k]] + q[k + 1..]) == (kept + [q[k]]) + q[k + 1..];
    var l := kept + q[k..];
    assert l[..|kept|] == kept && l[|kept| + 1..] == q[k + 1..];
  }

  lemma RestStep(q: seq<Packet>, k: nat, t: DataType)
    requires k < |q|
    ensures var at, rest := Passed(q, k, t), Rest(q, k, t);
            && at < |rest| && rest[at] == q[k]
            && (if Concerns(t, q[k].dataInbound)
                then Passed(q, k + 1, t) == at && Rest(q, k + 1, t) == Unlinked(rest, at)
                else Passed(q, k + 1, t) == at + 1 && Rest(q, k + 1, t) == rest)
  {
    hide Without;
    hide Unlinked;
    var kept := Without(q[..k], t);
    SplitSnoc(q, k, t);
    Examined(kept, q, k);
    assert !Concerns(t, q[k].dataInbound) ==> Without(q[..k + 1], t) == kept + [q[k]];
    assert Concerns(t, q[k].dataInbound) ==> Without(q[..k + 1], t) == kept + [] == kept;
  }

  lemma NothingTaken(q: seq<Packet>, t: DataType, clock: seq<nat>)
    requires |clock| >= |q|
    ensures Passed(q, 0, t) == 0 && Rest(q, 0, t) == q && Ready(q, 0, t, clock) == []
  {
  }

  lemma TakeStep(q: seq<Packet>, k: nat, t: DataType, clock: seq<nat>)
    requires k < |q| <= |clock|
    ensures var p := q[k];
            && Latched(p, clock[k]) == p.(deadlineTimerExpired := p.deadlineTimerExpired || clock[k] > p.allocationTime + DEADLINE)
            && (Blocks(p, t, clock[k]) <==>
                  Concerns(t, p.dataInbound) && (p.needToBeReported || (!Latched(p, clock[k]).deadlineTimerExpired && !p.responseReceived)))
            && Ready(q, k + 1, t, clock) == Ready(q, k, t, clock) + if Concerns(t, p.dataInbound) then [Latched(p, clock[k])] else []
  {
    hide Select;
    hide LatchedAll;
    LatchedSnoc(q, clock, k, t);
  }

  // the taking loop ends where Reach says
  lemma AllTaken(q: seq<Packet>, n: nat, t: DataType, clock: seq<nat>)
    requires n <= |q| <= |clock| && forall j :: 0 <= j < n ==> !Blocks(q[j], t, clock[j])
    requires n == |q| || Blocks(q[n], t, clock[n])
    ensures Collected(q, t, clock) == Ready(q, n, t, clock)
    ensures AfterCollect(q, t, clock) == Rest(q, n, t)
  {
    hide Blocks;
    assert n == Reach(q, t, clock);
  }

  lemma NothingGone(s: Socket, t: DataType)
    ensures Passed(s.pendingQueue, 0, t) == 0 && Rest(s.pendingQueue, 0, t) == s.pendingQueue
    ensures Gone(s, 0, t) == s && Woken(s.pendingQueue, 0, t) == []
  {
  }

  // one more packet freed
  lemma FreedSnoc(s: Socket, a: seq<Packet>, p: Packet)
    ensures Freed(s, a + [p])
            == Account(Freed(s, a), p.dataInbound, -1, -(p.totalbytes as int)).(
                 packetsWaitingForReporting := Freed(s, a).packetsWaitingForReporting - if p.needToBeReported then 1 else 0)
    ensures Waiters(a + [p]) == Waiters(a) + if p.waitEntry then [p.dataIndex] else []
  {
    hide Tickets;
    hide Bytes;
    hide Waiting;
    hide Waiters;
    var b := a + [p];
    assert b[..|a|] == a && b[..|a| + 1] == b && b[|a|] == p;
    Snoc(b, |a|);
    TicketsSnoc(a, p, true);
    TicketsSnoc(a, p, false);
  }

  lemma PurgeStep(s: Socket, k: nat, t: DataType)
    requires k < |s.pendingQueue|
    ensures var q, p := s.pendingQueue, s.pendingQueue[k];
            if Concerns(t, p.dataInbound) then
              && Gone(s, k + 1, t) == Account(Gone(s, k, t), p.dataInbound, -1, -(p.totalbytes as int)).(
                   packetsWaitingForReporting := Gone(s, k, t).packetsWaitingForReporting - if p.needToBeReported then 1 else 0)
              && Woken(q, k + 1, t) == Woken(q, k, t) + (if p.waitEntry then [p.dataIndex] else [])
            else Gone(s, k + 1, t) == Gone(s, k, t) && Woken(q, k + 1, t) == Woken(q, k, t)
  {
    hide Select;
    hide Without;
    hide Freed;
    hide Waiters;
    hide Account;
    SplitSnoc(s.pendingQueue, k, t);
    assert Select(s.pendingQueue[..k], t) + [] == Select(s.pendingQueue[..k], t);
    FreedSnoc(s, Select(s.pendingQueue[..k], t), s.pendingQueue[k]);
  }

  lemma AllGone(s: Socket, t: DataType)
    ensures var q := s.pendingQueue;
            && Woken(q, |q|, t) == Waiters(Select(q, t))
            && AfterPurge(s, t) == Gone(s, |q|, t).(pendingQueue := Rest(q, |q|, t))
  {
    hide Select;
    hide Without;
    hide Waiters;
    hide Tickets;
    assert s.pendingQueue[..|s.pendingQueue|] == s.pendingQueue;
  }

  // what the counters come to
  lemma PurgeCounts(s: Socket, t: DataType)
    ensures var s' := AfterPurge(s, t);
            forall d ::
              && Tickets(s'.pendingQueue, d) == (if t == All || d == (t == Inbound) then [] else Tickets(s.pendingQueue, d))
              && Packets(s', d) == Packets(s, d) - (|Tickets(s.pendingQueue, d)| - |Tickets(s'.pendingQueue, d)|)
              && PendingBytes(s', d) == PendingBytes(s, d) - (Bytes(Tickets(s.pendingQueue, d)) - Bytes(Tickets(s'.pendingQueue, d)))
  {
    SplitTickets(s.pendingQueue, t, true);
    SplitTickets(s.pendingQueue, t, false);
    hide Tickets;
    hide Select;
    hide Without;
  }

  /** The state after the whole second phase of a reinjection. */
  function AfterInjections(s: Socket): Socket
    decreases |s.packetsToInject|
  {
    if s.packetsToInject == [] then s.(injectionMutexHeld := false) else AfterInjections(AfterInject(s))
  }

  class NkeSocketObject {
    var pendingQueue: seq<Packet>
    var packetsWaitingForReporting: int
    var numberOfPendingInPackets: int
    var totalPendingBytesIn: int
    var numberOfPendingOutPackets: int
    var totalPendingBytesOut: int
    var pendingDataNextIndex: nat
    var disconnecting: bool
    var injectionMutexHeld: bool
    var packetsToInject: seq<Packet>

    function Snapshot(): Socket
      reads this
    {
      Socket(pendingQueue, packetsWaitingForReporting, numberOfPendingInPackets, totalPendingBytesIn,
             numberOfPendingOutPackets, totalPendingBytesOut, pendingDataNextIndex, disconnecting, injectionMutexHeld, packetsToInject)
    }

    constructor ()
      ensures Snapshot() == Socket([], 0, 0, 0, 0, 0, 0, false, false, [])
    {
      pendingQueue, packetsToInject := [], [];
      packetsWaitingForReporting, numberOfPendingInPackets, totalPendingBytesIn := 0, 0, 0;
      numberOfPendingOutPackets, totalPendingBytesOut, pendingDataNextIndex := 0, 0, 0;
      disconnecting, injectionMutexHeld := false, false;
    }

    // OSIncrementAtomic, OSDecrementAtomic and OSAddAtomic on the counters of one direction
    method Count(inbound: bool, packets: int, bytes: int)
      modifies this`numberOfPendingInPackets, this`totalPendingBytesIn, this`numberOfPendingOutPackets, this`totalPendingBytesOut
      ensures Snapshot() == Account(old(Snapshot()), inbound, packets, bytes)
    {
      if inbound {
        numberOfPendingInPackets := numberOfPendingInPackets + packets;
        totalPendingBytesIn := totalPendingBytesIn + bytes;
      } else {
        numberOfPendingOutPackets := numberOfPendingOutPackets + packets;
        totalPendingBytesOut := totalPendingBytesOut + bytes;
      }
    }

    method AllocatePkt(inbound: bool, dataLength: nat, totalbytes: nat, now: nat) returns (pkt: Packet)
      modifies this
      ensures pkt == NewPacket(old(Snapshot()), inbound, dataLength, totalbytes, now)
      ensures Snapshot() == AfterAllocate(old(Snapshot()), inbound, totalbytes)
    {
      Count(inbound, 1, totalbytes);
      pkt := Packet(pendingDataNextIndex, dataLength, totalbytes, now, inbound, false, false, false, false, false);
      pendingDataNextIndex := pendingDataNextIndex + 1;
    }

    /** Queues the packet, and tells the caller whether to notify the client, to block, and to list the socket. */
    method EnqueuePkt(pkt: Packet, copyFailed: bool) returns (sendNotification: bool, wait: bool, list: bool)
      modifies this`pendingQueue, this`packetsWaitingForReporting
      ensures Snapshot() == AfterEnqueue(old(Snapshot()), pkt, copyFailed)
      ensures sendNotification <==> !copyFailed && old(packetsWaitingForReporting) == 0
      ensures pendingQueue == old(pendingQueue) + [if sendNotification then pkt else pkt.(needToBeReported := true, waitEntry := wait)]
      ensures packetsWaitingForReporting == old(packetsWaitingForReporting) + if sendNotification then 0 else 1
      ensures wait <==> !sendNotification && !pkt.dataInbound
      ensures list <==> !sendNotification && old(packetsWaitingForReporting) == 0
    {
      sendNotification, wait, list := true, false, false;
      pendingQueue := pendingQueue + [pkt];
      if copyFailed || packetsWaitingForReporting != 0 {
        var queued := pkt;
        sendNotification := false;
        if !pkt.dataInbound {
          queued := queued.(waitEntry := true);
          wait := true;
        } else {
          queued := queued.(waitEntry := false);
        }
        queued := queued.(needToBeReported := true);
        pendingQueue := pendingQueue[|pendingQueue| - 1 := queued];
        list := packetsWaitingForReporting == 0;
        packetsWaitingForReporting := packetsWaitingForReporting + 1;
      }
      assert pendingQueue == old(pendingQueue) + [Queued(old(Snapshot()), pkt, copyFailed)];
    }

    /** One delivery pass: stops at the first failure of a packet that is not past its deadline. */
    method DeliverPendingPackets(attempts: seq<Attempt>) returns (reinsertInList: bool, signalled: seq<nat>)
      requires |attempts| == |pendingQueue| && AllCoherent(pendingQueue)
      modifies this`pendingQueue, this`packetsWaitingForReporting
      ensures Snapshot() == AfterDeliver(old(Snapshot()), attempts)
      ensures signalled == Waiters(old(pendingQueue)[..Done(old(pendingQueue), attempts)])
      ensures reinsertInList <==> Done(old(pendingQueue), attempts) < |old(pendingQueue)|
    {
      hide Waiting;
      hide Waiters;
      hide Done;
      ghost var q := pendingQueue;
      ghost var counted := packetsWaitingForReporting;
      reinsertInList, signalled := false, [];
      var i := 0;
      NoneWaiting(q[..0]);
      while i < |pendingQueue|
        invariant i <= |pendingQueue| == |q|
        invariant forall k :: 0 <= k < i ==> !Stops(q[k], attempts[k]) && pendingQueue[k] == Delivered(q[k], attempts[k])
        invariant forall k :: i <= k < |q| ==> pendingQueue[k] == q[k]
        invariant packetsWaitingForReporting == counted - Waiting(q[..i]) && signalled == Waiters(q[..i])
        invariant !reinsertInList
      {
        var pkt := pendingQueue[i];
        Snoc(q, i);
        if !pkt.needToBeReported {
          assert pkt == q[i] && q[i] in q && Coherent(q[i]);
          i := i + 1;
          continue;
        }
        if attempts[i].failed {
          if pkt.deadlineTimerExpired || attempts[i].now > pkt.allocationTime + DEADLINE {
            pkt := pkt.(deadlineTimerExpired := true, allowData := false);
          } else {
            reinsertInList := true;
            break;
          }
        }
        pkt := pkt.(needToBeReported := false);
        packetsWaitingForReporting := packetsWaitingForReporting - 1;
        if pkt.waitEntry {
          signalled := signalled + [pkt.dataIndex];
        }
        pkt := pkt.(waitEntry := false);
        pendingQueue := pendingQueue[i := pkt];
        i := i + 1;
      }
      assert i == Done(q, attempts);
      assert pendingQueue == AfterDelivery(q, attempts);
    }

    /** A verdict from the client for one packet. */
    method SetDeferredDataProperties(index: nat, allow: bool)
      modifies this`pendingQueue
      ensures Snapshot() == AfterProperty(old(Snapshot()), index, allow)
    {
      hide AfterVerdict;
      ghost var q := pendingQueue;
      var i := 0;
      while i < |pendingQueue|
        invariant i <= |q| && pendingQueue == q
        invariant forall k :: 0 <= k < i ==> !q[k].needToBeReported && q[k].dataIndex != index
      {
        var pkt := pendingQueue[i];
        if pkt.needToBeReported {
          break;
        }
        if pkt.dataIndex != index {
          i := i + 1;
          continue;
        }
        pendingQueue := pendingQueue[i := pkt.(allowData := allow, responseReceived := true)];
        break;
      }
      VerdictAt(q, i, index, allow);
    }

    /** First phase of a reinjection: unlinks the ready packets, in order, onto the local list. */
    method TakeDeferredData(t: DataType, clock: seq<nat>)
      requires |clock| == |pendingQueue| && !injectionMutexHeld && packetsToInject == []
      modifies this`pendingQueue, this`packetsToInject, this`injectionMutexHeld
      ensures Snapshot() == AfterTake(old(Snapshot()), t, clock)
    {
      hide Rest;
      hide Passed;
      hide Ready;
      hide Unlinked;
      hide Concerns;
      hide Blocks;
      hide Latched;
      hide Collected;
      hide AfterCollect;
      ghost var q := pendingQueue;
      injectionMutexHeld := true;
      var at, examined := 0, 0;
      NothingTaken(q, t, clock);
      while at < |pendingQueue|
        invariant injectionMutexHeld && examined <= |q| && at == Passed(q, examined, t)
        invariant pendingQueue == Rest(q, examined, t)
        invariant packetsToInject == Ready(q, examined, t, clock)
        invariant forall j :: 0 <= j < examined ==> !Blocks(q[j], t, clock[j])
        decreases |q| - examined
      {
        var pkt := pendingQueue[at];
        RestStep(q, examined, t);
        Guards(pkt, t);
        TakeStep(q, examined, t, clock);
        if (pkt.dataInbound && t != All && t != Inbound) || (!pkt.dataInbound && t != All && t != Outbound) {
          at := at + 1;
        } else {
          if pkt.needToBeReported {
            break;
          }
          pkt := pkt.(deadlineTimerExpired := pkt.deadlineTimerExpired || clock[examined] > pkt.allocationTime + DEADLINE);
          if !pkt.deadlineTimerExpired && !pkt.responseReceived {
            break;
          }
          pendingQueue := Unlinked(pendingQueue, at);
          packetsToInject := packetsToInject + [pkt];
        }
        examined := examined + 1;
      }
      AllTaken(q, examined, t, clock);
    }

    /** Second phase: injects or drops the packets of the local list one by one, and says who frees each buffer. */
    method InjectPackets(errors: seq<bool>) returns (records: seq<Record>)
      requires injectionMutexHeld && |errors| == |packetsToInject|
      modifies this
      ensures Snapshot() == AfterInjections(old(Snapshot()))
      ensures |records| == |errors|
      ensures forall k :: 0 <= k < |records| ==> records[k] == Outcome(old(packetsToInject)[k], old(disconnecting), errors[k])
      ensures forall k :: 0 <= k < |records| ==>
                var p := old(packetsToInject)[k];
                var dropped := old(disconnecting) || !p.allowData;
                && records[k].ticket == TicketOf(p)
                && (records[k].fate == Dropped <==> dropped)
                && (records[k].fate == Rejected <==> !dropped && errors[k])
                && (records[k].fate == Injected <==> !dropped && !errors[k])
                && (records[k].freedByFilter <==> dropped || (errors[k] && p.dataInbound))
    {
      hide AfterInjections;
      ghost var s, q := Snapshot(), packetsToInject;
      records := [];
      while packetsToInject != []
        invariant |records| + |packetsToInject| == |q| && packetsToInject == q[|records|..]
        invariant AfterInjections(Snapshot()) == AfterInjections(s) && disconnecting == s.disconnecting
        invariant forall k :: 0 <= k < |records| ==> records[k] == Outcome(q[k], s.disconnecting, errors[k])
        decreases |packetsToInject|
      {
        InjectionsUnfold(Snapshot());
        var pkt, error := packetsToInject[0], errors[|records|];
        var freeMbufs, fate := false, Injected;
        if disconnecting || !pkt.allowData {
          freeMbufs, fate := true, Dropped;
        } else if error {
          fate := Rejected;
        }
        if error && pkt.dataInbound {
          freeMbufs := true;
        }
        Count(pkt.dataInbound, -1, -(pkt.totalbytes as int));
        packetsToInject := packetsToInject[1..];
        records := records + [Record(TicketOf(pkt), fate, freeMbufs)];
      }
      InjectionsUnfold(Snapshot());
      injectionMutexHeld := false;
    }

    /** purgePendingQueue: wakes the senders of the purged packets and frees the packets. */
    method PurgePendingQueue(t: DataType) returns (signalled: seq<nat>)
      requires !injectionMutexHeld
      modifies this`pendingQueue, this`packetsWaitingForReporting, this`numberOfPendingInPackets, this`totalPendingBytesIn,
               this`numberOfPendingOutPackets, this`totalPendingBytesOut
      ensures Snapshot() == AfterPurge(old(Snapshot()), t)
      ensures signalled == Waiters(Select(old(pendingQueue), t))
      ensures forall d :: Tickets(pendingQueue, d) == if t == All || d == (t == Inbound) then [] else Tickets(old(pendingQueue), d)
      ensures forall d ::
                && Packets(Snapshot(), d) == old(Packets(Snapshot(), d)) - (|Tickets(old(pendingQueue), d)| - |Tickets(pendingQueue, d)|)
                && PendingBytes(Snapshot(), d)
                   == old(PendingBytes(Snapshot(), d)) - (Bytes(Tickets(old(pendingQueue), d)) - Bytes(Tickets(pendingQueue, d)))
    {
      hide Rest;
      hide Passed;
      hide Gone;
      hide Woken;
      hide Unlinked;
      hide Concerns;
      hide AfterPurge;
      hide Waiters;
      hide Select;
      ghost var s, q := Snapshot(), pendingQueue;
      ghost var k := 0;
      var at := 0;
      signalled := [];
      NothingGone(s, t);
      while at < |pendingQueue|
        invariant k <= |q| && at == Passed(q, k, t)
        invariant pendingQueue == Rest(q, k, t)
        invariant signalled == Woken(q, k, t)
        invariant Snapshot() == Gone(s, k, t).(pendingQueue := pendingQueue)
        decreases |q| - k
      {
        var pkt := pendingQueue[at];
        RestStep(q, k, t);
        Guards(pkt, t);
        PurgeStep(s, k, t);
        if (pkt.dataInbound && t != All && t != Inbound) || (!pkt.dataInbound && t != All && t != Outbound) {
          at := at + 1;
        } else {
          if pkt.waitEntry {
            signalled := signalled + [pkt.dataIndex];
          }
          if pkt.needToBeReported {
            packetsWaitingForReporting := packetsWaitingForReporting - 1;
          }
          Count(pkt.dataInbound, -1, -(pkt.totalbytes as int));
          pendingQueue := Unlinked(pendingQueue, at);
        }
        k := k + 1;
      }
      AllGone(s, t);
      PurgeCounts(s, t);
    }

    /** The debug check of the queue: it passes exactly if the queue is a reported prefix and an unreported suffix. */
    method VerifyPendingPacketsQueue() returns (ok: bool)
      ensures ok <==> Shape(pendingQueue)
    {
      ok := true;
      var needToBeReportedWasFound := false;
      var i := 0;
      while i < |pendingQueue|
        invariant i <= |pendingQueue|
        invariant needToBeReportedWasFound <==> i > 0 && pendingQueue[i - 1].needToBeReported
        invariant ok <==> Shape(pendingQueue[..i])
      {
        var pkt := pendingQueue[i];
        assert pendingQueue[..i + 1] == pendingQueue[..i] + [pkt];
        ShapeSnoc(pendingQueue[..i], pkt);
        if needToBeReportedWasFound && !pkt.needToBeReported {
          ok := false;
        }
        needToBeReportedWasFound := pkt.needToBeReported;
        i := i + 1;
      }
      assert pendingQueue[..i] == pendingQueue;
    }
  }

  // where the search for the packet of a verdict ends
  lemma {:induction false} VerdictAt(q: seq<Packet>, i: nat, index: nat, allow: bool)
    requires i <= |q| && forall k :: 0 <= k < i ==> !q[k].needToBeReported && q[k].dataIndex != index
    ensures i == |q| || q[i].needToBeReported ==> AfterVerdict(q, index, allow) == q
    ensures i < |q| && !q[i].needToBeReported && q[i].dataIndex == index ==>
              AfterVerdict(q, index, allow) == q[i := q[i].(allowData := allow, responseReceived := true)]
  {
    if i > 0 {
      VerdictAt(q[1..], i - 1, index, allow);
      assert q == [q[0]] + q[1..];
    }
  }

  lemma LatchedSnoc(q: seq<Packet>, clock: seq<nat>, k: nat, t: DataType)
    requires k < |q| <= |clock|
    ensures Select(LatchedAll(q[..k + 1], clock), t)
            == Select(LatchedAll(q[..k], clock), t) + if Concerns(t, q[k].dataInbound) then [Latched(q[k], clock[k])] else []
  {
    hide Select;
    var l := LatchedAll(q[..k + 1], clock);
    assert l[..k] == LatchedAll(q[..k], clock) && l[..k + 1] == l;
    SplitSnoc(l, k, t);
  }

  lemma InjectionsUnfold(s: Socket)
    ensures AfterInjections(s) == if s.packetsToInject == [] then s.(injectionMutexHeld := false) else AfterInjections(AfterInject(s))
  {
  }

  lemma ShapeSnoc(q: seq<Packet>, p: Packet)
    ensures Shape(q + [p]) <==> Shape(q) && (q != [] && q[|q| - 1].needToBeReported ==> p.needToBeReported)
  {
    var r := q + [p];
    if Shape(r) {
      forall i, j | 0 <= i < j < |q| && q[i].needToBeReported ensures q[j].needToBeReported {
        assert r[i] == q[i] && r[j] == q[j];
      }
      if q != [] {
        assert r[|q| - 1] == q[|q| - 1] && r[|q|] == p;
      }
    }
  }
}

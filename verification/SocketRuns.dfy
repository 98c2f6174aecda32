/**
 One socket under every interleaving of its critical sections: accepting data (allocation and queueing are separate
 steps), delivery, verdicts, the two phases of reinjection and purges. The histories record what happened.
 */
module SocketRuns {
  import opened PendingQueue
  import opened SocketState

  datatype World = World(
    s: Socket,
    inFlight: seq<Packet>,      // allocated by an FltData call, not queued yet
    accepted: seq<Ticket>,      // queued, in order of insertion
    consumed: seq<Record>,      // given up, in order
    blocked: seq<nat>,          // senders made to wait
    signalled: seq<nat>,        // senders woken
    rulings: map<nat, bool>,    // the last verdict received for each packet before it left the queue
    notified: set<nat>,         // packets the client was notified of
    unsent: set<nat>,           // queued without deferral, but FltData has not tried to notify the client yet
    missed: set<nat>)           // marked as reported although the notification failed

  datatype Step =
    | Allocate(inbound: bool, dataLength: nat, totalbytes: nat, now: nat)
    | Enqueue(i: nat, copyFailed: bool)
    | Notify(index: nat, sent: bool)
    | Deliver(attempts: seq<Attempt>)
    | Verdict(index: nat, allow: bool)
    | Take(t: DataType, clock: seq<nat>)
    | Inject(error: bool)
    | EndInjection
    | Purge(t: DataType)
    | Disconnecting

  predicate Enabled(w: World, e: Step) {
    match e
    case Enqueue(i, _) => i < |w.inFlight|
    case Notify(index, _) => index in w.unsent
    case Deliver(attempts) => |attempts| == |w.s.pendingQueue|
    case Take(_, clock) => !w.s.injectionMutexHeld && |clock| == |w.s.pendingQueue|
    case Inject(_) => w.s.packetsToInject != []
    case EndInjection => w.s.injectionMutexHeld && w.s.packetsToInject == []
    case Purge(_) => !w.s.injectionMutexHeld
    case _ => true
  }

  /** Packets that were taken out of the queue already. */
  function Left(w: World): set<nat> {
    (set p | p in w.s.packetsToInject :: p.dataIndex) + (set r | r in w.consumed :: r.ticket.dataIndex)
  }

  /** The packets a delivery pass reports to the client. */
  function Reported(q: seq<Packet>, attempts: seq<Attempt>): set<nat>
    requires |attempts| >= |q|
  {
    set i | 0 <= i < Done(q, attempts) && q[i].needToBeReported && !attempts[i].failed :: q[i].dataIndex
  }

  /** The packets it marks as reported although the attempt failed. */
  function Skipped(q: seq<Packet>, attempts: seq<Attempt>): set<nat>
    requires |attempts| >= |q|
  {
    set i | 0 <= i < Done(q, attempts) && q[i].needToBeReported && attempts[i].failed :: q[i].dataIndex
  }

  function Apply(w: World, e: Step): World
    requires Enabled(w, e)
  {
    var q := w.s.pendingQueue;
    match e
    case Allocate(inbound, dataLength, totalbytes, now) =>
      w.(s := AfterAllocate(w.s, inbound, totalbytes),
         inFlight := w.inFlight + [NewPacket(w.s, inbound, dataLength, totalbytes, now)])
    case Enqueue(i, copyFailed) =>
      var p := w.inFlight[i];
      w.(s := AfterEnqueue(w.s, p, copyFailed),
         inFlight := w.inFlight[..i] + w.inFlight[i + 1..],
         accepted := w.accepted + [TicketOf(p)],
         blocked := w.blocked + Waiters([Queued(w.s, p, copyFailed)]),
         unsent := if Defers(w.s, copyFailed) then w.unsent else w.unsent + {p.dataIndex})
    case Notify(index, sent) =>
      w.(unsent := w.unsent - {index},
         notified := if sent then w.notified + {index} else w.notified,
         missed := if sent then w.missed else w.missed + {index})
    case Deliver(attempts) =>
      w.(s := AfterDeliver(w.s, attempts),
         signalled := w.signalled + Waiters(q[..Done(q, attempts)]),
         notified := w.notified + Reported(q, attempts),
         missed := w.missed + Skipped(q, attempts))
    case Verdict(index, allow) =>
      w.(s := AfterProperty(w.s, index, allow),
         rulings := if index in Left(w) then w.rulings else w.rulings[index := allow])
    case Take(t, clock) => w.(s := AfterTake(w.s, t, clock))
    case Inject(error) =>
      w.(s := AfterInject(w.s), consumed := w.consumed + [Outcome(w.s.packetsToInject[0], w.s.disconnecting, error)])
    case EndInjection => w.(s := w.s.(injectionMutexHeld := false))
    case Purge(t) =>
      w.(s := AfterPurge(w.s, t),
         consumed := w.consumed + PurgeRecords(Select(q, t)),
         signalled := w.signalled + Waiters(Select(q, t)))
    case Disconnecting => w.(s := w.s.(disconnecting := true))
  }

  // ---------------------------------------------------------------- reading the histories

  function Of(tickets: seq<Ticket>, inbound: bool): seq<Ticket> {
    if tickets == [] then []
    else (if tickets[0].dataInbound == inbound then [tickets[0]] else []) + Of(tickets[1..], inbound)
  }

  function TicketsOf(records: seq<Record>): (t: seq<Ticket>)
    ensures |t| == |records| && forall i :: 0 <= i < |t| ==> t[i] == records[i].ticket
  {
    seq(|records|, i requires 0 <= i < |records| => records[i].ticket)
  }

  function IndicesOf(records: seq<Record>): (s: seq<nat>)
    ensures |s| == |records| && forall i :: 0 <= i < |s| ==> s[i] == records[i].ticket.dataIndex
  {
    seq(|records|, i requires 0 <= i < |records| => records[i].ticket.dataIndex)
  }

  function Times(s: seq<nat>, x: nat): nat {
    multiset(s)[x]
  }

  // ---------------------------------------------------------------- the invariant, part by part

  /** Flags and queue shape; a local list only under the injection mutex. */
  ghost predicate WellFormed(w: World) {
    && Shape(w.s.pendingQueue) && AllCoherent(w.s.pendingQueue)
    && w.s.packetsWaitingForReporting == Waiting(w.s.pendingQueue)
    && (forall p :: p in w.inFlight ==> Coherent(p) && !p.needToBeReported && !p.responseReceived)
    && (forall p :: p in w.s.packetsToInject ==> Coherent(p) && !p.needToBeReported)
    && (!w.s.injectionMutexHeld ==> w.s.packetsToInject == [])
  }

  /** The counters equal the sums over packets just allocated, held locally and queued. */
  ghost predicate Counted(w: World) {
    forall d :: CountedIn(w, d)
  }

  ghost predicate CountedIn(w: World, d: bool) {
    && Packets(w.s, d) == |Tickets(w.inFlight, d)| + |Tickets(w.s.packetsToInject, d)| + |Tickets(w.s.pendingQueue, d)|
    && PendingBytes(w.s, d) == Bytes(Tickets(w.inFlight, d)) + Bytes(Tickets(w.s.packetsToInject, d)) + Bytes(Tickets(w.s.pendingQueue, d))
  }

  /** Per direction: what was given up, then what is being injected, then what is queued, is what was accepted. */
  ghost predicate Ordered(w: World) {
    forall d :: OrderedIn(w, d)
  }

  ghost predicate OrderedIn(w: World, d: bool) {
    Of(w.accepted, d) == Of(TicketsOf(w.consumed), d) + Tickets(w.s.packetsToInject, d) + Tickets(w.s.pendingQueue, d)
  }

  /** Every packet ever allocated is in exactly one place. */
  ghost predicate Placed(w: World) {
    forall x: nat :: PlacedAt(w, x)
  }

  ghost predicate PlacedAt(w: World, x: nat) {
    Times(Indices(w.inFlight), x) + Times(Indices(w.s.packetsToInject), x) + Times(Indices(w.s.pendingQueue), x)
      + Times(IndicesOf(w.consumed), x)
    == if x < w.s.pendingDataNextIndex then 1 else 0
  }

  /** Every blocked sender has been woken once or still waits; nobody is blocked before its packet is queued. */
  ghost predicate Signalled(w: World) {
    forall x: nat :: SignalledAt(w, x)
  }

  ghost predicate SignalledAt(w: World, x: nat) {
    && Times(w.signalled, x) + Times(Waiters(w.s.pendingQueue), x) == Times(w.blocked, x)
    && Times(w.blocked, x) + Times(Indices(w.inFlight), x) <= (if x < w.s.pendingDataNextIndex then 1 else 0)
  }

  predicate Allowed(w: World, index: nat) {
    index in w.rulings && w.rulings[index]
  }

  /** Nothing goes to the stack without an allow verdict as the last word. */
  ghost predicate Permitted(w: World) {
    && (forall p :: p in w.s.pendingQueue && p.allowData ==> Allowed(w, p.dataIndex))
    && (forall p :: p in w.s.packetsToInject && p.allowData ==> Allowed(w, p.dataIndex))
    && (forall r :: r in w.consumed && (r.fate == Injected || r.fate == Rejected) ==> Allowed(w, r.ticket.dataIndex))
  }

  /** The filter frees exactly the buffers the stack does not take. */
  ghost predicate FreedOnce(w: World) {
    forall r :: r in w.consumed ==>
      (r.freedByFilter <==> !(r.fate == Injected || (r.fate == Rejected && !r.ticket.dataInbound)))
  }

  ghost predicate Inv(w: World) {
    WellFormed(w) && Counted(w) && Ordered(w) && Placed(w) && Signalled(w) && Permitted(w) && FreedOnce(w)
  }

  predicate Fresh(w: World) {
    && w.s == Socket([], 0, 0, 0, 0, 0, 0, false, false, [])
    && w.inFlight == [] && w.accepted == [] && w.consumed == [] && w.blocked == [] && w.signalled == []
    && w.rulings == map[] && w.notified == {} && w.unsent == {} && w.missed == {}
  }

  lemma FreshInv(w: World)
    requires Fresh(w)
    ensures Inv(w)
  {
    assert Indices([]) == [] && IndicesOf([]) == [] && TicketsOf([]) == [];
  }

  // ---------------------------------------------------------------- auxiliary lemmas about histories

  lemma {:induction false} OfConcat(a: seq<Ticket>, b: seq<Ticket>, inbound: bool)
    ensures Of(a + b, inbound) == Of(a, inbound) + Of(b, inbound)
  {
    if a == [] {
      assert a + b == b;
    } else {
      assert (a + b)[1..] == a[1..] + b;
      OfConcat(a[1..], b, inbound);
    }
  }

  lemma {:induction false} PurgedTickets(q: seq<Packet>, inbound: bool)
    ensures Of(TicketsOf(PurgeRecords(q)), inbound) == Tickets(q, inbound)
  {
    if q != [] {
      var t := TicketsOf(PurgeRecords(q));
      assert t[1..] == TicketsOf(PurgeRecords(q[1..]));
      PurgedTickets(q[1..], inbound);
    }
  }

  lemma TicketsOne(p: Packet, inbound: bool)
    ensures Tickets([p], inbound) == Of([TicketOf(p)], inbound)
    ensures Bytes(Tickets([p], inbound)) == if p.dataInbound == inbound then p.totalbytes else 0
  {
    assert Tickets([p], inbound) == if p.dataInbound == inbound then [TicketOf(p)] else [];
  }

  lemma EmptyTickets(inbound: bool)
    ensures Tickets([], inbound) == [] && Bytes([]) == 0
  {
  }

  lemma Appended(q: seq<Packet>, p: Packet, inbound: bool)
    ensures Tickets(q + [p], inbound) == Tickets(q, inbound) + Of([TicketOf(p)], inbound)
    ensures Bytes(Tickets(q + [p], inbound)) == Bytes(Tickets(q, inbound)) + if p.dataInbound == inbound then p.totalbytes else 0
    ensures |Tickets(q + [p], inbound)| == |Tickets(q, inbound)| + if p.dataInbound == inbound then 1 else 0
  {
    TicketsConcat(q, [p], inbound);
    TicketsOne(p, inbound);
    BytesConcat(Tickets(q, inbound), Tickets([p], inbound));
  }

  lemma Headed(q: seq<Packet>, inbound: bool)
    requires q != []
    ensures Tickets(q, inbound) == Of([TicketOf(q[0])], inbound) + Tickets(q[1..], inbound)
    ensures Bytes(Tickets(q, inbound)) == Bytes(Tickets(q[1..], inbound)) + if q[0].dataInbound == inbound then q[0].totalbytes else 0
    ensures |Tickets(q, inbound)| == |Tickets(q[1..], inbound)| + if q[0].dataInbound == inbound then 1 else 0
  {
    TicketsOne(q[0], inbound);
    BytesConcat(Of([TicketOf(q[0])], inbound), Tickets(q[1..], inbound));
  }

  // the packet at position i taken out of a list
  lemma RemoveAt(q: seq<Packet>, i: nat, inbound: bool)
    requires i < |q|
    ensures var rest := q[..i] + q[i + 1..];
            && |Tickets(q, inbound)| == |Tickets(rest, inbound)| + |Tickets([q[i]], inbound)|
            && Bytes(Tickets(q, inbound)) == Bytes(Tickets(rest, inbound)) + Bytes(Tickets([q[i]], inbound))
            && multiset(Indices(q)) == multiset(Indices(rest)) + multiset{q[i].dataIndex}
  {
    hide *;
    var a, b := q[..i], q[i + 1..];
    assert q == a + ([q[i]] + b);
    TicketsConcat(a, [q[i]] + b, inbound);
    TicketsConcat([q[i]], b, inbound);
    TicketsConcat(a, b, inbound);
    BytesConcat(Tickets(a, inbound), Tickets([q[i]], inbound) + Tickets(b, inbound));
    BytesConcat(Tickets([q[i]], inbound), Tickets(b, inbound));
    BytesConcat(Tickets(a, inbound), Tickets(b, inbound));
    IndicesConcat(a, [q[i]] + b);
    IndicesConcat([q[i]], b);
    IndicesConcat(a, b);
    assert Indices([q[i]]) == [q[i].dataIndex];
  }

  // ---------------------------------------------------------------- every step keeps every part

  lemma {:induction false} NoNeed(q: seq<Packet>, p: Packet)
    requires Waiting(q) == 0 && p in q
    ensures !p.needToBeReported
  {
    var i :| 0 <= i < |q| && q[i] == p;
    if p.needToBeReported {
      SomeWaiting(q, i);
    }
  }

  lemma EnqueueShape(q: seq<Packet>, p: Packet)
    requires Shape(q) && AllCoherent(q) && Coherent(p) && (!p.needToBeReported ==> Waiting(q) == 0)
    ensures Shape(q + [p]) && AllCoherent(q + [p])
    ensures Waiting(q + [p]) == Waiting(q) + if p.needToBeReported then 1 else 0
  {
    WaitingConcat(q, [p]);
    if !p.needToBeReported {
      forall x | x in q ensures !x.needToBeReported {
        NoNeed(q, x);
      }
    }
  }

  lemma VerdictCounts(q: seq<Packet>, index: nat, allow: bool)
    requires Shape(q) && AllCoherent(q)
    ensures var q' := AfterVerdict(q, index, allow);
            && Waiting(q') == Waiting(q) && Waiters(q') == Waiters(q) && Indices(q') == Indices(q)
            && forall d :: Tickets(q', d) == Tickets(q, d)
  {
    hide AfterVerdict;
    hide Tickets;
    VerdictKeeps(q, index, allow);
    var q' := AfterVerdict(q, index, allow);
    SameWaiting(q, q');
    forall d ensures Tickets(q', d) == Tickets(q, d) {
      SameTickets(q, q', d);
    }
  }

  lemma WellFormedKeeps(w: World, e: Step)
    requires WellFormed(w) && Enabled(w, e)
    ensures WellFormed(Apply(w, e))
  {
    hide Done;
    hide Left;
    hide Reported;
    hide Skipped;
    hide PurgeRecords;
    hide Waiters;
    hide Outcome;
    hide Tickets;
    hide Bytes;
    hide Shape;
    hide Waiting;
    hide AfterVerdict;
    hide AfterDelivery;
    hide AfterCollect;
    hide Collected;
    hide Select;
    hide Without;
    var q := w.s.pendingQueue;
    match e
    case Enqueue(i, copyFailed) =>
      assert w.inFlight[i] in w.inFlight;
      EnqueueShape(q, Queued(w.s, w.inFlight[i], copyFailed));
    case Deliver(attempts) => DeliveryKeeps(q, attempts);
    case Verdict(index, allow) =>
      VerdictKeeps(q, index, allow);
      VerdictCounts(q, index, allow);
    case Take(t, clock) => CollectKeeps(q, t, clock);
    case Purge(t) => PurgeKeeps(q, t);
    case _ =>
  }

  lemma CountedKeeps(w: World, e: Step)
    requires WellFormed(w) && Counted(w) && Enabled(w, e)
    ensures Counted(Apply(w, e))
  {
    forall d ensures CountedIn(Apply(w, e), d) {
      CountedOne(w, e, d);
    }
  }

  lemma CountedEnqueue(w: World, i: nat, copyFailed: bool, d: bool)
    requires CountedIn(w, d) && i < |w.inFlight|
    ensures CountedIn(Apply(w, Enqueue(i, copyFailed)), d)
  {
    hide Tickets;
    hide Bytes;
    hide Waiters;
    hide Indices;
    RemoveAt(w.inFlight, i, d);
    Appended(w.s.pendingQueue, Queued(w.s, w.inFlight[i], copyFailed), d);
    TicketsOne(w.inFlight[i], d);
  }

  lemma CountedOne(w: World, e: Step, d: bool)
    requires WellFormed(w) && CountedIn(w, d) && Enabled(w, e)
    ensures CountedIn(Apply(w, e), d)
  {
    hide Of;
    hide Done;
    hide Left;
    hide Reported;
    hide Skipped;
    hide PurgeRecords;
    hide Waiters;
    hide Outcome;
    hide Queued;
    hide Tickets;
    hide Bytes;
    hide Shape;
    hide Waiting;
    hide AfterVerdict;
    hide AfterDelivery;
    hide AfterCollect;
    hide Collected;
    hide Select;
    hide Without;
    hide Indices;
    var q := w.s.pendingQueue;
    EmptyTickets(d);
    match e
    case Allocate(inbound, dataLength, totalbytes, now) =>
      Appended(w.inFlight, NewPacket(w.s, inbound, dataLength, totalbytes, now), d);
    case Enqueue(i, copyFailed) => CountedEnqueue(w, i, copyFailed, d);
    case Deliver(attempts) => DeliveryKeeps(q, attempts);
    case Verdict(index, allow) => VerdictCounts(q, index, allow);
    case Take(t, clock) =>
      CollectKeeps(q, t, clock);
      BytesConcat(Tickets(Collected(q, t, clock), d), Tickets(AfterCollect(q, t, clock), d));
    case Inject(error) =>
      Headed(w.s.packetsToInject, d);
    case Purge(t) =>
      PurgeKeeps(q, t);
      BytesConcat(Tickets(Select(q, t), d), Tickets(Without(q, t), d));
    case _ =>
  }

  lemma OrderedKeeps(w: World, e: Step)
    requires WellFormed(w) && Ordered(w) && Enabled(w, e)
    ensures Ordered(Apply(w, e))
  {
    forall d ensures OrderedIn(Apply(w, e), d) {
      OrderedOne(w, e, d);
    }
  }

  lemma OrderedEnqueue(w: World, i: nat, copyFailed: bool, d: bool)
    requires OrderedIn(w, d) && i < |w.inFlight|
    ensures OrderedIn(Apply(w, Enqueue(i, copyFailed)), d)
  {
    hide Of;
    hide Tickets;
    hide Bytes;
    hide Waiters;
    Appended(w.s.pendingQueue, Queued(w.s, w.inFlight[i], copyFailed), d);
    OfConcat(w.accepted, [TicketOf(w.inFlight[i])], d);
  }

  lemma OrderedInject(w: World, error: bool, d: bool)
    requires OrderedIn(w, d) && w.s.packetsToInject != []
    ensures OrderedIn(Apply(w, Inject(error)), d)
  {
    hide Of;
    hide Tickets;
    hide Bytes;
    var p := w.s.packetsToInject[0];
    Headed(w.s.packetsToInject, d);
    OfConcat(TicketsOf(w.consumed), [TicketOf(p)], d);
    assert TicketsOf(w.consumed + [Outcome(p, w.s.disconnecting, error)]) == TicketsOf(w.consumed) + [TicketOf(p)];
  }

  lemma OrderedPurge(w: World, t: DataType, d: bool)
    requires WellFormed(w) && OrderedIn(w, d) && Enabled(w, Purge(t))
    ensures OrderedIn(Apply(w, Purge(t)), d)
  {
    hide Of;
    hide Tickets;
    hide Bytes;
    hide Waiters;
    hide Waiting;
    hide Select;
    hide Without;
    hide Shape;
    var purged := Select(w.s.pendingQueue, t);
    PurgeKeeps(w.s.pendingQueue, t);
    PurgedTickets(purged, d);
    EmptyTickets(d);
    OfConcat(TicketsOf(w.consumed), TicketsOf(PurgeRecords(purged)), d);
    assert TicketsOf(w.consumed + PurgeRecords(purged)) == TicketsOf(w.consumed) + TicketsOf(PurgeRecords(purged));
  }

  lemma OrderedOne(w: World, e: Step, d: bool)
    requires WellFormed(w) && OrderedIn(w, d) && Enabled(w, e)
    ensures OrderedIn(Apply(w, e), d)
  {
    hide Of;
    hide Tickets;
    hide Bytes;
    hide Shape;
    hide Waiting;
    hide Waiters;
    hide Indices;
    hide AfterVerdict;
    hide AfterDelivery;
    hide AfterCollect;
    hide Collected;
    hide TicketsOf;
    var q := w.s.pendingQueue;
    EmptyTickets(d);
    match e
    case Enqueue(i, copyFailed) => OrderedEnqueue(w, i, copyFailed, d);
    case Deliver(attempts) => DeliveryKeeps(q, attempts);
    case Verdict(index, allow) => VerdictCounts(q, index, allow);
    case Take(t, clock) =>
      CollectKeeps(q, t, clock);
    case Inject(error) => OrderedInject(w, error, d);
    case Purge(t) => OrderedPurge(w, t, d);
    case _ =>
  }

  lemma TimesConcat(a: seq<nat>, b: seq<nat>, x: nat)
    ensures Times(a + b, x) == Times(a, x) + Times(b, x)
  {
  }

  // how often an index occurs, pass by pass
  lemma TimesOne(p: Packet, x: nat)
    ensures Times(Indices([p]), x) == if p.dataIndex == x then 1 else 0
    ensures Times(Waiters([p]), x) == if p.dataIndex == x && p.waitEntry then 1 else 0
  {
    assert Indices([p]) == [p.dataIndex] && Waiters([p]) == if p.waitEntry then [p.dataIndex] else [];
  }

  lemma TimesAppended(q: seq<Packet>, p: Packet, x: nat)
    ensures Times(Indices(q + [p]), x) == Times(Indices(q), x) + if p.dataIndex == x then 1 else 0
    ensures Times(Waiters(q + [p]), x) == Times(Waiters(q), x) + if p.dataIndex == x && p.waitEntry then 1 else 0
  {
    hide *;
    IndicesConcat(q, [p]);
    WaitingConcat(q, [p]);
    TimesOne(p, x);
    TimesConcat(Indices(q), Indices([p]), x);
    TimesConcat(Waiters(q), Waiters([p]), x);
  }

  lemma TimesRemoved(q: seq<Packet>, i: nat, x: nat)
    requires i < |q|
    ensures Times(Indices(q[..i] + q[i + 1..]), x) == Times(Indices(q), x) - if q[i].dataIndex == x then 1 else 0
  {
    hide Indices;
    RemoveAt(q, i, true);
  }

  lemma TimesDelivered(q: seq<Packet>, attempts: seq<Attempt>, x: nat)
    requires |attempts| >= |q| && Shape(q) && AllCoherent(q)
    ensures var q' := AfterDelivery(q, attempts);
            && Indices(q') == Indices(q)
            && Times(Waiters(q[..Done(q, attempts)]), x) + Times(Waiters(q'), x) == Times(Waiters(q), x)
  {
    hide *;
    DeliveryKeeps(q, attempts);
    TimesConcat(Waiters(q[..Done(q, attempts)]), Waiters(AfterDelivery(q, attempts)), x);
  }

  lemma TimesTaken(q: seq<Packet>, t: DataType, clock: seq<nat>, x: nat)
    requires |clock| >= |q| && Shape(q) && AllCoherent(q)
    ensures var taken, kept := Collected(q, t, clock), AfterCollect(q, t, clock);
            && Times(Indices(taken), x) + Times(Indices(kept), x) == Times(Indices(q), x)
            && Times(Waiters(kept), x) == Times(Waiters(q), x)
  {
    hide *;
    CollectKeeps(q, t, clock);
    TimesOfUnion(Indices(Collected(q, t, clock)), Indices(AfterCollect(q, t, clock)), Indices(q), x);
    TimesOfSame(Waiters(AfterCollect(q, t, clock)), Waiters(q), x);
  }

  lemma TimesPurged(q: seq<Packet>, t: DataType, x: nat)
    requires Shape(q) && AllCoherent(q)
    ensures Times(Indices(Select(q, t)), x) + Times(Indices(Without(q, t)), x) == Times(Indices(q), x)
    ensures Times(Waiters(Select(q, t)), x) + Times(Waiters(Without(q, t)), x) == Times(Waiters(q), x)
  {
    hide *;
    PurgeKeeps(q, t);
    TimesOfUnion(Indices(Select(q, t)), Indices(Without(q, t)), Indices(q), x);
    TimesOfUnion(Waiters(Select(q, t)), Waiters(Without(q, t)), Waiters(q), x);
  }

  lemma TimesOfUnion(a: seq<nat>, b: seq<nat>, c: seq<nat>, x: nat)
    requires multiset(a) + multiset(b) == multiset(c)
    ensures Times(a, x) + Times(b, x) == Times(c, x)
  {
  }

  lemma TimesOfSame(a: seq<nat>, b: seq<nat>, x: nat)
    requires multiset(a) == multiset(b)
    ensures Times(a, x) == Times(b, x)
  {
  }

  lemma TimesRecorded(records: seq<Record>, r: Record, x: nat)
    ensures Times(IndicesOf(records + [r]), x) == Times(IndicesOf(records), x) + if r.ticket.dataIndex == x then 1 else 0
  {
    assert IndicesOf(records + [r]) == IndicesOf(records) + [r.ticket.dataIndex];
  }

  lemma TimesPurgeRecorded(records: seq<Record>, q: seq<Packet>, x: nat)
    ensures Times(IndicesOf(records + PurgeRecords(q)), x) == Times(IndicesOf(records), x) + Times(Indices(q), x)
  {
    assert IndicesOf(records + PurgeRecords(q)) == IndicesOf(records) + Indices(q);
  }

  lemma TimesHeaded(q: seq<Packet>, x: nat)
    requires q != []
    ensures Times(Indices(q), x) == Times(Indices(q[1..]), x) + if q[0].dataIndex == x then 1 else 0
  {
    assert Indices(q) == [q[0].dataIndex] + Indices(q[1..]);
  }

  lemma PlacedKeeps(w: World, e: Step)
    requires WellFormed(w) && Placed(w) && Enabled(w, e)
    ensures Placed(Apply(w, e))
  {
    hide Apply;
    hide PlacedAt;
    forall x: nat ensures PlacedAt(Apply(w, e), x) {
      PlacedOne(w, e, x);
    }
  }

  lemma PlacedOne(w: World, e: Step, x: nat)
    requires WellFormed(w) && PlacedAt(w, x) && Enabled(w, e)
    ensures PlacedAt(Apply(w, e), x)
  {
    hide Times;
    hide Shape;
    hide Waiting;
    hide Waiters;
    hide Tickets;
    hide Bytes;
    hide AfterVerdict;
    hide AfterDelivery;
    hide AfterCollect;
    hide Collected;
    hide Select;
    hide Without;
    hide Indices;
    hide IndicesOf;
    hide Done;
    var q := w.s.pendingQueue;
    TimesEmpty(x);
    match e
    case Allocate(inbound, dataLength, totalbytes, now) =>
      TimesAppended(w.inFlight, NewPacket(w.s, inbound, dataLength, totalbytes, now), x);
    case Enqueue(i, copyFailed) =>
      TimesRemoved(w.inFlight, i, x);
      TimesAppended(q, Queued(w.s, w.inFlight[i], copyFailed), x);
    case Deliver(attempts) => TimesDelivered(q, attempts, x);
    case Verdict(index, allow) => VerdictCounts(q, index, allow);
    case Take(t, clock) => TimesTaken(q, t, clock, x);
    case Inject(error) =>
      TimesHeaded(w.s.packetsToInject, x);
      TimesRecorded(w.consumed, Outcome(w.s.packetsToInject[0], w.s.disconnecting, error), x);
    case Purge(t) =>
      TimesPurged(q, t, x);
      TimesPurgeRecorded(w.consumed, Select(q, t), x);
    case _ =>
  }

  lemma TimesEmpty(x: nat)
    ensures Times(Indices([]), x) == 0
  {
    assert Indices([]) == [];
  }

  lemma SignalledKeeps(w: World, e: Step)
    requires WellFormed(w) && Signalled(w) && Enabled(w, e)
    ensures Signalled(Apply(w, e))
  {
    hide Apply;
    hide SignalledAt;
    forall x: nat ensures SignalledAt(Apply(w, e), x) {
      SignalledOne(w, e, x);
    }
  }

  lemma SignalledOne(w: World, e: Step, x: nat)
    requires WellFormed(w) && SignalledAt(w, x) && Enabled(w, e)
    ensures SignalledAt(Apply(w, e), x)
  {
    hide Times;
    hide Shape;
    hide Waiting;
    hide Waiters;
    hide Tickets;
    hide Bytes;
    hide AfterVerdict;
    hide AfterDelivery;
    hide AfterCollect;
    hide Collected;
    hide Select;
    hide Without;
    hide Indices;
    hide Done;
    var q := w.s.pendingQueue;
    match e
    case Allocate(inbound, dataLength, totalbytes, now) =>
      TimesAppended(w.inFlight, NewPacket(w.s, inbound, dataLength, totalbytes, now), x);
    case Enqueue(i, copyFailed) =>
      var p := Queued(w.s, w.inFlight[i], copyFailed);
      TimesRemoved(w.inFlight, i, x);
      TimesAppended(q, p, x);
      TimesConcat(w.blocked, Waiters([p]), x);
      TimesOne(p, x);
    case Deliver(attempts) =>
      TimesDelivered(q, attempts, x);
      TimesConcat(w.signalled, Waiters(q[..Done(q, attempts)]), x);
    case Verdict(index, allow) => VerdictCounts(q, index, allow);
    case Take(t, clock) => TimesTaken(q, t, clock, x);
    case Purge(t) =>
      TimesPurged(q, t, x);
      TimesConcat(w.signalled, Waiters(Select(q, t)), x);
    case _ =>
  }

  lemma TimesMember(s: seq<nat>, x: nat)
    ensures x in s <==> Times(s, x) > 0
  {
  }

  lemma {:induction false} TimesTwice(s: seq<nat>, i: nat, j: nat)
    requires i < j < |s| && s[i] == s[j]
    ensures Times(s, s[i]) >= 2
  {
    assert s == s[..j] + s[j..] && s[i] == s[..j][i] && s[j] == s[j..][0];
    TimesConcat(s[..j], s[j..], s[i]);
    TimesMember(s[..j], s[i]);
    TimesMember(s[j..], s[i]);
  }

  /** A queued packet shares its index with no other packet and has not left. */
  lemma QueuedIsUnique(w: World, i: nat)
    requires i < |w.s.pendingQueue| && PlacedAt(w, w.s.pendingQueue[i].dataIndex)
    ensures forall j :: 0 <= j < |w.s.pendingQueue| && w.s.pendingQueue[j].dataIndex == w.s.pendingQueue[i].dataIndex ==> j == i
    ensures w.s.pendingQueue[i].dataIndex !in Left(w)
  {
    var q := w.s.pendingQueue;
    var x := q[i].dataIndex;
    assert Indices(q)[i] == x;
    TimesMember(Indices(q), x);
    forall j | 0 <= j < |q| && q[j].dataIndex == x ensures j == i {
      assert Indices(q)[j] == x;
      if j < i {
        TimesTwice(Indices(q), j, i);
      } else if i < j {
        TimesTwice(Indices(q), i, j);
      }
    }
    TimesMember(Indices(w.s.packetsToInject), x);
    TimesMember(IndicesOf(w.consumed), x);
    forall p | p in w.s.packetsToInject ensures p.dataIndex != x {
      var k :| 0 <= k < |w.s.packetsToInject| && w.s.packetsToInject[k] == p;
      assert Indices(w.s.packetsToInject)[k] == p.dataIndex;
    }
    forall r | r in w.consumed ensures r.ticket.dataIndex != x {
      var k :| 0 <= k < |w.consumed| && w.consumed[k] == r;
      assert IndicesOf(w.consumed)[k] == r.ticket.dataIndex;
    }
  }

  /** A verdict is applied whenever its packet has been reported and not taken out: an earlier allow cannot survive a deny. */
  lemma PermittedVerdict(w: World, index: nat, allow: bool)
    requires WellFormed(w) && Placed(w) && Permitted(w)
    ensures Permitted(Apply(w, Verdict(index, allow)))
  {
    hide AfterVerdict;
    hide Waiting;
    hide Indices;
    hide IndicesOf;
    hide PlacedAt;
    var q, w' := w.s.pendingQueue, Apply(w, Verdict(index, allow));
    var q' := w'.s.pendingQueue;
    VerdictKeeps(q, index, allow);
    forall p | p in q' && p.allowData ensures Allowed(w', p.dataIndex) {
      var i :| 0 <= i < |q'| && q'[i] == p;
      assert q[i] in q && PlacedAt(w, q[i].dataIndex);
      QueuedIsUnique(w, i);
      if q[i].dataIndex == index && !q[i].needToBeReported {
        VerdictReaches(q, index, allow, i);
      }
    }
  }

  lemma PermittedTake(w: World, t: DataType, clock: seq<nat>)
    requires WellFormed(w) && Permitted(w) && Enabled(w, Take(t, clock))
    ensures Permitted(Apply(w, Take(t, clock)))
  {
    var q := w.s.pendingQueue;
    KeptAreMembers(q, t, clock);
    CollectedAreReady(q, t, clock);
    hide Reach;
    hide AfterCollect;
    hide Collected;
    hide Shape;
    hide Waiting;
  }

  lemma PermittedKeeps(w: World, e: Step)
    requires WellFormed(w) && Placed(w) && Permitted(w) && Enabled(w, e)
    ensures Permitted(Apply(w, e))
  {
    hide Reported;
    hide Skipped;
    hide Tickets;
    hide Bytes;
    hide AfterVerdict;
    hide AfterDelivery;
    hide Done;
    hide Waiting;
    hide Waiters;
    hide Shape;
    hide Placed;
    hide Select;
    hide Without;
    hide Coherent;
    var q := w.s.pendingQueue;
    match e
    case Allocate(_, _, _, _) =>
    case Enqueue(i, copyFailed) => EnqueuedVerdict(w, i);
    case Deliver(attempts) => DeliveredVerdicts(q, attempts);
    case Verdict(index, allow) => PermittedVerdict(w, index, allow);
    case Take(t, clock) => PermittedTake(w, t, clock);
    case Inject(error) => assert w.s.packetsToInject[0] in w.s.packetsToInject;
    case Purge(t) => PurgedAreMembers(q, t);
    case _ =>
  }

  // a packet on its way into the queue has no verdict yet
  lemma EnqueuedVerdict(w: World, i: nat)
    requires WellFormed(w) && i < |w.inFlight|
    ensures !w.inFlight[i].allowData
  {
    hide Shape;
    hide Waiting;
    assert w.inFlight[i] in w.inFlight;
  }

  /** A new packet has an index no other packet has or had, carries what it was allocated with, will be past its deadline when 60
      seconds have gone by, and is counted before anybody can see it. */
  lemma AllocatedIsFresh(w: World, inbound: bool, dataLength: nat, totalbytes: nat, now: nat)
    requires Inv(w)
    ensures var x, w' := w.s.pendingDataNextIndex, Apply(w, Allocate(inbound, dataLength, totalbytes, now));
            && Times(Indices(w.inFlight), x) == 0 && Times(Indices(w.s.packetsToInject), x) == 0
            && Times(Indices(w.s.pendingQueue), x) == 0 && Times(IndicesOf(w.consumed), x) == 0
            && Times(Indices(w'.inFlight), x) == 1
            && |w'.inFlight| == |w.inFlight| + 1
            && (var p := w'.inFlight[|w.inFlight|];
                && p.dataIndex == x && p.dataInbound == inbound && p.dataLength == dataLength && p.totalbytes == totalbytes
                && !p.allowData && !p.needToBeReported && !p.responseReceived && !p.waitEntry
                && forall t: nat :: Expired(p, t) <==> t > now + 60 * 1_000_000_000)
            && Packets(w'.s, inbound) == Packets(w.s, inbound) + 1 && PendingBytes(w'.s, inbound) == PendingBytes(w.s, inbound) + totalbytes
            && Packets(w'.s, !inbound) == Packets(w.s, !inbound) && PendingBytes(w'.s, !inbound) == PendingBytes(w.s, !inbound)
            && w'.s.pendingQueue == w.s.pendingQueue && w'.s.packetsWaitingForReporting == w.s.packetsWaitingForReporting
  {
    assert PlacedAt(w, w.s.pendingDataNextIndex);
    hide Inv;
    hide Times;
    hide Indices;
    hide IndicesOf;
    TimesAppended(w.inFlight, NewPacket(w.s, inbound, dataLength, totalbytes, now), w.s.pendingDataNextIndex);
  }

  lemma DeliveredVerdicts(q: seq<Packet>, attempts: seq<Attempt>)
    requires |attempts| >= |q| && AllCoherent(q)
    ensures forall p :: p in AfterDelivery(q, attempts) && p.allowData ==> p in q
  {
    hide Done;
    forall p | p in AfterDelivery(q, attempts) && p.allowData ensures p in q {
      var i :| 0 <= i < |q| && AfterDelivery(q, attempts)[i] == p;
      assert q[i] in q && Coherent(q[i]);
    }
  }

  lemma PurgedAreMembers(q: seq<Packet>, t: DataType)
    ensures forall p :: p in Without(q, t) ==> p in q
  {
    forall p | p in Without(q, t) ensures p in q {
      SplitMembers(q, t, p);
    }
  }

  lemma FreedOnceKeeps(w: World, e: Step)
    requires FreedOnce(w) && Enabled(w, e)
    ensures FreedOnce(Apply(w, e))
  {
    hide Select;
  }

  lemma InvKeeps(w: World, e: Step)
    requires Inv(w) && Enabled(w, e)
    ensures Inv(Apply(w, e))
  {
    hide WellFormed;
    hide Counted;
    hide Ordered;
    hide Placed;
    hide Signalled;
    hide Permitted;
    hide FreedOnce;
    hide Apply;
    WellFormedKeeps(w, e);
    CountedKeeps(w, e);
    OrderedKeeps(w, e);
    PlacedKeeps(w, e);
    SignalledKeeps(w, e);
    PermittedKeeps(w, e);
    FreedOnceKeeps(w, e);
  }

  // ---------------------------------------------------------------- whole runs

  ghost predicate IsRun(worlds: seq<World>, steps: seq<Step>) {
    && |worlds| == |steps| + 1 && Fresh(worlds[0])
    && forall i :: 0 <= i < |steps| ==> Enabled(worlds[i], steps[i]) && worlds[i + 1] == Apply(worlds[i], steps[i])
  }

  lemma {:induction false} RunInv(worlds: seq<World>, steps: seq<Step>)
    requires IsRun(worlds, steps)
    ensures Inv(worlds[|steps|])
    decreases |steps|
  {
    hide Inv;
    hide Apply;
    hide Enabled;
    hide Fresh;
    if steps == [] {
      FreshInv(worlds[0]);
    } else {
      var n := |steps| - 1;
      RunInv(worlds[..|steps|], steps[..n]);
      InvKeeps(worlds[n], steps[n]);
    }
  }
}

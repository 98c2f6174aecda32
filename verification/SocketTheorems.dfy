/** What holds of every run of one socket. */
module SocketTheorems {
  import opened PendingQueue
  import opened SocketState
  import opened SocketRuns

  /** Stream order: in each direction the packets given up, being injected and queued are, in this order,
      exactly the packets accepted. */
  lemma StreamOrder(worlds: seq<World>, steps: seq<Step>, inbound: bool)
    requires IsRun(worlds, steps)
    ensures var w := worlds[|steps|];
            Of(w.accepted, inbound)
            == Of(TicketsOf(w.consumed), inbound) + Tickets(w.s.packetsToInject, inbound) + Tickets(w.s.pendingQueue, inbound)
  {
    hide Apply;
    hide WellFormed;
    RunInv(worlds, steps);
    assert OrderedIn(worlds[|steps|], inbound);
  }

  /** The queue is always a reported prefix and an unreported suffix, the counter is the length of the suffix,
      and a verdict is recorded only on a reported packet. */
  lemma QueueShape(worlds: seq<World>, steps: seq<Step>)
    requires IsRun(worlds, steps)
    ensures var s := worlds[|steps|].s;
            && s.packetsWaitingForReporting == Waiting(s.pendingQueue)
            && (forall i :: 0 <= i < |s.pendingQueue| ==>
                  (s.pendingQueue[i].needToBeReported <==> i >= |s.pendingQueue| - s.packetsWaitingForReporting))
            && (forall p :: p in s.pendingQueue ==>
                  (p.allowData ==> p.responseReceived) && (p.responseReceived ==> !p.needToBeReported))
  {
    RunInv(worlds, steps);
    var q := worlds[|steps|].s.pendingQueue;
    forall i | 0 <= i < |q| ensures q[i].needToBeReported <==> i >= |q| - Waiting(q) {
      SuffixLength(q, i);
    }
    forall p | p in q ensures Coherent(p) {
    }
  }

  lemma {:induction false} SuffixLength(q: seq<Packet>, i: nat)
    requires Shape(q) && i < |q|
    ensures Waiting(q) <= |q|
    ensures q[i].needToBeReported <==> i >= |q| - Waiting(q)
  {
    if q[0].needToBeReported {
      AllWaiting(q);
    } else if i > 0 {
      SuffixLength(q[1..], i - 1);
    } else if |q| > 1 {
      SuffixLength(q[1..], 0);
    }
  }

  lemma {:induction false} AllWaiting(q: seq<Packet>)
    requires forall p :: p in q ==> p.needToBeReported
    ensures Waiting(q) == |q|
  {
    if q != [] {
      AllWaiting(q[1..]);
    }
  }

  /** The packet and byte counters of each direction equal the sums over just allocated, local and queued packets,
      so they are never negative. */
  lemma CountersMatch(worlds: seq<World>, steps: seq<Step>, inbound: bool)
    requires IsRun(worlds, steps)
    ensures var w := worlds[|steps|];
            && Packets(w.s, inbound)
               == |Tickets(w.inFlight, inbound)| + |Tickets(w.s.packetsToInject, inbound)| + |Tickets(w.s.pendingQueue, inbound)|
            && PendingBytes(w.s, inbound)
               == Bytes(Tickets(w.inFlight, inbound)) + Bytes(Tickets(w.s.packetsToInject, inbound)) + Bytes(Tickets(w.s.pendingQueue, inbound))
            && PendingBytes(w.s, inbound) >= 0
  {
    hide Tickets;
    RunInv(worlds, steps);
    var w := worlds[|steps|];
    assert CountedIn(w, inbound);
    BytesArePositive(Tickets(w.inFlight, inbound));
    BytesArePositive(Tickets(w.s.packetsToInject, inbound));
    BytesArePositive(Tickets(w.s.pendingQueue, inbound));
  }

  lemma {:induction false} BytesArePositive(t: seq<Ticket>)
    ensures Bytes(t) >= 0
  {
    if t != [] {
      BytesArePositive(t[1..]);
    }
  }

  /** Every packet ever allocated is in exactly one place, and once given up its buffer is freed by this filter
      exactly if the stack has not taken it. */
  lemma EveryBufferGivenUpOnce(worlds: seq<World>, steps: seq<Step>, x: nat)
    requires IsRun(worlds, steps)
    ensures var w := worlds[|steps|];
            && Times(Indices(w.inFlight), x) + Times(Indices(w.s.packetsToInject), x) + Times(Indices(w.s.pendingQueue), x)
                 + Times(IndicesOf(w.consumed), x)
               == (if x < w.s.pendingDataNextIndex then 1 else 0)
            && (forall r :: r in w.consumed ==>
                  (r.freedByFilter <==> !(r.fate == Injected || (r.fate == Rejected && !r.ticket.dataInbound))))
  {
    RunInv(worlds, steps);
    assert PlacedAt(worlds[|steps|], x);
  }

  /** A sender waits exactly while its outbound packet is unreported in the queue; nobody is woken twice,
      and a packet whose sender was blocked leaves the queue only after the sender has been woken. */
  lemma SendersWokenOnce(worlds: seq<World>, steps: seq<Step>, x: nat)
    requires IsRun(worlds, steps)
    ensures var w := worlds[|steps|];
            && (forall p :: p in w.s.pendingQueue ==> (p.waitEntry <==> p.needToBeReported && !p.dataInbound))
            && Times(w.signalled, x) <= 1
            && (x in w.signalled ==> x in w.blocked)
            && (x in w.blocked ==>
                  (x in w.signalled <==> !exists p :: p in w.s.pendingQueue && p.waitEntry && p.dataIndex == x))
            && (x in w.blocked && x in Left(w) ==> Times(w.signalled, x) == 1)
  {
    hide Waiters;
    hide Indices;
    hide Shape;
    RunInv(worlds, steps);
    var w := worlds[|steps|];
    assert SignalledAt(w, x) && PlacedAt(w, x);
    WaitersMembers(w.s.pendingQueue, x);
    TimesMember(Waiters(w.s.pendingQueue), x);
    TimesMember(w.signalled, x);
    TimesMember(w.blocked, x);
    if x in Left(w) {
      forall i | 0 <= i < |w.s.pendingQueue| && w.s.pendingQueue[i].dataIndex == x ensures false {
        QueuedIsUnique(w, i);
      }
    }
  }

  /** Whatever is offered to the stack was allowed by the last verdict that came before it left the queue. */
  lemma OnlyAllowedIsInjected(worlds: seq<World>, steps: seq<Step>)
    requires IsRun(worlds, steps)
    ensures var w := worlds[|steps|];
            forall r :: r in w.consumed && (r.fate == Injected || r.fate == Rejected) ==>
              r.ticket.dataIndex in w.rulings && w.rulings[r.ticket.dataIndex]
  {
    hide WellFormed;
    hide Placed;
    RunInv(worlds, steps);
    var w := worlds[|steps|];
    assert forall r :: r in w.consumed && (r.fate == Injected || r.fate == Rejected) ==> Allowed(w, r.ticket.dataIndex);
  }

  /** The client gives verdicts only on packets it was notified of. */
  ghost predicate Obedient(worlds: seq<World>, steps: seq<Step>) {
    |worlds| == |steps| + 1 && forall i :: 0 <= i < |steps| && steps[i].Verdict? ==> steps[i].index in worlds[i].notified
  }

  lemma {:induction false} RulingsWereNotified(worlds: seq<World>, steps: seq<Step>)
    requires IsRun(worlds, steps) && Obedient(worlds, steps)
    ensures worlds[|steps|].rulings.Keys <= worlds[|steps|].notified
    decreases |steps|
  {
    if steps != [] {
      var n := |steps| - 1;
      RulingsWereNotified(worlds[..|steps|], steps[..n]);
      hide Enabled;
      assert worlds[|steps|] == Apply(worlds[n], steps[n]);
    }
  }

  /** With such a client, every packet offered to the stack was reported to it. */
  lemma NotifiedBeforeInjected(worlds: seq<World>, steps: seq<Step>)
    requires IsRun(worlds, steps) && Obedient(worlds, steps)
    ensures var w := worlds[|steps|];
            forall r :: r in w.consumed && (r.fate == Injected || r.fate == Rejected) ==> r.ticket.dataIndex in w.notified
  {
    hide Apply;
    OnlyAllowedIsInjected(worlds, steps);
    RulingsWereNotified(worlds, steps);
  }

  // ---------------------------------------------------------------- draining past the deadline

  function InjectAll(w: World, errors: seq<bool>): World
    decreases |errors|
  {
    if errors == [] || w.s.packetsToInject == [] then w else InjectAll(Apply(w, Inject(errors[0])), errors[1..])
  }

  function Outcomes(q: seq<Packet>, disconnecting: bool, errors: seq<bool>): (r: seq<Record>)
    requires |errors| == |q|
    ensures |r| == |q| && forall i :: 0 <= i < |q| ==> r[i] == Outcome(q[i], disconnecting, errors[i])
  {
    if q == [] then [] else [Outcome(q[0], disconnecting, errors[0])] + Outcomes(q[1..], disconnecting, errors[1..])
  }

  lemma {:induction false} InjectAllEmpties(w: World, errors: seq<bool>)
    requires Inv(w) && |errors| == |w.s.packetsToInject|
    ensures var w' := InjectAll(w, errors);
            && Inv(w') && w'.s.packetsToInject == [] && w'.s.pendingQueue == w.s.pendingQueue && w'.inFlight == w.inFlight
            && w'.consumed == w.consumed + Outcomes(w.s.packetsToInject, w.s.disconnecting, errors)
    decreases |errors|
  {
    hide *;
    InjectAllUnfolds(w, errors);
    if errors != [] {
      var w1, head := Apply(w, Inject(errors[0])), [Outcome(w.s.packetsToInject[0], w.s.disconnecting, errors[0])];
      InjectKeepsRest(w, errors[0]);
      InjectAllEmpties(w1, errors[1..]);
      var rest := Outcomes(w1.s.packetsToInject, w.s.disconnecting, errors[1..]);
      assert w.consumed + (head + rest) == (w.consumed + head) + rest;
    } else {
      assert w.consumed + [] == w.consumed;
    }
  }

  lemma InjectAllUnfolds(w: World, errors: seq<bool>)
    requires |errors| == |w.s.packetsToInject|
    ensures errors == [] ==> InjectAll(w, errors) == w && Outcomes(w.s.packetsToInject, w.s.disconnecting, errors) == []
    ensures errors != [] ==>
              && Enabled(w, Inject(errors[0]))
              && InjectAll(w, errors) == InjectAll(Apply(w, Inject(errors[0])), errors[1..])
              && Outcomes(w.s.packetsToInject, w.s.disconnecting, errors)
                 == [Outcome(w.s.packetsToInject[0], w.s.disconnecting, errors[0])]
                    + Outcomes(w.s.packetsToInject[1..], w.s.disconnecting, errors[1..])
  {
    hide Apply;
  }

  lemma InjectKeepsRest(w: World, error: bool)
    requires Inv(w) && w.s.packetsToInject != []
    ensures var w1 := Apply(w, Inject(error));
            && Inv(w1) && w1.s.packetsToInject == w.s.packetsToInject[1..] && w1.s.pendingQueue == w.s.pendingQueue
            && w1.inFlight == w.inFlight && w1.rulings == w.rulings && w1.s.disconnecting == w.s.disconnecting
            && w1.s.packetsWaitingForReporting == w.s.packetsWaitingForReporting
            && w1.consumed == w.consumed + [Outcome(w.s.packetsToInject[0], w.s.disconnecting, error)]
  {
    hide Inv;
    hide Outcome;
    InvKeeps(w, Inject(error));
  }

  /** Every packet of the socket is past its deadline whenever a pass looks at the clock. */
  ghost predicate AllLate(q: seq<Packet>, attempts: seq<Attempt>, clock: seq<nat>) {
    && |attempts| == |clock| == |q|
    && forall i :: 0 <= i < |q| ==> Expired(q[i], attempts[i].now) && Expired(q[i], clock[i])
  }

  /** One delivery pass, whatever buffers and client do, then one full reinjection. */
  function Drained(w: World, attempts: seq<Attempt>, clock: seq<nat>, errors: seq<bool>): World
    requires |attempts| == |clock| == |w.s.pendingQueue| && !w.s.injectionMutexHeld
  {
    InjectAll(Apply(Apply(w, Deliver(attempts)), Take(All, clock)), errors)
  }

  lemma {:induction false} AllSelected(q: seq<Packet>)
    ensures Select(q, All) == q && Without(q, All) == []
  {
    if q != [] {
      AllSelected(q[1..]);
      assert q == [q[0]] + q[1..];
    }
  }

  /** After the delivery pass nothing keeps the reinjection from taking the whole queue. */
  lemma LateQueueIsTaken(q: seq<Packet>, attempts: seq<Attempt>, clock: seq<nat>)
    requires AllLate(q, attempts, clock)
    ensures var q' := AfterDelivery(q, attempts);
            && Reach(q', All, clock) == |q| && AfterCollect(q', All, clock) == []
            && |Collected(q', All, clock)| == |q|
            && (forall i :: 0 <= i < |q| ==> Collected(q', All, clock)[i] == Latched(q'[i], clock[i]))
    ensures Done(q, attempts) == |q|
  {
    hide Done;
    hide Reach;
    hide Select;
    hide Without;
    var q' := AfterDelivery(q, attempts);
    assert Done(q, attempts) == |q|;
    assert Reach(q', All, clock) == |q| by {
      assert forall i :: 0 <= i < |q| ==> !Blocks(q'[i], All, clock[i]);
    }
    assert q'[..|q|] == q';
    AllSelected(q');
    AllSelected(LatchedAll(q', clock));
  }

  // only reported packets are allowed, and a delivery pass leaves those alone
  lemma DeliveryKeepsVerdicts(w: World, attempts: seq<Attempt>)
    requires Inv(w) && |attempts| >= |w.s.pendingQueue|
    ensures var q := w.s.pendingQueue;
            forall i :: 0 <= i < |q| ==> AfterDelivery(q, attempts)[i].allowData == q[i].allowData
  {
    hide Done;
    var q := w.s.pendingQueue;
    assert AllCoherent(q);
    forall i | 0 <= i < |q| ensures AfterDelivery(q, attempts)[i].allowData == q[i].allowData {
      assert q[i] in q && Coherent(q[i]);
    }
  }

  /** The two passes before the injections. */
  lemma DrainPasses(w: World, attempts: seq<Attempt>, clock: seq<nat>)
    requires Inv(w) && !w.s.injectionMutexHeld && AllLate(w.s.pendingQueue, attempts, clock)
    ensures var q, w2 := w.s.pendingQueue, Apply(Apply(w, Deliver(attempts)), Take(All, clock));
            && Inv(w2) && w2.s.pendingQueue == [] && w2.inFlight == w.inFlight && w2.consumed == w.consumed
            && |w2.s.packetsToInject| == |q| && w2.s.disconnecting == w.s.disconnecting
            && forall i :: 0 <= i < |q| ==>
                 TicketOf(w2.s.packetsToInject[i]) == TicketOf(q[i]) && w2.s.packetsToInject[i].allowData == q[i].allowData
  {
    hide Inv;
    hide Done;
    hide Reach;
    hide AfterCollect;
    hide Collected;
    hide Waiting;
    hide Waiters;
    LateQueueIsTaken(w.s.pendingQueue, attempts, clock);
    DeliveryKeepsVerdicts(w, attempts);
    InvKeeps(w, Deliver(attempts));
    InvKeeps(Apply(w, Deliver(attempts)), Take(All, clock));
  }

  /** Deadline drain: the queue and all counters end up empty, and the packets that are dropped are exactly those without an
      allow verdict on them, or all if the socket is disconnecting. */
  lemma DeadlineDrain(w: World, attempts: seq<Attempt>, clock: seq<nat>, errors: seq<bool>)
    requires Inv(w) && w.inFlight == [] && !w.s.injectionMutexHeld
    requires AllLate(w.s.pendingQueue, attempts, clock) && |errors| == |w.s.pendingQueue|
    ensures var q, w' := w.s.pendingQueue, Drained(w, attempts, clock, errors);
            && Inv(w') && w'.s.pendingQueue == [] && w'.s.packetsToInject == [] && w'.s.packetsWaitingForReporting == 0
            && (forall d :: Packets(w'.s, d) == 0 && PendingBytes(w'.s, d) == 0)
            && |w'.consumed| == |w.consumed| + |q| && w.consumed <= w'.consumed
            && forall i :: 0 <= i < |q| ==>
                 var r := w'.consumed[|w.consumed| + i];
                 && r.ticket == TicketOf(q[i])
                 && (r.fate == Dropped <==> !q[i].allowData || w.s.disconnecting)
                 && (r.fate == Dropped ==> r.freedByFilter)
                 && (!Allowed(w, q[i].dataIndex) ==> r.fate == Dropped)
  {
    var q := w.s.pendingQueue;
    AllowedOnly(w);
    hide Inv;
    hide Apply;
    DrainPasses(w, attempts, clock);
    var w2 := Apply(Apply(w, Deliver(attempts)), Take(All, clock));
    InjectAllEmpties(w2, errors);
    EmptyMeansZero(InjectAll(w2, errors));
  }

  lemma AllowedOnly(w: World)
    requires Inv(w)
    ensures forall i :: 0 <= i < |w.s.pendingQueue| && w.s.pendingQueue[i].allowData ==> Allowed(w, w.s.pendingQueue[i].dataIndex)
  {
    hide WellFormed;
    hide Placed;
    forall i | 0 <= i < |w.s.pendingQueue| && w.s.pendingQueue[i].allowData ensures Allowed(w, w.s.pendingQueue[i].dataIndex) {
      assert w.s.pendingQueue[i] in w.s.pendingQueue;
    }
  }

  lemma EmptyMeansZero(w: World)
    requires Inv(w) && w.inFlight == [] && w.s.pendingQueue == [] && w.s.packetsToInject == []
    ensures w.s.packetsWaitingForReporting == 0
    ensures forall d :: Packets(w.s, d) == 0 && PendingBytes(w.s, d) == 0
  {
    forall d ensures Packets(w.s, d) == 0 && PendingBytes(w.s, d) == 0 {
      assert CountedIn(w, d);
    }
  }
}

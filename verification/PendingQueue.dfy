/**
 The pending queue of one socket as a value: what each pass over it does to the packets,
 and what those passes leave invariant.
 */
module PendingQueue {
  // 60 seconds in the units of mach_absolute_time
  const DEADLINE: nat := 60_000_000_000

  datatype Packet = Packet(
    dataIndex: nat,
    dataLength: nat,
    totalbytes: nat,
    allocationTime: nat,
    dataInbound: bool,
    allowData: bool,
    needToBeReported: bool,
    responseReceived: bool,
    deadlineTimerExpired: bool,
    waitEntry: bool)

  // NkeSocketDataDirectionType
  datatype DataType = All | Inbound | Outbound

  predicate Concerns(t: DataType, inbound: bool) {
    t == All || inbound == t.Inbound?
  }

  /** isDeadlineTimerExpired latches its answer once it is true. */
  predicate Expired(p: Packet, now: nat) {
    p.deadlineTimerExpired || now > p.allocationTime + DEADLINE
  }

  function Latched(p: Packet, now: nat): Packet {
    p.(deadlineTimerExpired := Expired(p, now))
  }

  // ---------------------------------------------------------------- the passes

  /** One attempt to report a packet: whether buffers or client failed, and when the deadline was looked at. */
  datatype Attempt = Attempt(failed: bool, now: nat)

  /** A failed attempt ends the delivery pass unless the packet is past its deadline. */
  predicate Stops(p: Packet, a: Attempt) {
    p.needToBeReported && a.failed && !Expired(p, a.now)
  }

  function Delivered(p: Packet, a: Attempt): Packet {
    if !p.needToBeReported then p
    else
      var q := p.(needToBeReported := false, waitEntry := false);
      if a.failed then q.(deadlineTimerExpired := true, allowData := false) else q
  }

  /** How many packets of the queue a delivery pass gets through. */
  function Done(q: seq<Packet>, attempts: seq<Attempt>): (n: nat)
    requires |attempts| >= |q|
    ensures n <= |q|
    ensures forall i :: 0 <= i < n ==> !Stops(q[i], attempts[i])
    ensures n < |q| ==> Stops(q[n], attempts[n])
  {
    if q == [] || Stops(q[0], attempts[0]) then 0 else 1 + Done(q[1..], attempts[1..])
  }

  function AfterDelivery(q: seq<Packet>, attempts: seq<Attempt>): (q': seq<Packet>)
    requires |attempts| >= |q|
    ensures |q'| == |q|
  {
    var n := Done(q, attempts);
    seq(|q|, i requires 0 <= i < |q| => if i < n then Delivered(q[i], attempts[i]) else q[i])
  }

  /** setDeferredDataProperties: the verdict reaches the first reported packet with that index. */
  function AfterVerdict(q: seq<Packet>, index: nat, allow: bool): seq<Packet> {
    if q == [] || q[0].needToBeReported then q
    else if q[0].dataIndex == index then [q[0].(allowData := allow, responseReceived := true)] + q[1..]
    else [q[0]] + AfterVerdict(q[1..], index, allow)
  }

  /** Reinjection stops in front of a packet of its direction that is neither answered nor past its deadline. */
  predicate Blocks(p: Packet, t: DataType, now: nat) {
    Concerns(t, p.dataInbound) && (p.needToBeReported || (!Expired(p, now) && !p.responseReceived))
  }

  function Reach(q: seq<Packet>, t: DataType, clock: seq<nat>): (n: nat)
    requires |clock| >= |q|
    ensures n <= |q|
    ensures forall i :: 0 <= i < n ==> !Blocks(q[i], t, clock[i])
    ensures n < |q| ==> Blocks(q[n], t, clock[n])
  {
    if q == [] || Blocks(q[0], t, clock[0]) then 0 else 1 + Reach(q[1..], t, clock[1..])
  }

  function Select(q: seq<Packet>, t: DataType): seq<Packet> {
    if q == [] then []
    else (if Concerns(t, q[0].dataInbound) then [q[0]] else []) + Select(q[1..], t)
  }

  function Without(q: seq<Packet>, t: DataType): seq<Packet> {
    if q == [] then []
    else (if Concerns(t, q[0].dataInbound) then [] else [q[0]]) + Without(q[1..], t)
  }

  function LatchedAll(q: seq<Packet>, clock: seq<nat>): (q': seq<Packet>)
    requires |clock| >= |q|
    ensures |q'| == |q| && forall i :: 0 <= i < |q| ==> q'[i] == Latched(q[i], clock[i])
  {
    seq(|q|, i requires 0 <= i < |q| => Latched(q[i], clock[i]))
  }

  /** The packets reinjection moves to its local list. */
  function Collected(q: seq<Packet>, t: DataType, clock: seq<nat>): seq<Packet>
    requires |clock| >= |q|
  {
    var n := Reach(q, t, clock);
    Select(LatchedAll(q[..n], clock), t)
  }

  function AfterCollect(q: seq<Packet>, t: DataType, clock: seq<nat>): seq<Packet>
    requires |clock| >= |q|
  {
    var n := Reach(q, t, clock);
    Without(q[..n], t) + q[n..]
  }

  // ---------------------------------------------------------------- what is counted and what is kept

  /** What identifies a packet to the outside. */
  datatype Ticket = Ticket(dataIndex: nat, dataInbound: bool, totalbytes: nat)

  function TicketOf(p: Packet): Ticket {
    Ticket(p.dataIndex, p.dataInbound, p.totalbytes)
  }

  /** The packets of one direction, in order. */
  function Tickets(q: seq<Packet>, inbound: bool): seq<Ticket> {
    if q == [] then []
    else (if q[0].dataInbound == inbound then [TicketOf(q[0])] else []) + Tickets(q[1..], inbound)
  }

  function Bytes(tickets: seq<Ticket>): int {
    if tickets == [] then 0 else tickets[0].totalbytes + Bytes(tickets[1..])
  }

  /** The number of packets still to be reported. */
  function Waiting(q: seq<Packet>): nat {
    if q == [] then 0 else (if q[0].needToBeReported then 1 else 0) + Waiting(q[1..])
  }

  /** The packets whose sender is blocked. */
  function Waiters(q: seq<Packet>): seq<nat> {
    if q == [] then [] else (if q[0].waitEntry then [q[0].dataIndex] else []) + Waiters(q[1..])
  }

  function Indices(q: seq<Packet>): (s: seq<nat>)
    ensures |s| == |q| && forall i :: 0 <= i < |q| ==> s[i] == q[i].dataIndex
  {
    seq(|q|, i requires 0 <= i < |q| => q[i].dataIndex)
  }

  /** A reported prefix followed by an unreported suffix. */
  ghost predicate Shape(q: seq<Packet>) {
    forall i, j :: 0 <= i < j < |q| && q[i].needToBeReported ==> q[j].needToBeReported
  }

  predicate Coherent(p: Packet) {
    && (p.allowData ==> p.responseReceived)
    && (p.responseReceived ==> !p.needToBeReported)
    && (p.waitEntry <==> p.needToBeReported && !p.dataInbound)
  }

  ghost predicate AllCoherent(q: seq<Packet>) {
    forall p :: p in q ==> Coherent(p)
  }

  // ---------------------------------------------------------------- concatenation

  lemma {:induction false} TicketsConcat(a: seq<Packet>, b: seq<Packet>, inbound: bool)
    ensures Tickets(a + b, inbound) == Tickets(a, inbound) + Tickets(b, inbound)
  {
    if a == [] {
      assert a + b == b;
    } else {
      var first := if a[0].dataInbound == inbound then [TicketOf(a[0])] else [];
      assert (a + b)[0] == a[0] && (a + b)[1..] == a[1..] + b;
      TicketsConcat(a[1..], b, inbound);
      assert first + (Tickets(a[1..], inbound) + Tickets(b, inbound)) == (first + Tickets(a[1..], inbound)) + Tickets(b, inbound);
    }
  }

  lemma {:induction false} BytesConcat(a: seq<Ticket>, b: seq<Ticket>)
    ensures Bytes(a + b) == Bytes(a) + Bytes(b)
  {
    if a == [] {
      assert a + b == b;
    } else {
      assert (a + b)[1..] == a[1..] + b;
      BytesConcat(a[1..], b);
    }
  }

  lemma WaitingConcat(a: seq<Packet>, b: seq<Packet>)
    ensures Waiting(a + b) == Waiting(a) + Waiting(b)
    ensures Waiters(a + b) == Waiters(a) + Waiters(b)
  {
    CountConcat(a, b);
    WaitersConcat(a, b);
  }

  lemma {:induction false} CountConcat(a: seq<Packet>, b: seq<Packet>)
    ensures Waiting(a + b) == Waiting(a) + Waiting(b)
  {
    if a == [] {
      assert a + b == b;
    } else {
      assert (a + b)[0] == a[0] && (a + b)[1..] == a[1..] + b;
      CountConcat(a[1..], b);
    }
  }

  lemma {:induction false} WaitersConcat(a: seq<Packet>, b: seq<Packet>)
    ensures Waiters(a + b) == Waiters(a) + Waiters(b)
  {
    if a == [] {
      assert a + b == b;
    } else {
      var first := if a[0].waitEntry then [a[0].dataIndex] else [];
      assert (a + b)[0] == a[0] && (a + b)[1..] == a[1..] + b;
      WaitersConcat(a[1..], b);
      assert first + (Waiters(a[1..]) + Waiters(b)) == (first + Waiters(a[1..])) + Waiters(b);
    }
  }

  /** Passes that do not move packets do not change what they count by ticket. */
  lemma {:induction false} SameTickets(q: seq<Packet>, q': seq<Packet>, inbound: bool)
    requires |q'| == |q| && forall i :: 0 <= i < |q| ==> TicketOf(q'[i]) == TicketOf(q[i])
    ensures Tickets(q', inbound) == Tickets(q, inbound)
  {
    if q != [] {
      assert TicketOf(q'[0]) == TicketOf(q[0]);
      SameTickets(q[1..], q'[1..], inbound);
    }
  }

  lemma {:induction false} SameWaiting(q: seq<Packet>, q': seq<Packet>)
    requires |q'| == |q|
    requires forall i :: 0 <= i < |q| ==>
               q'[i].needToBeReported == q[i].needToBeReported && q'[i].waitEntry == q[i].waitEntry && q'[i].dataIndex == q[i].dataIndex
    ensures Waiting(q') == Waiting(q) && Waiters(q') == Waiters(q)
  {
    if q != [] {
      SameWaiting(q[1..], q'[1..]);
    }
  }

  lemma {:induction false} NoneWaiting(q: seq<Packet>)
    requires forall p :: p in q ==> !p.needToBeReported && !p.waitEntry
    ensures Waiting(q) == 0 && Waiters(q) == []
  {
    if q != [] {
      NoneWaiting(q[1..]);
    }
  }

  lemma {:induction false} SomeWaiting(q: seq<Packet>, i: nat)
    requires i < |q| && q[i].needToBeReported
    ensures Waiting(q) > 0
  {
    if i > 0 {
      SomeWaiting(q[1..], i - 1);
    }
  }

  lemma {:induction false} WaitersMembers(q: seq<Packet>, x: nat)
    ensures x in Waiters(q) <==> exists p :: p in q && p.waitEntry && p.dataIndex == x
  {
    if q != [] {
      WaitersMembers(q[1..], x);
      assert forall p :: p in q <==> p == q[0] || p in q[1..];
    }
  }

  // ---------------------------------------------------------------- delivery

  lemma DeliveryShape(q: seq<Packet>, attempts: seq<Attempt>)
    requires |attempts| >= |q| && Shape(q) && AllCoherent(q)
    ensures var q', n := AfterDelivery(q, attempts), Done(q, attempts);
            && Shape(q') && AllCoherent(q')
            && q'[n..] == q[n..] && (forall p :: p in q'[..n] ==> !p.needToBeReported && !p.waitEntry)
  {
    hide Done;
    var q', n := AfterDelivery(q, attempts), Done(q, attempts);
    forall p | p in q' ensures Coherent(p) {
      var i :| 0 <= i < |q'| && q'[i] == p;
      assert q[i] in q;
    }
    forall p | p in q'[..n] ensures !p.needToBeReported && !p.waitEntry {
      var i :| 0 <= i < n && q'[i] == p;
      assert q[i] in q;
    }
  }

  /** A delivery pass ends with unreported packets exactly if it stopped early; it never reorders, and it
      signals precisely the senders of the packets it got through. */
  lemma DeliveryKeeps(q: seq<Packet>, attempts: seq<Attempt>)
    requires |attempts| >= |q| && Shape(q) && AllCoherent(q)
    ensures var q', n := AfterDelivery(q, attempts), Done(q, attempts);
            && Shape(q') && AllCoherent(q')
            && Waiting(q') == Waiting(q) - Waiting(q[..n])
            && Waiters(q) == Waiters(q[..n]) + Waiters(q')
            && (Waiting(q') > 0 <==> n < |q|)
            && (forall d :: Tickets(q', d) == Tickets(q, d)) && Indices(q') == Indices(q)
  {
    hide *;
    var q', n := AfterDelivery(q, attempts), Done(q, attempts);
    DeliveryTickets(q, attempts);
    DeliveryShape(q, attempts);
    assert q == q[..n] + q[n..] && q' == q'[..n] + q'[n..];
    NoneWaiting(q'[..n]);
    WaitingConcat(q[..n], q[n..]);
    WaitingConcat(q'[..n], q'[n..]);
    if n < |q| {
      StoppedWaiting(q, attempts);
    } else {
      NoneWaiting(q[n..]);
    }
  }

  /** What a pass comes to, packet by packet: it gets as far as the first unreported packet whose report fails within 60 seconds of
      its allocation. The packets before that one are reported, those past their deadline although the report failed. */
  lemma DeliveredIff(q: seq<Packet>, attempts: seq<Attempt>, j: nat)
    requires |attempts| >= |q| && j < |q| && q[j].needToBeReported
    ensures var p' := AfterDelivery(q, attempts)[j];
            var passed := !p'.needToBeReported;
            && (passed <==> forall i :: 0 <= i <= j && q[i].needToBeReported && attempts[i].failed ==>
                              q[i].deadlineTimerExpired || attempts[i].now > q[i].allocationTime + 60 * 1_000_000_000)
            && (p'.deadlineTimerExpired <==> q[j].deadlineTimerExpired || (passed && attempts[j].failed))
            && (p'.allowData <==> q[j].allowData && !(passed && attempts[j].failed))
            && (p'.waitEntry <==> q[j].waitEntry && !passed)
            && TicketOf(p') == TicketOf(q[j]) && p'.responseReceived == q[j].responseReceived
  {
    hide Done;
  }

  lemma StoppedWaiting(q: seq<Packet>, attempts: seq<Attempt>)
    requires |attempts| >= |q| && Done(q, attempts) < |q|
    ensures Waiting(q[Done(q, attempts)..]) > 0
  {
    SomeWaiting(q[Done(q, attempts)..], 0);
  }

  lemma DeliveryTickets(q: seq<Packet>, attempts: seq<Attempt>)
    requires |attempts| >= |q|
    ensures forall d :: Tickets(AfterDelivery(q, attempts), d) == Tickets(q, d)
    ensures Indices(AfterDelivery(q, attempts)) == Indices(q)
  {
    hide Tickets;
    hide Done;
    var q' := AfterDelivery(q, attempts);
    assert forall i :: 0 <= i < |q| ==> TicketOf(q'[i]) == TicketOf(q[i]);
    hide AfterDelivery;
    forall d ensures Tickets(q', d) == Tickets(q, d) {
      SameTickets(q, q', d);
    }
  }

  // ---------------------------------------------------------------- verdicts

  /** A verdict changes at most the two verdict flags of one packet. */
  lemma VerdictKeeps(q: seq<Packet>, index: nat, allow: bool)
    requires Shape(q) && AllCoherent(q)
    ensures var q' := AfterVerdict(q, index, allow);
            && |q'| == |q| && Shape(q') && AllCoherent(q')
            && (forall i :: 0 <= i < |q| ==>
                  || q'[i] == q[i]
                  || (q[i].dataIndex == index && !q[i].needToBeReported && q'[i] == q[i].(allowData := allow, responseReceived := true)))
  {
    VerdictIsPointwise(q, index, allow);
    var q' := AfterVerdict(q, index, allow);
    forall p | p in q' ensures Coherent(p) {
      var i :| 0 <= i < |q'| && q'[i] == p;
      assert q[i] in q;
    }
  }

  lemma {:induction false} VerdictIsPointwise(q: seq<Packet>, index: nat, allow: bool)
    ensures var q' := AfterVerdict(q, index, allow);
            && |q'| == |q|
            && (forall i :: 0 <= i < |q| ==>
                  || q'[i] == q[i]
                  || (q[i].dataIndex == index && !q[i].needToBeReported && q'[i] == q[i].(allowData := allow, responseReceived := true)))
  {
    if q != [] && !q[0].needToBeReported && q[0].dataIndex != index {
      VerdictIsPointwise(q[1..], index, allow);
    }
  }

  /** In a well-shaped queue with distinct indices every reported packet is reached by a verdict for it. */
  lemma {:induction false} VerdictReaches(q: seq<Packet>, index: nat, allow: bool, i: nat)
    requires Shape(q) && i < |q| && !q[i].needToBeReported && q[i].dataIndex == index
    requires forall j :: 0 <= j < |q| && q[j].dataIndex == index ==> j == i
    ensures |AfterVerdict(q, index, allow)| == |q|
    ensures AfterVerdict(q, index, allow)[i] == q[i].(allowData := allow, responseReceived := true)
  {
    if i > 0 {
      assert !q[0].needToBeReported && q[0].dataIndex != index;
      VerdictReaches(q[1..], index, allow, i - 1);
    }
  }

  // ---------------------------------------------------------------- filtering by direction

  /** Per direction, a filter takes all packets or none. */
  lemma {:induction false} SplitTickets(q: seq<Packet>, t: DataType, inbound: bool)
    ensures Tickets(Select(q, t), inbound) == if Concerns(t, inbound) then Tickets(q, inbound) else []
    ensures Tickets(Without(q, t), inbound) == if Concerns(t, inbound) then [] else Tickets(q, inbound)
  {
    if q != [] {
      SplitTickets(q[1..], t, inbound);
      SplitCons(q, t);
      TicketsCons(q[0], Select(q[1..], t), inbound);
      TicketsCons(q[0], Without(q[1..], t), inbound);
      hide Select;
      hide Without;
    }
  }

  lemma TicketsCons(p: Packet, q: seq<Packet>, inbound: bool)
    ensures Tickets([p] + q, inbound) == (if p.dataInbound == inbound then [TicketOf(p)] else []) + Tickets(q, inbound)
  {
    assert ([p] + q)[1..] == q;
  }

  lemma {:induction false} SplitMembers(q: seq<Packet>, t: DataType, p: Packet)
    ensures p in Select(q, t) <==> p in q && Concerns(t, p.dataInbound)
    ensures p in Without(q, t) <==> p in q && !Concerns(t, p.dataInbound)
  {
    if q != [] {
      SplitMembers(q[1..], t, p);
      assert p in q <==> p == q[0] || p in q[1..];
    }
  }

  lemma SplitCons(q: seq<Packet>, t: DataType)
    requires q != []
    ensures Select(q, t) == if Concerns(t, q[0].dataInbound) then [q[0]] + Select(q[1..], t) else Select(q[1..], t)
    ensures Without(q, t) == if Concerns(t, q[0].dataInbound) then Without(q[1..], t) else [q[0]] + Without(q[1..], t)
  {
  }

  lemma IndicesConcat(a: seq<Packet>, b: seq<Packet>)
    ensures Indices(a + b) == Indices(a) + Indices(b)
  {
  }

  // two parts of a list that one more element is prepended to
  lemma UnionCons(first: seq<nat>, a: seq<nat>, b: seq<nat>, c: seq<nat>)
    requires multiset(a) + multiset(b) == multiset(c)
    ensures multiset(first + a) + multiset(b) == multiset(first + c)
    ensures multiset(a) + multiset(first + b) == multiset(first + c)
  {
    assert multiset(first + a) == multiset(first) + multiset(a);
    assert multiset(first + b) == multiset(first) + multiset(b);
    assert multiset(first + c) == multiset(first) + multiset(c);
  }

  lemma {:induction false} SplitWaiting(q: seq<Packet>, t: DataType)
    ensures Waiting(Select(q, t)) + Waiting(Without(q, t)) == Waiting(q)
    ensures multiset(Waiters(Select(q, t))) + multiset(Waiters(Without(q, t))) == multiset(Waiters(q))
  {
    if q != [] {
      SplitWaiting(q[1..], t);
      SplitCons(q, t);
      var sel, wo := Select(q[1..], t), Without(q[1..], t);
      hide *;
      assert q == [q[0]] + q[1..];
      WaitingConcat([q[0]], q[1..]);
      WaitingConcat([q[0]], sel);
      WaitingConcat([q[0]], wo);
      UnionCons(Waiters([q[0]]), Waiters(sel), Waiters(wo), Waiters(q[1..]));
    }
  }

  lemma {:induction false} SplitIndices(q: seq<Packet>, t: DataType)
    ensures multiset(Indices(Select(q, t))) + multiset(Indices(Without(q, t))) == multiset(Indices(q))
  {
    if q != [] {
      SplitIndices(q[1..], t);
      SplitCons(q, t);
      var sel, wo := Select(q[1..], t), Without(q[1..], t);
      hide *;
      assert q == [q[0]] + q[1..];
      IndicesConcat([q[0]], q[1..]);
      IndicesConcat([q[0]], sel);
      IndicesConcat([q[0]], wo);
      UnionCons(Indices([q[0]]), Indices(sel), Indices(wo), Indices(q[1..]));
    }
  }

  lemma ShapeTail(p: Packet, r: seq<Packet>)
    ensures Shape([p] + r) <==> Shape(r) && (p.needToBeReported ==> forall x :: x in r ==> x.needToBeReported)
  {
    var q := [p] + r;
    if Shape(q) {
      forall i, j | 0 <= i < j < |r| && r[i].needToBeReported ensures r[j].needToBeReported {
        assert q[i + 1] == r[i] && q[j + 1] == r[j];
      }
      forall x | x in r && p.needToBeReported ensures x.needToBeReported {
        var k :| 0 <= k < |r| && r[k] == x;
        assert q[0] == p && q[k + 1] == x;
      }
    }
  }

  ghost predicate Among(a: seq<Packet>, b: seq<Packet>) {
    forall k :: 0 <= k < |a| ==> a[k] in b
  }

  // a well-shaped list whose tail is thinned out
  lemma ShapeThinned(p: Packet, r: seq<Packet>, r': seq<Packet>)
    requires Shape([p] + r) && Shape(r') && Among(r', r)
    ensures Shape(r) && Shape([p] + r')
  {
    ShapeTail(p, r);
    ShapeTail(p, r');
  }

  lemma WithoutMembers(a: seq<Packet>, b: seq<Packet>, t: DataType)
    ensures Among(Without(a, t) + b, a + b)
  {
    var rest := Without(a, t) + b;
    forall k | 0 <= k < |rest| ensures rest[k] in a + b {
      SplitMembers(a, t, rest[k]);
    }
  }

  lemma ConsAssociates(p: Packet, x: seq<Packet>, b: seq<Packet>)
    ensures ([p] + x) + b == [p] + (x + b)
  {
  }

  lemma HeadAndTail(a: seq<Packet>)
    requires a != []
    ensures a == [a[0]] + a[1..]
  {
  }

  lemma ConsParts(a: seq<Packet>, b: seq<Packet>, t: DataType)
    requires a != []
    ensures a + b == [a[0]] + (a[1..] + b)
    ensures Without(a, t) + b
            == if Concerns(t, a[0].dataInbound) then Without(a[1..], t) + b else [a[0]] + (Without(a[1..], t) + b)
  {
    hide *;
    HeadAndTail(a);
    SplitCons(a, t);
    ConsAssociates(a[0], a[1..], b);
    ConsAssociates(a[0], Without(a[1..], t), b);
  }

  /** Leaving packets out of a prefix keeps the shape. */
  lemma {:induction false} WithoutShape(a: seq<Packet>, b: seq<Packet>, t: DataType)
    requires Shape(a + b)
    ensures Shape(Without(a, t) + b)
    decreases |a|
  {
    if a == [] {
      hide Shape;
      assert Without(a, t) + b == a + b;
    } else {
      hide *;
      var p, tail, rest := a[0], a[1..] + b, Without(a[1..], t) + b;
      ConsParts(a, b, t);
      ShapeTail(p, tail);
      WithoutShape(a[1..], b, t);
      if !Concerns(t, p.dataInbound) {
        WithoutMembers(a[1..], b, t);
        ShapeThinned(p, tail, rest);
      }
    }
  }

  // ---------------------------------------------------------------- reinjection and purge

  /** Per direction, reinjection takes a prefix of the packets; what it takes is reported and nobody waits for it. */
  lemma CollectKeeps(q: seq<Packet>, t: DataType, clock: seq<nat>)
    requires |clock| >= |q| && Shape(q) && AllCoherent(q)
    ensures var taken, kept := Collected(q, t, clock), AfterCollect(q, t, clock);
            && Shape(kept) && AllCoherent(kept) && AllCoherent(taken)
            && (forall p :: p in taken ==> !p.needToBeReported && !p.waitEntry)
            && Waiting(kept) == Waiting(q)
            && multiset(Waiters(kept)) == multiset(Waiters(q))
            && (forall d :: Tickets(taken, d) + Tickets(kept, d) == Tickets(q, d))
            && multiset(Indices(taken)) + multiset(Indices(kept)) == multiset(Indices(q))
  {
    hide *;
    CollectShape(q, t, clock);
    CollectedAreReady(q, t, clock);
    CollectTickets(q, t, clock);
    CollectWaiting(q, t, clock);
    CollectIndices(q, t, clock);
  }

  lemma CollectUnfolds(q: seq<Packet>, t: DataType, clock: seq<nat>) returns (a: seq<Packet>, b: seq<Packet>)
    requires |clock| >= |q|
    ensures q == a + b && |a| <= |clock|
    ensures Collected(q, t, clock) == Select(LatchedAll(a, clock), t) && AfterCollect(q, t, clock) == Without(a, t) + b
  {
    var n := Reach(q, t, clock);
    a, b := q[..n], q[n..];
  }

  lemma CollectShape(q: seq<Packet>, t: DataType, clock: seq<nat>)
    requires |clock| >= |q| && Shape(q) && AllCoherent(q)
    ensures Shape(AfterCollect(q, t, clock)) && AllCoherent(AfterCollect(q, t, clock)) && AllCoherent(Collected(q, t, clock))
  {
    hide Shape;
    hide AfterCollect;
    hide Collected;
    var a, b := CollectUnfolds(q, t, clock);
    WithoutShape(a, b, t);
    KeptAreMembers(q, t, clock);
    CollectedAreReady(q, t, clock);
  }

  lemma CollectWaiting(q: seq<Packet>, t: DataType, clock: seq<nat>)
    requires |clock| >= |q| && AllCoherent(q)
    ensures Waiting(AfterCollect(q, t, clock)) == Waiting(q)
    ensures multiset(Waiters(AfterCollect(q, t, clock))) == multiset(Waiters(q))
  {
    hide *;
    var a, b := CollectUnfolds(q, t, clock);
    CollectedAreReady(q, t, clock);
    NoneWaiting(Collected(q, t, clock));
    LatchKeeps(a, clock, t);
    SplitWaiting(a, t);
    WaitingConcat(Without(a, t), b);
    WaitingConcat(a, b);
    assert multiset(Waiters(Without(a, t))) == multiset(Waiters(a));
  }

  lemma CollectIndices(q: seq<Packet>, t: DataType, clock: seq<nat>)
    requires |clock| >= |q|
    ensures multiset(Indices(Collected(q, t, clock))) + multiset(Indices(AfterCollect(q, t, clock))) == multiset(Indices(q))
  {
    hide *;
    var a, b := CollectUnfolds(q, t, clock);
    LatchKeeps(a, clock, t);
    SplitIndices(a, t);
    IndicesConcat(Without(a, t), b);
    IndicesConcat(a, b);
  }

  lemma CollectTickets(q: seq<Packet>, t: DataType, clock: seq<nat>)
    requires |clock| >= |q|
    ensures forall d :: Tickets(Collected(q, t, clock), d) + Tickets(AfterCollect(q, t, clock), d) == Tickets(q, d)
  {
    hide *;
    forall d ensures Tickets(Collected(q, t, clock), d) + Tickets(AfterCollect(q, t, clock), d) == Tickets(q, d) {
      CollectTicketsOf(q, t, clock, d);
    }
  }

  lemma CollectTicketsOf(q: seq<Packet>, t: DataType, clock: seq<nat>, d: bool)
    requires |clock| >= |q|
    ensures Tickets(Collected(q, t, clock), d) + Tickets(AfterCollect(q, t, clock), d) == Tickets(q, d)
  {
    hide Tickets;
    hide Select;
    hide Without;
    hide Reach;
    var n := Reach(q, t, clock);
    var a, b := q[..n], q[n..];
    var la := LatchedAll(a, clock);
    assert q == a + b;
    SameTickets(a, la, d);
    SplitTickets(la, t, d);
    SplitTickets(a, t, d);
    TicketsConcat(Without(a, t), b, d);
    TicketsConcat(a, b, d);
  }

  lemma KeptAreMembers(q: seq<Packet>, t: DataType, clock: seq<nat>)
    requires |clock| >= |q|
    ensures forall p :: p in AfterCollect(q, t, clock) ==> p in q
  {
    var n := Reach(q, t, clock);
    forall p | p in AfterCollect(q, t, clock) ensures p in q {
      SplitMembers(q[..n], t, p);
    }
  }

  lemma CollectedAreReady(q: seq<Packet>, t: DataType, clock: seq<nat>)
    requires |clock| >= |q| && AllCoherent(q)
    ensures forall p :: p in Collected(q, t, clock) ==> Coherent(p) && !p.needToBeReported && !p.waitEntry
    ensures forall p :: p in Collected(q, t, clock) ==>
              exists i :: 0 <= i < Reach(q, t, clock) && Concerns(t, p.dataInbound) && p == Latched(q[i], clock[i])
  {
    var n := Reach(q, t, clock);
    var la := LatchedAll(q[..n], clock);
    forall p | p in Collected(q, t, clock)
      ensures Coherent(p) && !p.needToBeReported && !p.waitEntry
      ensures exists i :: 0 <= i < n && Concerns(t, p.dataInbound) && p == Latched(q[i], clock[i])
    {
      SplitMembers(la, t, p);
      var i :| 0 <= i < n && la[i] == p;
      assert q[i] in q && !Blocks(q[i], t, clock[i]) && p == Latched(q[i], clock[i]);
    }
  }

  /** Latching changes neither who waits nor which packets a filter picks. */
  lemma {:induction false} LatchKeeps(q: seq<Packet>, clock: seq<nat>, t: DataType)
    requires |clock| >= |q|
    ensures Waiting(Select(LatchedAll(q, clock), t)) == Waiting(Select(q, t))
    ensures Waiters(Select(LatchedAll(q, clock), t)) == Waiters(Select(q, t))
    ensures Indices(Select(LatchedAll(q, clock), t)) == Indices(Select(q, t))
  {
    if q != [] {
      var la := LatchedAll(q, clock);
      assert la[1..] == LatchedAll(q[1..], clock[1..]);
      LatchKeeps(q[1..], clock[1..], t);
      hide Waiting;
      hide Waiters;
      SplitCons(q, t);
      SplitCons(la, t);
      if Concerns(t, q[0].dataInbound) {
        LatchOne(q[0], clock[0]);
        WaitingConcat([q[0]], Select(q[1..], t));
        WaitingConcat([la[0]], Select(la[1..], t));
        IndicesConcat([q[0]], Select(q[1..], t));
        IndicesConcat([la[0]], Select(la[1..], t));
      }
    }
  }

  lemma LatchOne(p: Packet, now: nat)
    ensures Waiting([Latched(p, now)]) == Waiting([p]) && Waiters([Latched(p, now)]) == Waiters([p])
    ensures Indices([Latched(p, now)]) == Indices([p])
  {
  }

  /** A purge takes all packets of its directions and leaves a well-shaped queue. */
  lemma PurgeKeeps(q: seq<Packet>, t: DataType)
    requires Shape(q) && AllCoherent(q)
    ensures var purged, kept := Select(q, t), Without(q, t);
            && Shape(kept) && AllCoherent(kept)
            && Waiting(purged) + Waiting(kept) == Waiting(q)
            && multiset(Waiters(purged)) + multiset(Waiters(kept)) == multiset(Waiters(q))
            && multiset(Indices(purged)) + multiset(Indices(kept)) == multiset(Indices(q))
            && (forall d :: Tickets(purged, d) + Tickets(kept, d) == Tickets(q, d))
  {
    assert q == q + [];
    WithoutShape(q, [], t);
    assert Without(q, t) + [] == Without(q, t);
    forall p | p in Without(q, t) ensures Coherent(p) {
      SplitMembers(q, t, p);
    }
    SplitWaiting(q, t);
    SplitIndices(q, t);
    forall d ensures Tickets(Select(q, t), d) + Tickets(Without(q, t), d) == Tickets(q, d) {
      SplitTickets(q, t, d);
    }
  }
}

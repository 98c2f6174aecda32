/**
 One packet over a run of its socket: how it is queued, until when it holds up a reinjection, which packets a reinjection
 takes, and who frees a buffer in the end. Everything is read off the steps of the run.
 */
module SocketPackets {
  import opened PendingQueue
  import opened SocketState
  import opened SocketRuns
  import Notices = SocketNotices

  lemma InvAt(worlds: seq<World>, steps: seq<Step>, n: nat)
    requires IsRun(worlds, steps) && n <= |steps|
    ensures Inv(worlds[n]) && Notices.Noticed(worlds[n])
  {
    hide Inv;
    hide Apply;
    hide Enabled;
    hide Fresh;
    assert IsRun(worlds[..n + 1], steps[..n]);
    Notices.RunNoticed(worlds[..n + 1], steps[..n]);
  }

  // ---------------------------------------------------------------- queueing

  lemma NobodyWaits(w: World)
    requires WellFormed(w)
    ensures w.s.packetsWaitingForReporting == 0 <==> forall p :: p in w.s.pendingQueue ==> !p.needToBeReported
  {
    var q := w.s.pendingQueue;
    if Waiting(q) == 0 {
      forall p | p in q ensures !p.needToBeReported {
        NoNeed(q, p);
      }
    } else if forall p :: p in q ==> !p.needToBeReported {
      assert AllCoherent(q);
      NoneWaiting(q);
    }
  }

  /** FltData queues a packet as reported exactly if its copy succeeded and no queued packet is unreported. Only then is the
      client to be notified at once; only otherwise is the sender of an outbound packet blocked. */
  lemma QueuedIff(worlds: seq<World>, steps: seq<Step>, k: nat)
    requires IsRun(worlds, steps) && k < |steps| && steps[k].Enqueue?
    ensures steps[k].i < |worlds[k].inFlight|
    ensures var w, w', p := worlds[k], worlds[k + 1], worlds[k].inFlight[steps[k].i];
            var waits := steps[k].copyFailed || exists r :: r in w.s.pendingQueue && r.needToBeReported;
            && w'.s.pendingQueue == w.s.pendingQueue + [p.(needToBeReported := waits, waitEntry := waits && !p.dataInbound)]
            && (p.dataIndex in w'.unsent <==> !waits)
            && w'.blocked == w.blocked + if waits && !p.dataInbound then [p.dataIndex] else []
  {
    InvAt(worlds, steps, k);
    hide Waiting;
    hide Shape;
    var w, e := worlds[k], steps[k];
    NobodyWaits(w);
    assert w.inFlight[e.i] in w.inFlight;
    assert Notices.NoticedAt(w, w.inFlight[e.i].dataIndex);
    BlockedOne(Queued(w.s, w.inFlight[e.i], e.copyFailed));
    hide Waiters;
  }

  lemma BlockedOne(p: Packet)
    ensures Waiters([p]) == if p.waitEntry then [p.dataIndex] else []
  {
    assert Waiters([p]) == (if p.waitEntry then [p.dataIndex] else []) + Waiters([]);
  }

  // ---------------------------------------------------------------- what a step means for one packet

  /** The verdict of this step reaches packet x, which is queued and reported. */
  predicate Rules(w: World, e: Step, x: nat, allow: bool) {
    e == Verdict(x, allow) && exists p :: p in w.s.pendingQueue && p.dataIndex == x && !p.needToBeReported
  }

  /** The delivery pass of this step goes past packet x although its report has failed. */
  predicate Skips(w: World, e: Step, x: nat) {
    e.Deliver? && |e.attempts| >= |w.s.pendingQueue| && x in Skipped(w.s.pendingQueue, e.attempts)
  }

  /** p' is p after the step, whichever list it is in by then. */
  predicate Follows(w: World, e: Step, p: Packet, p': Packet) {
    var x := p.dataIndex;
    && p'.dataIndex == x && p'.dataLength == p.dataLength && p'.totalbytes == p.totalbytes
    && p'.allocationTime == p.allocationTime && p'.dataInbound == p.dataInbound
    && (p'.responseReceived <==> p.responseReceived || Rules(w, e, x, true) || Rules(w, e, x, false))
    && (p'.allowData <==> Rules(w, e, x, true) || (p.allowData && !Rules(w, e, x, false)))
  }

  predicate FollowsQueued(w: World, e: Step, p: Packet, p': Packet) {
    Follows(w, e, p, p') && (p'.deadlineTimerExpired <==> p.deadlineTimerExpired || Skips(w, e, p.dataIndex))
  }

  // steps that neither rule nor deliver leave a packet as it is
  lemma FollowsItself(w: World, e: Step, p: Packet)
    requires !e.Verdict? && !e.Deliver?
    ensures FollowsQueued(w, e, p, p)
  {
  }

  // a packet that is not in the queue is not reached
  lemma FollowsOutside(w: World, e: Step, p: Packet)
    requires forall j :: 0 <= j < |w.s.pendingQueue| ==> w.s.pendingQueue[j].dataIndex != p.dataIndex
    ensures FollowsQueued(w, e, p, p)
  {
    if e.Deliver? && |e.attempts| >= |w.s.pendingQueue| {
      Notices.NoticedElsewhere(w.s.pendingQueue, e.attempts, p.dataIndex);
    }
    hide Skipped;
  }

  lemma OneOfItsIndex(w: World, i: nat)
    requires Inv(w) && i < |w.s.pendingQueue|
    ensures var q := w.s.pendingQueue;
            && (forall j :: 0 <= j < |q| && j != i ==> q[j].dataIndex != q[i].dataIndex)
            && Coherent(q[i]) && Shape(q) && AllCoherent(q)
  {
    var q := w.s.pendingQueue;
    assert q[i] in q && PlacedAt(w, q[i].dataIndex);
    hide Inv;
    hide PlacedAt;
    QueuedIsUnique(w, i);
  }

  lemma DeliverFollows(w: World, attempts: seq<Attempt>, i: nat)
    requires Inv(w) && |attempts| == |w.s.pendingQueue| && i < |w.s.pendingQueue|
    ensures FollowsQueued(w, Deliver(attempts), w.s.pendingQueue[i], AfterDelivery(w.s.pendingQueue, attempts)[i])
  {
    OneOfItsIndex(w, i);
    hide Inv;
    hide Shape;
    hide AllCoherent;
    hide Done;
    hide Reported;
    Notices.DeliveredOne(w.s.pendingQueue, attempts, i);
    hide Skipped;
  }

  // which packet a verdict is for
  lemma RulesIff(w: World, index: nat, allow: bool, i: nat, b: bool)
    requires i < |w.s.pendingQueue|
    requires forall j :: 0 <= j < |w.s.pendingQueue| && j != i ==> w.s.pendingQueue[j].dataIndex != w.s.pendingQueue[i].dataIndex
    ensures Rules(w, Verdict(index, allow), w.s.pendingQueue[i].dataIndex, b) <==>
              b == allow && index == w.s.pendingQueue[i].dataIndex && !w.s.pendingQueue[i].needToBeReported
  {
    var q := w.s.pendingQueue;
    assert q[i] in q;
    if p :| p in q && p.dataIndex == q[i].dataIndex && !p.needToBeReported {
      var j :| 0 <= j < |q| && q[j] == p;
      assert j == i;
    }
  }

  lemma VerdictOne(q: seq<Packet>, index: nat, allow: bool, i: nat)
    requires Shape(q) && AllCoherent(q) && i < |q|
    requires forall j :: 0 <= j < |q| && j != i ==> q[j].dataIndex != q[i].dataIndex
    ensures |AfterVerdict(q, index, allow)| == |q|
    ensures AfterVerdict(q, index, allow)[i] ==
            if q[i].dataIndex == index && !q[i].needToBeReported then q[i].(allowData := allow, responseReceived := true) else q[i]
  {
    hide AfterVerdict;
    VerdictIsPointwise(q, index, allow);
    if q[i].dataIndex == index && !q[i].needToBeReported {
      VerdictReaches(q, index, allow, i);
    }
    hide Shape;
    hide AllCoherent;
  }

  lemma VerdictFollows(w: World, index: nat, allow: bool, i: nat)
    requires Inv(w) && i < |w.s.pendingQueue|
    ensures |AfterVerdict(w.s.pendingQueue, index, allow)| == |w.s.pendingQueue|
    ensures FollowsQueued(w, Verdict(index, allow), w.s.pendingQueue[i], AfterVerdict(w.s.pendingQueue, index, allow)[i])
  {
    OneOfItsIndex(w, i);
    hide Inv;
    RulesIff(w, index, allow, i, true);
    RulesIff(w, index, allow, i, false);
    VerdictOne(w.s.pendingQueue, index, allow, i);
    hide AfterVerdict;
    hide Shape;
    hide AllCoherent;
    hide Rules;
  }

  // the packet of the old queue that stands at the same place
  lemma SamePlace(w: World, e: Step, p': Packet) returns (p: Packet)
    requires Inv(w) && Enabled(w, e) && (e.Deliver? || e.Verdict?) && p' in Apply(w, e).s.pendingQueue
    ensures p in w.s.pendingQueue && FollowsQueued(w, e, p, p')
  {
    hide Inv;
    hide FollowsQueued;
    hide AfterVerdict;
    hide AfterDelivery;
    var q := w.s.pendingQueue;
    match e
    case Deliver(attempts) =>
      var i :| 0 <= i < |q| && AfterDelivery(q, attempts)[i] == p';
      p := q[i];
      DeliverFollows(w, attempts, i);
    case Verdict(index, allow) =>
      VerdictLength(q, index, allow);
      var i :| 0 <= i < |q| && AfterVerdict(q, index, allow)[i] == p';
      p := q[i];
      VerdictFollows(w, index, allow, i);
  }

  lemma VerdictLength(q: seq<Packet>, index: nat, allow: bool)
    ensures |AfterVerdict(q, index, allow)| == |q|
  {
    VerdictIsPointwise(q, index, allow);
  }

  lemma EnqueueFollows(w: World, i: nat, copyFailed: bool, p': Packet) returns (p: Packet)
    requires i < |w.inFlight| && p' in Apply(w, Enqueue(i, copyFailed)).s.pendingQueue
    ensures (p in w.s.pendingQueue || p in w.inFlight) && FollowsQueued(w, Enqueue(i, copyFailed), p, p')
  {
    p := if p' in w.s.pendingQueue then p' else w.inFlight[i];
  }

  /** Where a packet of the queue comes from. */
  lemma QueueFollows(w: World, e: Step, p': Packet) returns (p: Packet)
    requires Inv(w) && Enabled(w, e) && p' in Apply(w, e).s.pendingQueue
    ensures (p in w.s.pendingQueue || p in w.inFlight) && FollowsQueued(w, e, p, p')
  {
    hide Inv;
    hide AfterVerdict;
    hide AfterDelivery;
    hide AfterCollect;
    hide Collected;
    hide Without;
    hide Waiters;
    hide Waiting;
    hide Tickets;
    hide Bytes;
    hide FollowsQueued;
    p := p';
    match e
    case Deliver(_) => p := SamePlace(w, e, p');
    case Verdict(_, _) => p := SamePlace(w, e, p');
    case Enqueue(i, copyFailed) => p := EnqueueFollows(w, i, copyFailed, p');
    case Take(t, clock) =>
      KeptAreMembers(w.s.pendingQueue, t, clock);
      FollowsItself(w, e, p);
    case Purge(t) =>
      PurgedAreMembers(w.s.pendingQueue, t);
      FollowsItself(w, e, p);
    case _ => FollowsItself(w, e, p);
  }

  /** A packet on its way into the queue has been there before, or is the one just allocated. */
  lemma FlightFollows(w: World, e: Step, p: Packet)
    requires Inv(w) && Enabled(w, e) && p in Apply(w, e).inFlight
    ensures if e.Allocate? && p !in w.inFlight then p == NewPacket(w.s, e.inbound, e.dataLength, e.totalbytes, e.now)
            else p in w.inFlight && FollowsQueued(w, e, p, p)
  {
    FlightStays(w, e, p);
    if p in w.inFlight {
      assert PlacedAt(w, p.dataIndex);
      Notices.PlacesDiffer(w, p.dataIndex);
      var i :| 0 <= i < |w.inFlight| && w.inFlight[i] == p;
      hide *;
      FollowsOutside(w, e, p);
    }
  }

  lemma FlightStays(w: World, e: Step, p: Packet)
    requires Enabled(w, e) && p in Apply(w, e).inFlight
    ensures p in w.inFlight || (e.Allocate? && p == NewPacket(w.s, e.inbound, e.dataLength, e.totalbytes, e.now))
  {
    hide Left;
    hide Waiters;
    hide Skipped;
    hide Reported;
  }

  /** A packet of the local list was there before, or has just been taken out of the queue. */
  lemma LocalFollows(w: World, e: Step, p': Packet) returns (p: Packet)
    requires Inv(w) && Enabled(w, e) && p' in Apply(w, e).s.packetsToInject
    ensures (p in w.s.pendingQueue || p in w.s.packetsToInject) && Follows(w, e, p, p')
  {
    p := LocalStays(w, e, p');
    if !e.Take? {
      assert PlacedAt(w, p.dataIndex);
      LocalOutside(w, p);
      hide *;
      FollowsOutside(w, e, p);
      FollowsBoth(w, e, p, p');
    }
  }

  lemma FollowsBoth(w: World, e: Step, p: Packet, p': Packet)
    requires FollowsQueued(w, e, p, p')
    ensures Follows(w, e, p, p')
  {
  }

  // an index in the local list is not in the queue
  lemma LocalOutside(w: World, p: Packet)
    requires PlacedAt(w, p.dataIndex) && p in w.s.packetsToInject
    ensures forall j :: 0 <= j < |w.s.pendingQueue| ==> w.s.pendingQueue[j].dataIndex != p.dataIndex
  {
    forall j | 0 <= j < |w.s.pendingQueue| && w.s.pendingQueue[j].dataIndex == p.dataIndex ensures false {
      QueuedIsUnique(w, j);
    }
  }

  lemma LocalStays(w: World, e: Step, p': Packet) returns (p: Packet)
    requires Inv(w) && Enabled(w, e) && p' in Apply(w, e).s.packetsToInject
    ensures if e.Take? then p in w.s.pendingQueue && Follows(w, e, p, p') else p in w.s.packetsToInject && p' == p
  {
    var q := w.s.pendingQueue;
    p := p';
    if e.Take? {
      CollectedAreReady(q, e.t, e.clock);
      var i :| 0 <= i < Reach(q, e.t, e.clock) && p' == Latched(q[i], e.clock[i]);
      p := q[i];
    }
    hide Inv;
    hide Collected;
    hide AfterCollect;
    hide Reach;
  }

  // ---------------------------------------------------------------- what the first n steps of a run say

  predicate RuledAt(worlds: seq<World>, steps: seq<Step>, j: nat, x: nat, allow: bool) {
    j < |steps| && j < |worlds| && Rules(worlds[j], steps[j], x, allow)
  }

  predicate SkippedAt(worlds: seq<World>, steps: seq<Step>, j: nat, x: nat) {
    j < |steps| && j < |worlds| && Skips(worlds[j], steps[j], x)
  }

  ghost predicate Answered(worlds: seq<World>, steps: seq<Step>, n: nat, x: nat) {
    exists j: nat, allow :: j < n && RuledAt(worlds, steps, j, x, allow)
  }

  /** The packet was allowed and not denied since. */
  ghost predicate AllowedBy(worlds: seq<World>, steps: seq<Step>, n: nat, x: nat) {
    exists j: nat :: j < n && RuledAt(worlds, steps, j, x, true) && forall l: nat :: j < l < n ==> !RuledAt(worlds, steps, l, x, false)
  }

  ghost predicate PassedOver(worlds: seq<World>, steps: seq<Step>, n: nat, x: nat) {
    exists j: nat :: j < n && SkippedAt(worlds, steps, j, x)
  }

  /** Step k: the packet is allocated. */
  predicate AllocatedAt(worlds: seq<World>, steps: seq<Step>, k: nat, p: Packet) {
    && k < |steps| && k < |worlds| && worlds[k].s.pendingDataNextIndex == p.dataIndex
    && steps[k] == Allocate(p.dataInbound, p.dataLength, p.totalbytes, p.allocationTime)
  }

  ghost predicate Allocated(worlds: seq<World>, steps: seq<Step>, n: nat, p: Packet) {
    exists k: nat :: k < n && AllocatedAt(worlds, steps, k, p)
  }

  /** What the packet says about itself agrees with the steps. */
  ghost predicate Recorded(worlds: seq<World>, steps: seq<Step>, n: nat, p: Packet) {
    && Allocated(worlds, steps, n, p)
    && (p.responseReceived <==> Answered(worlds, steps, n, p.dataIndex))
    && (p.allowData <==> AllowedBy(worlds, steps, n, p.dataIndex))
  }

  ghost predicate RecordedQueued(worlds: seq<World>, steps: seq<Step>, n: nat, p: Packet) {
    Recorded(worlds, steps, n, p) && (p.deadlineTimerExpired <==> PassedOver(worlds, steps, n, p.dataIndex))
  }

  // one more step
  lemma AnsweredMore(worlds: seq<World>, steps: seq<Step>, n: nat, x: nat)
    ensures Answered(worlds, steps, n + 1, x) <==>
              Answered(worlds, steps, n, x) || RuledAt(worlds, steps, n, x, true) || RuledAt(worlds, steps, n, x, false)
  {
    hide RuledAt;
    if Answered(worlds, steps, n + 1, x) {
      var j: nat, allow :| j < n + 1 && RuledAt(worlds, steps, j, x, allow);
      assert j == n ==> RuledAt(worlds, steps, n, x, true) || RuledAt(worlds, steps, n, x, false);
    }
  }

  lemma AllowedMore(worlds: seq<World>, steps: seq<Step>, n: nat, x: nat)
    requires !(RuledAt(worlds, steps, n, x, true) && RuledAt(worlds, steps, n, x, false))
    ensures AllowedBy(worlds, steps, n + 1, x) <==>
              RuledAt(worlds, steps, n, x, true) || (AllowedBy(worlds, steps, n, x) && !RuledAt(worlds, steps, n, x, false))
  {
    hide RuledAt;
    if AllowedBy(worlds, steps, n + 1, x) && !RuledAt(worlds, steps, n, x, true) {
      var j: nat :| j < n + 1 && RuledAt(worlds, steps, j, x, true) && forall l: nat :: j < l < n + 1 ==> !RuledAt(worlds, steps, l, x, false);
      assert j < n && forall l: nat :: j < l < n ==> !RuledAt(worlds, steps, l, x, false);
    }
    if AllowedBy(worlds, steps, n, x) && !RuledAt(worlds, steps, n, x, false) {
      var j: nat :| j < n && RuledAt(worlds, steps, j, x, true) && forall l: nat :: j < l < n ==> !RuledAt(worlds, steps, l, x, false);
      assert forall l: nat :: j < l < n + 1 ==> !RuledAt(worlds, steps, l, x, false);
    }
  }

  lemma PassedMore(worlds: seq<World>, steps: seq<Step>, n: nat, x: nat)
    ensures PassedOver(worlds, steps, n + 1, x) <==> PassedOver(worlds, steps, n, x) || SkippedAt(worlds, steps, n, x)
  {
    hide SkippedAt;
  }

  lemma AllocatedMore(worlds: seq<World>, steps: seq<Step>, n: nat, p: Packet, p': Packet)
    requires Allocated(worlds, steps, n, p)
    requires p'.dataIndex == p.dataIndex && p'.dataLength == p.dataLength && p'.totalbytes == p.totalbytes
    requires p'.allocationTime == p.allocationTime && p'.dataInbound == p.dataInbound
    ensures Allocated(worlds, steps, n + 1, p')
  {
    var k: nat :| k < n && AllocatedAt(worlds, steps, k, p);
    assert AllocatedAt(worlds, steps, k, p');
  }

  lemma RecordedMore(worlds: seq<World>, steps: seq<Step>, n: nat, p: Packet, p': Packet)
    requires n < |steps| && n < |worlds| && Recorded(worlds, steps, n, p) && Follows(worlds[n], steps[n], p, p')
    ensures Recorded(worlds, steps, n + 1, p')
    ensures RecordedQueued(worlds, steps, n, p) && FollowsQueued(worlds[n], steps[n], p, p') ==> RecordedQueued(worlds, steps, n + 1, p')
  {
    var x := p.dataIndex;
    AnsweredMore(worlds, steps, n, x);
    AllowedMore(worlds, steps, n, x);
    PassedMore(worlds, steps, n, x);
    AllocatedMore(worlds, steps, n, p, p');
    hide Rules;
    hide Skips;
    hide Answered;
    hide AllowedBy;
    hide PassedOver;
    hide Allocated;
  }

  /** Indices are handed out in order. */
  lemma {:induction false} IndicesGrow(worlds: seq<World>, steps: seq<Step>, j: nat, n: nat)
    requires IsRun(worlds, steps) && j <= n <= |steps|
    ensures worlds[j].s.pendingDataNextIndex <= worlds[n].s.pendingDataNextIndex
    ensures j < n && steps[j].Allocate? ==> worlds[j].s.pendingDataNextIndex < worlds[n].s.pendingDataNextIndex
    decreases n
  {
    hide *;
    if j < n {
      IndicesGrow(worlds, steps, j, n - 1);
      StepAt(worlds, steps, n - 1);
      NextIndex(worlds[n - 1], steps[n - 1]);
    }
  }

  lemma StepAt(worlds: seq<World>, steps: seq<Step>, n: nat)
    requires IsRun(worlds, steps) && n < |steps|
    ensures |worlds| == |steps| + 1 && Enabled(worlds[n], steps[n]) && worlds[n + 1] == Apply(worlds[n], steps[n])
  {
    hide Apply;
    hide Enabled;
  }

  lemma NextIndex(w: World, e: Step)
    requires Enabled(w, e)
    ensures Apply(w, e).s.pendingDataNextIndex == w.s.pendingDataNextIndex + if e.Allocate? then 1 else 0
  {
    hide Left;
    hide Waiters;
    hide Waiting;
    hide Tickets;
    hide Bytes;
    hide Skipped;
    hide Reported;
  }

  // the steps so far do not know an index that is still to be handed out
  lemma UnknownSoFar(worlds: seq<World>, steps: seq<Step>, n: nat, j: nat, x: nat)
    requires IsRun(worlds, steps) && j < n <= |steps| && x >= worlds[n].s.pendingDataNextIndex
    ensures forall allow :: !RuledAt(worlds, steps, j, x, allow)
    ensures !SkippedAt(worlds, steps, j, x)
  {
    InvAt(worlds, steps, j);
    IndicesGrow(worlds, steps, j, n);
    assert PlacedAt(worlds[j], x);
    Notices.PlacesDiffer(worlds[j], x);
    hide Inv;
    hide PlacedAt;
    hide IsRun;
    if steps[j].Deliver? && |steps[j].attempts| >= |worlds[j].s.pendingQueue| {
      Notices.NoticedElsewhere(worlds[j].s.pendingQueue, steps[j].attempts, x);
    }
    hide Skipped;
  }

  lemma AllocateRecords(worlds: seq<World>, steps: seq<Step>, n: nat)
    requires IsRun(worlds, steps) && n < |steps| && steps[n].Allocate?
    ensures var e := steps[n]; RecordedQueued(worlds, steps, n + 1, NewPacket(worlds[n].s, e.inbound, e.dataLength, e.totalbytes, e.now))
  {
    var e, x := steps[n], worlds[n].s.pendingDataNextIndex;
    var p := NewPacket(worlds[n].s, e.inbound, e.dataLength, e.totalbytes, e.now);
    assert AllocatedAt(worlds, steps, n, p);
    hide IsRun;
    forall j: nat | j < n ensures !RuledAt(worlds, steps, j, x, true) && !RuledAt(worlds, steps, j, x, false) && !SkippedAt(worlds, steps, j, x) {
      UnknownSoFar(worlds, steps, n, j, x);
    }
    assert !RuledAt(worlds, steps, n, x, true) && !RuledAt(worlds, steps, n, x, false) && !SkippedAt(worlds, steps, n, x);
    hide RuledAt;
    hide SkippedAt;
    forall j: nat, allow | j < n + 1 ensures !RuledAt(worlds, steps, j, x, allow) {
      if allow {} else {}
    }
  }

  /** In every run the flags of every packet agree with what has happened to it. */
  lemma {:induction false} RunRecords(worlds: seq<World>, steps: seq<Step>, n: nat)
    requires IsRun(worlds, steps) && n <= |steps|
    ensures forall p :: p in worlds[n].s.pendingQueue || p in worlds[n].inFlight ==> RecordedQueued(worlds, steps, n, p)
    ensures forall p :: p in worlds[n].s.packetsToInject ==> Recorded(worlds, steps, n, p)
    decreases n
  {
    if n > 0 {
      var m := n - 1;
      RunRecords(worlds, steps, m);
      InvAt(worlds, steps, m);
      var w, e, w' := worlds[m], steps[m], worlds[n];
      assert Enabled(w, e) && w' == Apply(w, e);
      hide *;
      forall p' | p' in w'.s.pendingQueue ensures RecordedQueued(worlds, steps, n, p') {
        var p := QueueFollows(w, e, p');
        RecordedQueuedMore(worlds, steps, m, p, p');
      }
      forall p' | p' in w'.inFlight ensures RecordedQueued(worlds, steps, n, p') {
        FlightFollows(w, e, p');
        if e.Allocate? && p' !in w.inFlight {
          AllocateRecords(worlds, steps, m);
        } else {
          RecordedQueuedMore(worlds, steps, m, p', p');
        }
      }
      forall p' | p' in w'.s.packetsToInject ensures Recorded(worlds, steps, n, p') {
        var p := LocalFollows(w, e, p');
        QueuedIsRecorded(worlds, steps, m, p);
        RecordedMore(worlds, steps, m, p, p');
      }
    } else {
      assert worlds[0].s.pendingQueue == [] && worlds[0].inFlight == [] && worlds[0].s.packetsToInject == [];
    }
  }

  lemma QueuedIsRecorded(worlds: seq<World>, steps: seq<Step>, n: nat, p: Packet)
    ensures RecordedQueued(worlds, steps, n, p) ==> Recorded(worlds, steps, n, p)
  {
  }

  lemma RecordedQueuedMore(worlds: seq<World>, steps: seq<Step>, n: nat, p: Packet, p': Packet)
    requires n < |steps| && n < |worlds| && RecordedQueued(worlds, steps, n, p) && FollowsQueued(worlds[n], steps[n], p, p')
    ensures RecordedQueued(worlds, steps, n + 1, p')
  {
    hide Recorded;
    RecordedMore(worlds, steps, n, p, p');
  }

  // ---------------------------------------------------------------- until when a packet holds up a reinjection

  // an index is handed out once
  lemma AllocatedOnce(worlds: seq<World>, steps: seq<Step>, j: nat, k: nat)
    requires IsRun(worlds, steps) && j < |steps| && k < |steps| && steps[j].Allocate? && steps[k].Allocate?
    requires worlds[j].s.pendingDataNextIndex == worlds[k].s.pendingDataNextIndex
    ensures j == k
  {
    hide IsRun;
    if j < k {
      IndicesGrow(worlds, steps, j, k);
    } else if k < j {
      IndicesGrow(worlds, steps, k, j);
    }
  }

  /** In every run a queued packet has the length, direction and time it was allocated with, and it holds up the reinjection of
      its direction exactly as long as it is unreported, and then until it is answered or 60 seconds have gone by since its
      allocation, unless a delivery pass has gone past it after a failure. */
  lemma HoldsUpIff(worlds: seq<World>, steps: seq<Step>, k: nat, p: Packet, t: DataType, time: nat)
    requires IsRun(worlds, steps) && p in worlds[|steps|].s.pendingQueue
    requires k < |steps| && steps[k].Allocate? && worlds[k].s.pendingDataNextIndex == p.dataIndex
    ensures p.dataLength == steps[k].dataLength && p.totalbytes == steps[k].totalbytes && p.dataInbound == steps[k].inbound
    ensures Blocks(p, t, time) <==>
              && (t == All || p.dataInbound == (t == Inbound))
              && (|| p.needToBeReported
                  || (&& time <= steps[k].now + 60 * 1_000_000_000
                      && !Answered(worlds, steps, |steps|, p.dataIndex) && !PassedOver(worlds, steps, |steps|, p.dataIndex)))
  {
    RunRecords(worlds, steps, |steps|);
    assert RecordedQueued(worlds, steps, |steps|, p);
    hide IsRun;
    hide Answered;
    hide PassedOver;
    hide AllowedBy;
    var j: nat :| j < |steps| && AllocatedAt(worlds, steps, j, p);
    AllocatedOnce(worlds, steps, j, k);
  }

  /** A reinjection takes a packet of its direction exactly if neither the packet nor one in front of it holds it up. */
  lemma TakenIff(w: World, t: DataType, clock: seq<nat>, i: nat)
    requires Inv(w) && Enabled(w, Take(t, clock)) && i < |w.s.pendingQueue|
    ensures var q := w.s.pendingQueue;
            (exists p :: p in Apply(w, Take(t, clock)).s.packetsToInject && p.dataIndex == q[i].dataIndex)
            <==> Concerns(t, q[i].dataInbound) && forall j :: 0 <= j <= i ==> !Blocks(q[j], t, clock[j])
  {
    var q := w.s.pendingQueue;
    assert AllCoherent(q) && PlacedAt(w, q[i].dataIndex);
    hide Inv;
    QueuedIsUnique(w, i);
    hide PlacedAt;
    hide AllCoherent;
    hide Collected;
    hide AfterCollect;
    hide Reach;
    hide Blocks;
    hide Concerns;
    ReachIff(q, t, clock, i);
    CollectedIff(q, t, clock, i);
    if p :| p in Collected(q, t, clock) && p.dataIndex == q[i].dataIndex {
      CollectedFrom(q, t, clock, p);
    }
  }

  lemma ReachIff(q: seq<Packet>, t: DataType, clock: seq<nat>, i: nat)
    requires |clock| >= |q| && i < |q|
    ensures i < Reach(q, t, clock) <==> forall j :: 0 <= j <= i ==> !Blocks(q[j], t, clock[j])
  {
    hide Blocks;
    hide Reach;
  }

  lemma CollectedIff(q: seq<Packet>, t: DataType, clock: seq<nat>, i: nat)
    requires |clock| >= |q| && i < |q|
    ensures i < Reach(q, t, clock) && Concerns(t, q[i].dataInbound) ==> Latched(q[i], clock[i]) in Collected(q, t, clock)
  {
    hide Reach;
    var n := Reach(q, t, clock);
    if i < n {
      var l := LatchedAll(q[..n], clock);
      SplitMembers(l, t, l[i]);
      assert l[i] in l;
    }
  }

  lemma CollectedFrom(q: seq<Packet>, t: DataType, clock: seq<nat>, p: Packet)
    requires |clock| >= |q| && AllCoherent(q) && p in Collected(q, t, clock)
    ensures exists j :: 0 <= j < Reach(q, t, clock) && Concerns(t, q[j].dataInbound) && p.dataIndex == q[j].dataIndex
  {
    hide Collected;
    hide Reach;
    hide Concerns;
    hide AllCoherent;
    CollectedAreReady(q, t, clock);
    var j :| 0 <= j < Reach(q, t, clock) && Concerns(t, p.dataInbound) && p == Latched(q[j], clock[j]);
    assert Concerns(t, q[j].dataInbound) && p.dataIndex == q[j].dataIndex;
  }

  // ---------------------------------------------------------------- who frees a buffer

  /** The stack's injection function is called on packet x: it has been allowed, and the socket is not disconnecting. */
  ghost predicate OfferedAt(worlds: seq<World>, steps: seq<Step>, k: nat, x: nat, error: bool) {
    && k < |steps| && k < |worlds| && steps[k] == Inject(error)
    && worlds[k].s.packetsToInject != [] && worlds[k].s.packetsToInject[0].dataIndex == x
    && AllowedBy(worlds, steps, k, x) && !DisconnectedBy(steps, k)
  }

  ghost predicate DisconnectedBy(steps: seq<Step>, n: nat) {
    exists j: nat :: j < n && j < |steps| && steps[j].Disconnecting?
  }

  ghost predicate PurgedAt(worlds: seq<World>, steps: seq<Step>, k: nat, x: nat) {
    && k < |steps| && k < |worlds| && steps[k].Purge?
    && exists p :: p in worlds[k].s.pendingQueue && p.dataIndex == x && Concerns(steps[k].t, p.dataInbound)
  }

  /** The stack has the buffers of packet x: an inbound injection takes them if it succeeds, an outbound one in any case. */
  ghost predicate StackTook(worlds: seq<World>, steps: seq<Step>, x: nat) {
    exists k: nat, error ::
      OfferedAt(worlds, steps, k, x, error) && (!error || !worlds[k].s.packetsToInject[0].dataInbound)
  }

  lemma {:induction false} DisconnectingIff(worlds: seq<World>, steps: seq<Step>, n: nat)
    requires IsRun(worlds, steps) && n <= |steps|
    ensures worlds[n].s.disconnecting <==> DisconnectedBy(steps, n)
    decreases n
  {
    if n > 0 {
      DisconnectingIff(worlds, steps, n - 1);
      DisconnectingStep(worlds[n - 1], steps[n - 1]);
      hide Apply;
      hide Enabled;
    }
  }

  lemma DisconnectingStep(w: World, e: Step)
    requires Enabled(w, e)
    ensures Apply(w, e).s.disconnecting <==> w.s.disconnecting || e.Disconnecting?
  {
    hide Left;
    hide Waiters;
    hide Waiting;
    hide Tickets;
    hide Bytes;
    hide Skipped;
    hide Reported;
  }

  /** Packet x is given up by this step. */
  predicate GivesUp(w: World, e: Step, x: nat) {
    match e
    case Inject(_) => w.s.packetsToInject != [] && w.s.packetsToInject[0].dataIndex == x
    case Purge(t) => exists p :: p in w.s.pendingQueue && p.dataIndex == x && Concerns(t, p.dataInbound)
    case _ => false
  }

  predicate GivenUp(w: World, x: nat) {
    exists r :: r in w.consumed && r.ticket.dataIndex == x
  }

  // what a step adds to the records
  lemma RecordsStep(w: World, e: Step, x: nat)
    requires Enabled(w, e)
    ensures w.consumed <= Apply(w, e).consumed
    ensures GivenUp(Apply(w, e), x) <==> GivenUp(w, x) || GivesUp(w, e, x)
  {
    hide Left;
    hide Waiters;
    hide Waiting;
    hide Tickets;
    hide Bytes;
    hide Skipped;
    hide Reported;
    hide Select;
    var w' := Apply(w, e);
    match e
    case Inject(error) => assert w'.consumed[|w.consumed|].ticket.dataIndex == w.s.packetsToInject[0].dataIndex;
    case Purge(t) => PurgedRecords(w.s.pendingQueue, t);
    case _ =>
    assert forall r :: r in w.consumed ==> r in w'.consumed;
  }

  lemma PurgedRecords(q: seq<Packet>, t: DataType)
    ensures forall p :: p in q && Concerns(t, p.dataInbound) ==> Record(TicketOf(p), Purged, true) in PurgeRecords(Select(q, t))
    ensures forall r :: r in PurgeRecords(Select(q, t)) ==>
              exists p :: p in q && Concerns(t, p.dataInbound) && r == Record(TicketOf(p), Purged, true)
  {
    var s := Select(q, t);
    forall p | p in q && Concerns(t, p.dataInbound) ensures Record(TicketOf(p), Purged, true) in PurgeRecords(s) {
      SplitMembers(q, t, p);
      var i :| 0 <= i < |s| && s[i] == p;
      assert PurgeRecords(s)[i] == Record(TicketOf(p), Purged, true);
    }
    forall r | r in PurgeRecords(s) ensures exists p :: p in q && Concerns(t, p.dataInbound) && r == Record(TicketOf(p), Purged, true) {
      var i :| 0 <= i < |s| && PurgeRecords(s)[i] == r;
      SplitMembers(q, t, s[i]);
    }
  }

  /** Step k: the record r is written. */
  ghost predicate WrittenAt(worlds: seq<World>, steps: seq<Step>, k: nat, r: Record) {
    k < |steps| && |worlds| == |steps| + 1 && r in worlds[k + 1].consumed && r !in worlds[k].consumed
  }

  lemma {:induction false} Written(worlds: seq<World>, steps: seq<Step>, n: nat, r: Record) returns (k: nat)
    requires IsRun(worlds, steps) && n <= |steps| && r in worlds[n].consumed
    ensures k < n && WrittenAt(worlds, steps, k, r)
    decreases n
  {
    hide Apply;
    hide Enabled;
    k := n - 1;
    if r in worlds[n - 1].consumed {
      k := Written(worlds, steps, n - 1, r);
    }
  }

  lemma {:induction false} GivenUpStays(worlds: seq<World>, steps: seq<Step>, k: nat, n: nat, x: nat)
    requires IsRun(worlds, steps) && k < n <= |steps| && GivesUp(worlds[k], steps[k], x)
    ensures GivenUp(worlds[n], x)
    decreases n
  {
    RecordsStep(worlds[n - 1], steps[n - 1], x);
    hide Apply;
    hide Enabled;
    if k < n - 1 {
      GivenUpStays(worlds, steps, k, n - 1, x);
    }
  }

  // what has been given up is neither in the local list nor in the queue
  lemma GivenUpIsGone(w: World, e: Step, x: nat)
    requires PlacedAt(w, x) && GivenUp(w, x)
    ensures !GivesUp(w, e, x)
  {
    hide Times;
    var a, b, c := Indices(w.s.packetsToInject), Indices(w.s.pendingQueue), IndicesOf(w.consumed);
    TimesMember(a, x);
    TimesMember(b, x);
    TimesMember(c, x);
    var r :| r in w.consumed && r.ticket.dataIndex == x;
    var i :| 0 <= i < |w.consumed| && w.consumed[i] == r;
    assert c[i] == x;
    if w.s.packetsToInject != [] {
      assert a[0] == w.s.packetsToInject[0].dataIndex;
    }
    forall j | 0 <= j < |w.s.pendingQueue| ensures w.s.pendingQueue[j].dataIndex != x {
      assert b[j] == w.s.pendingQueue[j].dataIndex;
    }
  }

  /** Nothing is given up twice. */
  lemma GivenUpOnce(worlds: seq<World>, steps: seq<Step>, j: nat, k: nat, x: nat)
    requires IsRun(worlds, steps) && j < |steps| && k < |steps|
    requires GivesUp(worlds[j], steps[j], x) && GivesUp(worlds[k], steps[k], x)
    ensures j == k
  {
    if j != k {
      var a, b := if j < k then j else k, if j < k then k else j;
      GivenUpStays(worlds, steps, a, b, x);
      InvAt(worlds, steps, b);
      assert PlacedAt(worlds[b], x);
      hide *;
      GivenUpIsGone(worlds[b], steps[b], x);
    }
  }

  // the record written by an injection or a purge
  lemma RecordOf(w: World, e: Step, r: Record)
    requires Enabled(w, e) && r in Apply(w, e).consumed && r !in w.consumed
    ensures GivesUp(w, e, r.ticket.dataIndex)
    ensures e.Purge? ==> r.fate == Purged && r.freedByFilter
    ensures e.Inject? ==>
              var p := w.s.packetsToInject[0];
              var offered := p.allowData && !w.s.disconnecting;
              && (r.fate == Injected <==> offered && !e.error) && (r.fate == Rejected <==> offered && e.error) && r.fate != Purged
              && (r.freedByFilter <==> !offered || (e.error && p.dataInbound))
  {
    hide Left;
    hide Waiters;
    hide Waiting;
    hide Tickets;
    hide Bytes;
    hide Skipped;
    hide Reported;
    hide Select;
    if e.Purge? {
      PurgedRecords(w.s.pendingQueue, e.t);
    }
  }

  lemma OfferedIff(worlds: seq<World>, steps: seq<Step>, k: nat, x: nat, error: bool)
    requires IsRun(worlds, steps) && k < |steps|
    ensures OfferedAt(worlds, steps, k, x, error) <==>
              && steps[k] == Inject(error) && GivesUp(worlds[k], steps[k], x)
              && worlds[k].s.packetsToInject[0].allowData && !worlds[k].s.disconnecting
  {
    RunRecords(worlds, steps, k);
    DisconnectingIff(worlds, steps, k);
    hide IsRun;
    hide DisconnectedBy;
    hide AllowedBy;
    hide RecordedQueued;
    if worlds[k].s.packetsToInject != [] {
      assert worlds[k].s.packetsToInject[0] in worlds[k].s.packetsToInject;
    }
  }

  /** In every run, a packet given up was purged, or the stack's function was called on it and succeeded, or was called and failed,
      or else it was dropped; and its buffers are freed by the filter exactly if the stack has not taken them. */
  lemma FateIff(worlds: seq<World>, steps: seq<Step>, r: Record)
    requires IsRun(worlds, steps) && r in worlds[|steps|].consumed
    ensures var x := r.ticket.dataIndex;
            && (r.fate == Injected <==> exists k: nat :: OfferedAt(worlds, steps, k, x, false))
            && (r.fate == Rejected <==> exists k: nat :: OfferedAt(worlds, steps, k, x, true))
            && (r.fate == Purged <==> exists k: nat :: PurgedAt(worlds, steps, k, x))
            && (r.freedByFilter <==> !StackTook(worlds, steps, x))
  {
    var x := r.ticket.dataIndex;
    var k := Written(worlds, steps, |steps|, r);
    RecordOf(worlds[k], steps[k], r);
    forall j: nat, error ensures OfferedAt(worlds, steps, j, x, error) ==> j == k {
      if OfferedAt(worlds, steps, j, x, error) {
        OfferedIff(worlds, steps, j, x, error);
        GivenUpOnce(worlds, steps, j, k, x);
      }
    }
    forall j: nat ensures PurgedAt(worlds, steps, j, x) ==> j == k {
      if PurgedAt(worlds, steps, j, x) {
        GivenUpOnce(worlds, steps, j, k, x);
      }
    }
    OfferedIff(worlds, steps, k, x, true);
    OfferedIff(worlds, steps, k, x, false);
    assert steps[k].Purge? <==> PurgedAt(worlds, steps, k, x);
    if steps[k].Inject? {
      assert StackTook(worlds, steps, x) <==>
        OfferedAt(worlds, steps, k, x, steps[k].error) && (!steps[k].error || !worlds[k].s.packetsToInject[0].dataInbound);
    }
    hide IsRun;
    hide WrittenAt;
    hide OfferedAt;
  }
}

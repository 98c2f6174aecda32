/**
 What the client has seen of the packets: which ones count as reported although it was never notified of them, and what
 an answer it gives unasked can then do.
 */
module SocketNotices {
  import opened PendingQueue
  import opened SocketState
  import opened SocketRuns

  // ---------------------------------------------------------------- one packet, one place

  /** An index that is in the queue is nowhere else, and no two packets on their way into the queue share one. */
  lemma PlacesDiffer(w: World, x: nat)
    requires PlacedAt(w, x)
    ensures forall i, j :: 0 <= i < |w.inFlight| && 0 <= j < |w.s.pendingQueue| && w.inFlight[i].dataIndex == x ==>
              w.s.pendingQueue[j].dataIndex != x
    ensures forall i, j :: 0 <= i < j < |w.inFlight| && w.inFlight[i].dataIndex == x ==> w.inFlight[j].dataIndex != x
    ensures forall i, j :: 0 <= i < j < |w.s.pendingQueue| && w.s.pendingQueue[i].dataIndex == x ==> w.s.pendingQueue[j].dataIndex != x
    ensures x >= w.s.pendingDataNextIndex ==>
              && (forall i :: 0 <= i < |w.inFlight| ==> w.inFlight[i].dataIndex != x)
              && (forall j :: 0 <= j < |w.s.pendingQueue| ==> w.s.pendingQueue[j].dataIndex != x)
  {
    hide Times;
    var a, b := Indices(w.inFlight), Indices(w.s.pendingQueue);
    assert forall i :: 0 <= i < |a| ==> a[i] == w.inFlight[i].dataIndex;
    assert forall j :: 0 <= j < |b| ==> b[j] == w.s.pendingQueue[j].dataIndex;
    hide Indices;
    TimesMember(a, x);
    TimesMember(b, x);
    forall i, j | 0 <= i < j < |a| && a[i] == x ensures a[j] != x {
      if a[j] == x {
        TimesTwice(a, i, j);
      }
    }
    forall i, j | 0 <= i < j < |b| && b[i] == x ensures b[j] != x {
      if b[j] == x {
        TimesTwice(b, i, j);
      }
    }
  }

  // ---------------------------------------------------------------- who has been told of what

  predicate Told(w: World, x: nat) {
    x in w.notified || x in w.unsent || x in w.missed
  }

  /** Every packet of the queue is marked as reported exactly if the client was notified of it, if FltData has still to do so,
      or if a notification failed; and only one of these holds. */
  ghost predicate NoticedAt(w: World, x: nat) {
    && (forall p :: p in w.inFlight && p.dataIndex == x ==> !Told(w, x))
    && (forall p :: p in w.s.pendingQueue && p.dataIndex == x ==> (Told(w, x) <==> !p.needToBeReported))
    && (x >= w.s.pendingDataNextIndex ==> !Told(w, x))
    && !(x in w.notified && x in w.unsent) && !(x in w.notified && x in w.missed) && !(x in w.unsent && x in w.missed)
  }

  ghost predicate Noticed(w: World) {
    forall x: nat :: NoticedAt(w, x)
  }

  lemma NoticedAllocate(w: World, e: Step, x: nat)
    requires NoticedAt(w, x) && PlacedAt(w, x) && e.Allocate?
    ensures NoticedAt(Apply(w, e), x)
  {
    PlacesDiffer(w, x);
  }

  lemma NoticedEnqueue(w: World, i: nat, copyFailed: bool, x: nat)
    requires NoticedAt(w, x) && PlacedAt(w, x) && i < |w.inFlight| && !w.inFlight[i].needToBeReported
    ensures NoticedAt(Apply(w, Enqueue(i, copyFailed)), x)
  {
    hide Waiters;
    PlacesDiffer(w, x);
    hide PlacedAt;
    var p, a := w.inFlight[i], w.inFlight;
    assert p in a;
    hide Told;
    TakenOut(a, i, x);
    assert forall r :: r in w.s.pendingQueue + [Queued(w.s, p, copyFailed)] <==> r in w.s.pendingQueue || r == Queued(w.s, p, copyFailed);
    var w' := Apply(w, Enqueue(i, copyFailed));
    if p.dataIndex != x {
      SameTold(w, w', x);
    } else {
      EnqueueTold(w, i, copyFailed);
    }
  }

  lemma SameTold(w: World, w': World, x: nat)
    requires w'.notified == w.notified && w'.missed == w.missed && (x in w'.unsent <==> x in w.unsent)
    ensures Told(w', x) == Told(w, x)
  {
  }

  lemma EnqueueTold(w: World, i: nat, copyFailed: bool)
    requires i < |w.inFlight| && !Told(w, w.inFlight[i].dataIndex)
    ensures var x, w' := w.inFlight[i].dataIndex, Apply(w, Enqueue(i, copyFailed));
            (Told(w', x) <==> !Defers(w.s, copyFailed)) && x !in w'.notified && x !in w'.missed
  {
    hide Defers;
    hide Waiters;
  }

  // the list without the packet at position i
  lemma TakenOut(a: seq<Packet>, i: nat, x: nat)
    requires i < |a| && forall j, k :: 0 <= j < k < |a| && a[j].dataIndex == x ==> a[k].dataIndex != x
    ensures forall r :: r in a[..i] + a[i + 1..] ==> r in a && (a[i].dataIndex == x ==> r.dataIndex != x)
  {
    var b := a[..i] + a[i + 1..];
    forall r | r in b ensures r in a && (a[i].dataIndex == x ==> r.dataIndex != x) {
      var k :| 0 <= k < |b| && b[k] == r;
      assert r == a[if k < i then k else k + 1];
    }
  }

  lemma DeliverTold(w: World, attempts: seq<Attempt>, x: nat)
    requires |attempts| == |w.s.pendingQueue|
    ensures var q, w' := w.s.pendingQueue, Apply(w, Deliver(attempts));
            && w'.s.pendingQueue == AfterDelivery(q, attempts) && w'.inFlight == w.inFlight && w'.unsent == w.unsent
            && w'.s.pendingDataNextIndex == w.s.pendingDataNextIndex
            && (x in w'.notified <==> x in w.notified || x in Reported(q, attempts))
            && (x in w'.missed <==> x in w.missed || x in Skipped(q, attempts))
  {
    hide Waiters;
    hide Waiting;
    hide Done;
    hide AfterDelivery;
    hide Reported;
    hide Skipped;
  }

  lemma NoticedDeliver(w: World, attempts: seq<Attempt>, x: nat)
    requires NoticedAt(w, x) && PlacedAt(w, x) && |attempts| == |w.s.pendingQueue|
    ensures NoticedAt(Apply(w, Deliver(attempts)), x)
  {
    PlacesDiffer(w, x);
    var q := w.s.pendingQueue;
    if forall j :: 0 <= j < |q| ==> q[j].dataIndex != x {
      hide *;
      NoticedNowhere(w, attempts, x);
    } else {
      var j :| 0 <= j < |q| && q[j].dataIndex == x;
      hide *;
      NoticedThere(w, attempts, j);
    }
  }

  lemma NoticedThere(w: World, attempts: seq<Attempt>, j: nat)
    requires |attempts| == |w.s.pendingQueue| && j < |w.s.pendingQueue| && NoticedAt(w, w.s.pendingQueue[j].dataIndex)
    requires forall k :: 0 <= k < |w.s.pendingQueue| && k != j ==> w.s.pendingQueue[k].dataIndex != w.s.pendingQueue[j].dataIndex
    requires forall i :: 0 <= i < |w.inFlight| ==> w.inFlight[i].dataIndex != w.s.pendingQueue[j].dataIndex
    requires w.s.pendingQueue[j].dataIndex < w.s.pendingDataNextIndex
    ensures NoticedAt(Apply(w, Deliver(attempts)), w.s.pendingQueue[j].dataIndex)
  {
    var q := w.s.pendingQueue;
    var x := q[j].dataIndex;
    DeliverTold(w, attempts, x);
    assert q[j] in q;
    DeliveredOne(q, attempts, j);
    hide AfterDelivery;
    hide Apply;
    hide Reported;
    hide Skipped;
    NowhereElse(w.inFlight, x);
    OnlyAt(AfterDelivery(q, attempts), j, x);
    var w' := Apply(w, Deliver(attempts));
    assert Told(w', x) <==> !AfterDelivery(q, attempts)[j].needToBeReported;
  }

  lemma NoticedNowhere(w: World, attempts: seq<Attempt>, x: nat)
    requires NoticedAt(w, x) && |attempts| == |w.s.pendingQueue|
    requires forall j :: 0 <= j < |w.s.pendingQueue| ==> w.s.pendingQueue[j].dataIndex != x
    ensures NoticedAt(Apply(w, Deliver(attempts)), x)
  {
    var q := w.s.pendingQueue;
    NoticedElsewhere(q, attempts, x);
    DeliverTold(w, attempts, x);
    hide Apply;
    hide AfterDelivery;
    hide Reported;
    hide Skipped;
    NowhereElse(AfterDelivery(q, attempts), x);
  }

  lemma OnlyAt(q: seq<Packet>, j: nat, x: nat)
    requires j < |q| && forall k :: 0 <= k < |q| && k != j ==> q[k].dataIndex != x
    ensures forall p :: p in q && p.dataIndex == x ==> p == q[j]
  {
  }

  lemma NowhereElse(q: seq<Packet>, x: nat)
    requires forall k :: 0 <= k < |q| ==> q[k].dataIndex != x
    ensures forall p :: p in q ==> p.dataIndex != x
  {
  }

  // what a delivery pass does with the packet at one position
  lemma DeliveredOne(q: seq<Packet>, attempts: seq<Attempt>, j: nat)
    requires |attempts| >= |q| && j < |q|
    requires forall k :: 0 <= k < |q| && k != j ==> q[k].dataIndex != q[j].dataIndex
    ensures var x, passed := q[j].dataIndex, j < Done(q, attempts) && q[j].needToBeReported;
            && (x in Reported(q, attempts) <==> passed && !attempts[j].failed)
            && (x in Skipped(q, attempts) <==> passed && attempts[j].failed)
            && AfterDelivery(q, attempts)[j].needToBeReported == (q[j].needToBeReported && !passed)
            && (forall k :: 0 <= k < |q| ==> AfterDelivery(q, attempts)[k].dataIndex == q[k].dataIndex)
  {
    hide Done;
  }

  lemma NoticedElsewhere(q: seq<Packet>, attempts: seq<Attempt>, x: nat)
    requires |attempts| >= |q| && forall k :: 0 <= k < |q| ==> q[k].dataIndex != x
    ensures x !in Reported(q, attempts) && x !in Skipped(q, attempts)
    ensures forall k :: 0 <= k < |q| ==> AfterDelivery(q, attempts)[k].dataIndex == q[k].dataIndex
  {
    hide Done;
  }

  // steps that report nothing and queue nothing
  lemma NoticedOther(w: World, e: Step, x: nat)
    requires WellFormed(w) && NoticedAt(w, x) && Enabled(w, e) && !e.Allocate? && !e.Enqueue? && !e.Deliver?
    ensures NoticedAt(Apply(w, e), x)
  {
    hide Waiters;
    hide Waiting;
    hide Tickets;
    hide Bytes;
    hide Reach;
    hide AfterCollect;
    hide Collected;
    hide Select;
    hide Without;
    hide AfterVerdict;
    var q := w.s.pendingQueue;
    match e
    case Verdict(index, allow) => VerdictMembers(q, index, allow);
    case Take(t, clock) => KeptAreMembers(q, t, clock);
    case Purge(t) => PurgedAreMembers(q, t);
    case _ =>
  }

  lemma VerdictMembers(q: seq<Packet>, index: nat, allow: bool)
    requires Shape(q) && AllCoherent(q)
    ensures forall p :: p in AfterVerdict(q, index, allow) ==>
              exists r :: r in q && r.dataIndex == p.dataIndex && r.needToBeReported == p.needToBeReported
  {
    hide AfterVerdict;
    VerdictKeeps(q, index, allow);
    var q' := AfterVerdict(q, index, allow);
    forall p | p in q' ensures exists r :: r in q && r.dataIndex == p.dataIndex && r.needToBeReported == p.needToBeReported {
      var i :| 0 <= i < |q'| && q'[i] == p;
      assert q[i] in q;
    }
  }

  lemma NoticedKeeps(w: World, e: Step)
    requires WellFormed(w) && Placed(w) && Noticed(w) && Enabled(w, e)
    ensures Noticed(Apply(w, e))
  {
    forall x: nat ensures NoticedAt(Apply(w, e), x) {
      assert PlacedAt(w, x) && NoticedAt(w, x);
      assert e.Enqueue? ==> w.inFlight[e.i] in w.inFlight;
      assert e.Enqueue? ==> !w.inFlight[e.i].needToBeReported;
      hide *;
      match e
      case Allocate(_, _, _, _) => NoticedAllocate(w, e, x);
      case Enqueue(i, copyFailed) => NoticedEnqueue(w, i, copyFailed, x);
      case Deliver(attempts) => NoticedDeliver(w, attempts, x);
      case _ => NoticedOther(w, e, x);
    }
  }

  lemma {:induction false} RunNoticed(worlds: seq<World>, steps: seq<Step>)
    requires IsRun(worlds, steps)
    ensures Inv(worlds[|steps|]) && Noticed(worlds[|steps|])
    decreases |steps|
  {
    RunInv(worlds, steps);
    if steps != [] {
      var n := |steps| - 1;
      RunNoticed(worlds[..|steps|], steps[..n]);
      hide Apply;
      hide Enabled;
      hide Noticed;
      NoticedKeeps(worlds[n], steps[n]);
    }
  }

  // ---------------------------------------------------------------- in terms of the steps of a run

  /** Step k: FltData queues packet x as reported. */
  predicate QueuedAsReported(worlds: seq<World>, steps: seq<Step>, k: nat, x: nat) {
    && k < |steps| && k < |worlds| && steps[k].Enqueue? && steps[k].i < |worlds[k].inFlight|
    && worlds[k].inFlight[steps[k].i].dataIndex == x && !Defers(worlds[k].s, steps[k].copyFailed)
  }

  /** Step k: FltData tries to notify the client of x. */
  predicate NotificationTried(steps: seq<Step>, k: nat, x: nat) {
    k < |steps| && steps[k].Notify? && steps[k].index == x
  }

  /** Packet x was queued as reported at step k, and FltData has not come to its notification. */
  ghost predicate StillUnsent(worlds: seq<World>, steps: seq<Step>, k: nat, x: nat) {
    QueuedAsReported(worlds, steps, k, x) && forall j: nat :: k < j < |steps| ==> !NotificationTried(steps, j, x)
  }

  /** Step k: a notification of x fails, FltData's own or that of a delivery pass which goes past the packet. */
  predicate NotificationLost(worlds: seq<World>, steps: seq<Step>, k: nat, x: nat) {
    && k < |steps| && k < |worlds|
    && match steps[k]
       case Notify(index, sent) => index == x && !sent
       case Deliver(attempts) => |attempts| >= |worlds[k].s.pendingQueue| && x in Skipped(worlds[k].s.pendingQueue, attempts)
       case _ => false
  }

  // what one step adds to the two histories
  lemma HistoryStep(w: World, e: Step, x: nat)
    requires Enabled(w, e)
    ensures var w' := Apply(w, e);
            && (x in w'.missed <==> x in w.missed || NotificationLost([w], [e], 0, x))
            && (x in w'.unsent <==> QueuedAsReported([w], [e], 0, x) || (x in w.unsent && !NotificationTried([e], 0, x)))
  {
    hide Waiters;
    hide Waiting;
    hide Done;
    hide Defers;
    hide Skipped;
    hide Reported;
    hide Tickets;
    hide Bytes;
  }

  lemma {:induction false} HistoryIff(worlds: seq<World>, steps: seq<Step>, x: nat)
    requires IsRun(worlds, steps)
    ensures x in worlds[|steps|].missed <==> exists k: nat :: NotificationLost(worlds, steps, k, x)
    ensures x in worlds[|steps|].unsent <==>
              exists k: nat :: StillUnsent(worlds, steps, k, x)
    decreases |steps|
  {
    if steps != [] {
      var n := |steps| - 1;
      var worlds0, steps0 := worlds[..|steps|], steps[..n];
      HistoryIff(worlds0, steps0, x);
      HistoryStep(worlds[n], steps[n], x);
      hide Apply;
      hide Enabled;
      hide Fresh;
      hide Skipped;
      hide Defers;
      MissedExtends(worlds, steps, x);
      UnsentExtends(worlds, steps, x);
    }
  }

  lemma MissedExtends(worlds: seq<World>, steps: seq<Step>, x: nat)
    requires |worlds| == |steps| + 1 && steps != []
    ensures var n := |steps| - 1;
            (exists k: nat :: NotificationLost(worlds, steps, k, x)) <==>
              || (exists k: nat :: NotificationLost(worlds[..|steps|], steps[..n], k, x))
              || NotificationLost([worlds[n]], [steps[n]], 0, x)
  {
    hide Skipped;
    var n := |steps| - 1;
    var worlds0, steps0 := worlds[..|steps|], steps[..n];
    assert NotificationLost(worlds, steps, n, x) == NotificationLost([worlds[n]], [steps[n]], 0, x);
    forall k: nat | k < n ensures NotificationLost(worlds, steps, k, x) == NotificationLost(worlds0, steps0, k, x) {
      assert worlds0[k] == worlds[k] && steps0[k] == steps[k];
    }
  }

  lemma UnsentExtends(worlds: seq<World>, steps: seq<Step>, x: nat)
    requires |worlds| == |steps| + 1 && steps != []
    ensures var n := |steps| - 1;
            (exists k: nat :: StillUnsent(worlds, steps, k, x)) <==>
              || QueuedAsReported([worlds[n]], [steps[n]], 0, x)
              || ((exists k: nat :: StillUnsent(worlds[..|steps|], steps[..n], k, x)) && !NotificationTried([steps[n]], 0, x))
  {
    hide Defers;
    var n := |steps| - 1;
    var worlds0, steps0 := worlds[..|steps|], steps[..n];
    assert QueuedAsReported(worlds, steps, n, x) == QueuedAsReported([worlds[n]], [steps[n]], 0, x);
    assert NotificationTried(steps, n, x) == NotificationTried([steps[n]], 0, x);
    forall k: nat | k < n
      ensures QueuedAsReported(worlds, steps, k, x) == QueuedAsReported(worlds0, steps0, k, x)
      ensures NotificationTried(steps, k, x) == NotificationTried(steps0, k, x)
    {
      assert worlds0[k] == worlds[k] && steps0[k] == steps[k];
    }
    hide QueuedAsReported;
    hide NotificationTried;
    if k: nat :| StillUnsent(worlds, steps, k, x) {
      KeepsUnsent(worlds, steps, k, x);
    }
    if k: nat :| StillUnsent(worlds0, steps0, k, x) && !NotificationTried([steps[n]], 0, x) {
      UnsentBounds(worlds0, steps0, k, x);
      assert StillUnsent(worlds, steps, k, x);
    }
    if QueuedAsReported(worlds, steps, n, x) {
      assert StillUnsent(worlds, steps, n, x);
    }
  }

  lemma UnsentBounds(worlds: seq<World>, steps: seq<Step>, k: nat, x: nat)
    requires StillUnsent(worlds, steps, k, x)
    ensures k < |steps|
  {
  }

  lemma KeepsUnsent(worlds: seq<World>, steps: seq<Step>, k: nat, x: nat)
    requires |worlds| == |steps| + 1 && steps != [] && StillUnsent(worlds, steps, k, x)
    ensures var n := |steps| - 1;
            if k == n then QueuedAsReported(worlds, steps, n, x)
            else StillUnsent(worlds[..|steps|], steps[..n], k, x) && !NotificationTried(steps, n, x)
  {
    hide Defers;
    var n := |steps| - 1;
    forall j: nat | k < j < n ensures !NotificationTried(steps[..n], j, x) {
      assert !NotificationTried(steps, j, x) && steps[..n][j] == steps[j];
    }
  }

  /** In every run: a queued packet that counts as reported is unknown to the client exactly if FltData queued it as reported
      and has not tried to notify the client since, or if a notification of it failed: FltData's own, or that of a delivery
      pass that went past it. */
  lemma UnknownIff(worlds: seq<World>, steps: seq<Step>, p: Packet)
    requires IsRun(worlds, steps) && p in worlds[|steps|].s.pendingQueue && !p.needToBeReported
    ensures p.dataIndex !in worlds[|steps|].notified
            <==> (exists k: nat :: NotificationLost(worlds, steps, k, p.dataIndex))
                 || (exists k: nat :: StillUnsent(worlds, steps, k, p.dataIndex))
  {
    RunNoticed(worlds, steps);
    HistoryIff(worlds, steps, p.dataIndex);
    assert NoticedAt(worlds[|steps|], p.dataIndex);
    hide IsRun;
    hide StillUnsent;
    hide NotificationLost;
  }

  // ---------------------------------------------------------------- what an unasked answer can do

  /** The client answers and the filter reinjects; nothing is reported, queued or purged meanwhile. */
  predicate Answering(e: Step) {
    e.Verdict? || e.Take? || e.Inject? || e.EndInjection?
  }

  predicate Answers(w: World, steps: seq<Step>)
    decreases |steps|
  {
    steps == [] || (Answering(steps[0]) && Enabled(w, steps[0]) && Answers(Apply(w, steps[0]), steps[1..]))
  }

  function AfterAnswers(w: World, steps: seq<Step>): World
    requires Answers(w, steps)
    decreases |steps|
  {
    if steps == [] then w else AfterAnswers(Apply(w, steps[0]), steps[1..])
  }

  /** The packet was offered to the stack. */
  predicate Offered(w: World, x: nat) {
    exists r :: r in w.consumed && r.ticket.dataIndex == x && (r.fate == Injected || r.fate == Rejected)
  }

  ghost predicate Slips(w: World, x: nat, steps: seq<Step>) {
    Answers(w, steps) && Offered(AfterAnswers(w, steps), x) && x !in AfterAnswers(w, steps).notified
  }

  lemma {:induction false} AnswersJoin(w: World, a: seq<Step>, b: seq<Step>)
    requires Answers(w, a) && Answers(AfterAnswers(w, a), b)
    ensures Answers(w, a + b) && AfterAnswers(w, a + b) == AfterAnswers(AfterAnswers(w, a), b)
    decreases |a|
  {
    hide Apply;
    hide Enabled;
    if a == [] {
      assert a + b == b;
    } else {
      assert (a + b)[1..] == a[1..] + b && (a + b)[0] == a[0];
      AnswersJoin(Apply(w, a[0]), a[1..], b);
    }
  }

  lemma AnswersOne(w: World, e: Step)
    requires Answering(e) && Enabled(w, e)
    ensures Answers(w, [e]) && AfterAnswers(w, [e]) == Apply(w, e)
  {
    hide Apply;
    hide Enabled;
    assert [e][1..] == [];
    assert Answers(Apply(w, e), []);
    assert AfterAnswers(Apply(w, e), []) == Apply(w, e);
  }

  // ------------------------------------------------ nothing but such a packet slips through

  /** Answers notify nobody. */
  lemma AnswerNotifiesNobody(w: World, e: Step)
    requires Answering(e) && Enabled(w, e)
    ensures Apply(w, e).notified == w.notified && Apply(w, e).s.disconnecting == w.s.disconnecting
  {
    hide AfterVerdict;
    hide AfterCollect;
    hide Collected;
  }

  /** The packet is still in the queue and unreported. */
  ghost predicate Waits(w: World, x: nat) {
    exists j :: 0 <= j < |w.s.pendingQueue| && w.s.pendingQueue[j].dataIndex == x && w.s.pendingQueue[j].needToBeReported
  }

  lemma WaitingIsNotOffered(w: World, x: nat)
    requires PlacedAt(w, x) && Waits(w, x)
    ensures !Offered(w, x)
  {
    var j :| 0 <= j < |w.s.pendingQueue| && w.s.pendingQueue[j].dataIndex == x && w.s.pendingQueue[j].needToBeReported;
    QueuedIsUnique(w, j);
    hide PlacedAt;
  }

  lemma AnswerKeepsWaiting(w: World, e: Step, x: nat)
    requires WellFormed(w) && Answering(e) && Enabled(w, e) && Waits(w, x)
    ensures Waits(Apply(w, e), x)
  {
    hide Waiting;
    hide Waiters;
    hide Tickets;
    hide Bytes;
    hide Reach;
    hide Collected;
    hide AfterVerdict;
    var q := w.s.pendingQueue;
    var j :| 0 <= j < |q| && q[j].dataIndex == x && q[j].needToBeReported;
    match e
    case Verdict(index, allow) =>
      VerdictKeeps(q, index, allow);
      assert Apply(w, e).s.pendingQueue[j].dataIndex == x;
    case Take(t, clock) =>
      WaitingIsKept(q, t, clock, j);
      hide AfterCollect;
      var k :| 0 <= k < |AfterCollect(q, t, clock)| && AfterCollect(q, t, clock)[k] == q[j];
      assert Apply(w, e).s.pendingQueue[k].dataIndex == x;
    case Inject(_) => assert Apply(w, e).s.pendingQueue == q;
    case EndInjection => assert Apply(w, e).s.pendingQueue == q;
    case _ =>
  }

  lemma WaitingIsKept(q: seq<Packet>, t: DataType, clock: seq<nat>, j: nat)
    requires |clock| >= |q| && j < |q| && q[j].needToBeReported
    ensures q[j] in AfterCollect(q, t, clock)
  {
    hide Without;
    var n := Reach(q, t, clock);
    assert q == q[..n] + q[n..];
    if j < n {
      assert q[j] == q[..n][j] && !Blocks(q[j], t, clock[j]);
      SplitMembers(q[..n], t, q[j]);
    } else {
      assert q[j] == q[n..][j - n];
    }
  }

  /** A disconnecting socket drops whatever it gives up. */
  lemma DisconnectingOffersNothing(w: World, e: Step, x: nat)
    requires Answering(e) && Enabled(w, e) && w.s.disconnecting && !Offered(w, x)
    ensures !Offered(Apply(w, e), x)
  {
    hide AfterVerdict;
    hide AfterCollect;
    hide Collected;
  }

  lemma {:induction false} OnlyMarkedSlip(w: World, x: nat, steps: seq<Step>)
    requires Inv(w) && Answers(w, steps) && (Waits(w, x) || (w.s.disconnecting && !Offered(w, x)))
    ensures AfterAnswers(w, steps).notified == w.notified && !Offered(AfterAnswers(w, steps), x)
    decreases |steps|
  {
    assert PlacedAt(w, x) && WellFormed(w);
    hide Inv;
    hide Apply;
    hide Enabled;
    hide PlacedAt;
    hide WellFormed;
    hide Offered;
    hide Waits;
    if steps == [] {
      if Waits(w, x) {
        WaitingIsNotOffered(w, x);
      }
    } else {
      AnswerNotifiesNobody(w, steps[0]);
      InvKeeps(w, steps[0]);
      if Waits(w, x) {
        AnswerKeepsWaiting(w, steps[0], x);
      } else {
        DisconnectingOffersNothing(w, steps[0], x);
      }
      OnlyMarkedSlip(Apply(w, steps[0]), x, steps[1..]);
    }
  }

  lemma {:induction false} AnswersNotifyNobody(w: World, steps: seq<Step>)
    requires Answers(w, steps)
    ensures AfterAnswers(w, steps).notified == w.notified
    decreases |steps|
  {
    hide Apply;
    hide Enabled;
    if steps != [] {
      AnswerNotifiesNobody(w, steps[0]);
      AnswersNotifyNobody(Apply(w, steps[0]), steps[1..]);
    }
  }

  // ------------------------------------------------ and such a packet does

  /** The first n packets of the local list have been injected, and nothing else has happened. */
  ghost predicate Moved(w: World, w': World, n: nat) {
    && n <= |w.s.packetsToInject| && w'.s.packetsToInject == w.s.packetsToInject[n..]
    && w'.s.pendingQueue == w.s.pendingQueue
    && w'.s.disconnecting == w.s.disconnecting && w'.s.injectionMutexHeld == w.s.injectionMutexHeld
    && |w'.consumed| == |w.consumed| + n && w.consumed <= w'.consumed
    && forall k :: 0 <= k < n ==> w'.consumed[|w.consumed| + k] == Outcome(w.s.packetsToInject[k], w.s.disconnecting, false)
  }

  lemma MovedMore(w: World, w1: World, w': World, n: nat)
    requires Moved(w, w1, 1) && Moved(w1, w', n)
    ensures Moved(w, w', n + 1)
  {
    hide Outcome;
    forall k | 0 <= k < n + 1
      ensures w'.consumed[|w.consumed| + k] == Outcome(w.s.packetsToInject[k], w.s.disconnecting, false)
    {
      if k == 0 {
        assert w'.consumed[|w.consumed|] == w1.consumed[|w.consumed| + 0];
      } else {
        assert w'.consumed[|w1.consumed| + (k - 1)] == Outcome(w1.s.packetsToInject[k - 1], w1.s.disconnecting, false);
      }
    }
  }

  lemma {:induction false} InjectSome(w: World, n: nat) returns (steps: seq<Step>)
    requires Inv(w) && n <= |w.s.packetsToInject|
    ensures Answers(w, steps) && Inv(AfterAnswers(w, steps)) && Moved(w, AfterAnswers(w, steps), n)
    decreases n
  {
    hide *;
    if n == 0 {
      steps := [];
      NoSteps(w);
    } else {
      InjectOne(w);
      var first := Apply(w, Inject(false));
      AnswersOne(w, Inject(false));
      MovedLength(w, first);
      var rest := InjectSome(first, n - 1);
      AnswersJoin(w, [Inject(false)], rest);
      MovedMore(w, first, AfterAnswers(first, rest), n - 1);
      steps := [Inject(false)] + rest;
    }
  }

  lemma MovedLength(w: World, w1: World)
    requires Moved(w, w1, 1)
    ensures |w1.s.packetsToInject| == |w.s.packetsToInject| - 1
  {
  }

  lemma NoSteps(w: World)
    ensures Answers(w, []) && AfterAnswers(w, []) == w && Moved(w, w, 0)
  {
  }

  lemma InjectOne(w: World)
    requires Inv(w) && w.s.packetsToInject != []
    ensures Answering(Inject(false)) && Enabled(w, Inject(false))
    ensures Inv(Apply(w, Inject(false))) && Moved(w, Apply(w, Inject(false)), 1)
  {
    hide Inv;
    hide Outcome;
    InvKeeps(w, Inject(false));
  }

  /** An injection under way is brought to its end. */
  lemma EndOfInjection(w: World) returns (steps: seq<Step>)
    requires Inv(w)
    ensures Answers(w, steps)
    ensures var w' := AfterAnswers(w, steps);
            && Inv(w') && !w'.s.injectionMutexHeld && w'.s.pendingQueue == w.s.pendingQueue && w'.s.disconnecting == w.s.disconnecting
  {
    hide *;
    if !w.s.injectionMutexHeld {
      steps := [];
      NoSteps(w);
    } else {
      var some := InjectSome(w, |w.s.packetsToInject|);
      var w1 := AfterAnswers(w, some);
      MovedAll(w, w1);
      EndOne(w1);
      AnswersOne(w1, EndInjection);
      AnswersJoin(w, some, [EndInjection]);
      steps := some + [EndInjection];
    }
  }

  lemma MovedAll(w: World, w': World)
    requires Moved(w, w', |w.s.packetsToInject|)
    ensures w'.s.packetsToInject == [] && w'.s.injectionMutexHeld == w.s.injectionMutexHeld
    ensures w'.s.pendingQueue == w.s.pendingQueue && w'.s.disconnecting == w.s.disconnecting
  {
  }

  lemma EndOne(w: World)
    requires Inv(w) && w.s.injectionMutexHeld && w.s.packetsToInject == []
    ensures Answering(EndInjection) && Enabled(w, EndInjection)
    ensures var w' := Apply(w, EndInjection);
            Inv(w') && !w'.s.injectionMutexHeld && w'.s.pendingQueue == w.s.pendingQueue && w'.s.disconnecting == w.s.disconnecting
  {
    hide Inv;
    InvKeeps(w, EndInjection);
  }

  /** A clock that shows every packet past its deadline. */
  function LateClock(q: seq<Packet>): (clock: seq<nat>)
    ensures |clock| == |q| && forall i :: 0 <= i < |q| ==> Expired(q[i], clock[i])
  {
    seq(|q|, i requires 0 <= i < |q| => q[i].allocationTime + DEADLINE + 1)
  }

  /** An allow for packet i, then a reinjection once it is late: it stands in the local list. */
  lemma AllowAndTake(w: World, i: nat) returns (steps: seq<Step>)
    requires Inv(w) && !w.s.injectionMutexHeld && i < |w.s.pendingQueue| && !w.s.pendingQueue[i].needToBeReported
    ensures Answers(w, steps)
    ensures var w' := AfterAnswers(w, steps);
            && Inv(w') && w'.s.disconnecting == w.s.disconnecting && i < |w'.s.packetsToInject|
            && w'.s.packetsToInject[i].dataIndex == w.s.pendingQueue[i].dataIndex && w'.s.packetsToInject[i].allowData
  {
    var q := w.s.pendingQueue;
    var x := q[i].dataIndex;
    var verdict := Verdict(x, true);
    assert Shape(q) && PlacedAt(w, x);
    assert Answering(verdict) && Enabled(w, verdict);
    AllowOne(w, i);
    var w1 := Apply(w, verdict);
    var take := Take(All, LateClock(w1.s.pendingQueue));
    assert Answering(take) && Enabled(w1, take);
    TakeLate(w1, i);
    hide *;
    AnswersOne(w, verdict);
    AnswersOne(w1, take);
    AnswersJoin(w, [verdict], [take]);
    steps := [verdict] + [take];
  }

  lemma AllowOne(w: World, i: nat)
    requires Inv(w) && i < |w.s.pendingQueue| && !w.s.pendingQueue[i].needToBeReported
    ensures var q := w.s.pendingQueue; var w1 := Apply(w, Verdict(q[i].dataIndex, true));
            && Inv(w1) && |w1.s.pendingQueue| == |q| && w1.s.disconnecting == w.s.disconnecting
            && w1.s.injectionMutexHeld == w.s.injectionMutexHeld
            && w1.s.pendingQueue[i] == q[i].(allowData := true, responseReceived := true)
  {
    var q := w.s.pendingQueue;
    var x := q[i].dataIndex;
    InvKeeps(w, Verdict(x, true));
    assert PlacedAt(w, x) && Shape(q);
    hide Inv;
    hide AfterVerdict;
    hide Shape;
    QueuedIsUnique(w, i);
    hide PlacedAt;
    VerdictReaches(q, x, true, i);
  }

  lemma {:induction false} SelectAllOf(q: seq<Packet>)
    ensures Select(q, All) == q
  {
    if q != [] {
      SelectAllOf(q[1..]);
      assert q == [q[0]] + q[1..];
    }
  }

  lemma TakeLate(w: World, i: nat)
    requires Inv(w) && !w.s.injectionMutexHeld && i < |w.s.pendingQueue| && !w.s.pendingQueue[i].needToBeReported
    ensures var q := w.s.pendingQueue; var w' := Apply(w, Take(All, LateClock(q)));
            && Enabled(w, Take(All, LateClock(q))) && Inv(w') && w'.s.disconnecting == w.s.disconnecting
            && i < |w'.s.packetsToInject| && w'.s.packetsToInject[i].dataIndex == q[i].dataIndex
            && w'.s.packetsToInject[i].allowData == q[i].allowData
  {
    var q, clock := w.s.pendingQueue, LateClock(w.s.pendingQueue);
    InvKeeps(w, Take(All, clock));
    LateAreTaken(w, i);
    hide Inv;
    hide AfterCollect;
    hide Collected;
    hide Waiting;
  }

  lemma LateAreTaken(w: World, i: nat)
    requires Inv(w) && i < |w.s.pendingQueue| && !w.s.pendingQueue[i].needToBeReported
    ensures var q, taken := w.s.pendingQueue, Collected(w.s.pendingQueue, All, LateClock(w.s.pendingQueue));
            i < |taken| && taken[i].dataIndex == q[i].dataIndex && taken[i].allowData == q[i].allowData
  {
    var q, clock := w.s.pendingQueue, LateClock(w.s.pendingQueue);
    assert Shape(q);
    hide Inv;
    hide Select;
    hide Reach;
    var n := Reach(q, All, clock);
    assert n > i by {
      assert forall k :: 0 <= k <= i ==> !q[k].needToBeReported;
      assert n < |q| ==> Blocks(q[n], All, clock[n]);
    }
    SelectAllOf(LatchedAll(q[..n], clock));
  }

  /** From every state that satisfies the invariant, hence from every reachable one, an answer the client gives unasked can get
      a queued packet to the stack that it was never notified of exactly if the packet counts as reported, the client does not
      know it, and the socket is not disconnecting. */
  lemma SlipsIff(w: World, i: nat)
    requires Inv(w) && i < |w.s.pendingQueue|
    ensures var p := w.s.pendingQueue[i];
            (exists steps :: Slips(w, p.dataIndex, steps))
            <==> !p.needToBeReported && p.dataIndex !in w.notified && !w.s.disconnecting
  {
    var p := w.s.pendingQueue[i];
    var x := p.dataIndex;
    assert PlacedAt(w, x);
    QueuedIsUnique(w, i);
    assert !Offered(w, x);
    assert p.needToBeReported ==> Waits(w, x);
    hide Inv;
    hide PlacedAt;
    hide Offered;
    hide Waits;
    if !p.needToBeReported && x !in w.notified && !w.s.disconnecting {
      Slip(w, i);
    } else {
      forall steps ensures !Slips(w, x, steps) {
        if Answers(w, steps) {
          AnswersNotifyNobody(w, steps);
          if p.needToBeReported || w.s.disconnecting {
            OnlyMarkedSlip(w, x, steps);
          }
        }
      }
    }
  }

  lemma Slip(w: World, i: nat)
    requires Inv(w) && i < |w.s.pendingQueue| && !w.s.pendingQueue[i].needToBeReported
    requires w.s.pendingQueue[i].dataIndex !in w.notified && !w.s.disconnecting
    ensures exists steps :: Slips(w, w.s.pendingQueue[i].dataIndex, steps)
  {
    hide *;
    var a := EndOfInjection(w);
    var w1 := AfterAnswers(w, a);
    var b := AllowAndTake(w1, i);
    AnswersJoin(w, a, b);
    var w2 := AfterAnswers(w, a + b);
    var c := InjectSome(w2, i + 1);
    AnswersJoin(w, a + b, c);
    AnswersNotifyNobody(w, a + b + c);
    AllowedOutcome(w2, AfterAnswers(w, a + b + c), i);
    SlipsBy(w, w.s.pendingQueue[i].dataIndex, a + b + c);
  }

  lemma AllowedOutcome(w: World, w': World, i: nat)
    requires Moved(w, w', i + 1) && w.s.packetsToInject[i].allowData && !w.s.disconnecting
    ensures Offered(w', w.s.packetsToInject[i].dataIndex)
  {
    assert w'.consumed[|w.consumed| + i] in w'.consumed;
  }

  lemma SlipsBy(w: World, x: nat, steps: seq<Step>)
    requires Answers(w, steps) && Offered(AfterAnswers(w, steps), x) && x !in AfterAnswers(w, steps).notified
    ensures exists steps' :: Slips(w, x, steps')
  {
    assert Slips(w, x, steps);
  }

  /** The shortest way to such a state: FltData queues a packet as reported and its own notification fails. */
  lemma FirstNotificationLost() returns (worlds: seq<World>, steps: seq<Step>)
    ensures IsRun(worlds, steps)
    ensures var w := worlds[|steps|];
            |w.s.pendingQueue| == 1 && !w.s.pendingQueue[0].needToBeReported && w.notified == {} && w.missed == {0} && !w.s.disconnecting
  {
    var w0 := World(Socket([], 0, 0, 0, 0, 0, 0, false, false, []), [], [], [], [], [], map[], {}, {}, {});
    var p := Packet(0, 1, 1, 0, true, false, false, false, false, false);
    var w1 := World(Socket([], 0, 1, 1, 0, 0, 1, false, false, []), [p], [], [], [], [], map[], {}, {}, {});
    var w2 := World(Socket([p], 0, 1, 1, 0, 0, 1, false, false, []), [], [TicketOf(p)], [], [], [], map[], {}, {0}, {});
    var w3 := w2.(unsent := {}, missed := {0});
    assert Waiters([p]) == [] by {
      assert [p][1..] == [] && Waiters([p][1..]) == [];
    }
    assert Apply(w0, Allocate(true, 1, 1, 0)) == w1;
    assert Apply(w1, Enqueue(0, false)) == w2;
    assert Apply(w2, Notify(0, false)) == w3;
    worlds, steps := [w0, w1, w2, w3], [Allocate(true, 1, 1, 0), Enqueue(0, false), Notify(0, false)];
    assert Enabled(w0, steps[0]) && Enabled(w1, steps[1]) && Enabled(w2, steps[2]);
    hide Apply;
    hide Enabled;
  }
}

/**
 The lifetime of one socket object: who holds a reference to it, which lists it is in, and how it is detached.
 An activation that holds a reference has a slot; the slot says how far the activation has come.
 */
module SocketLifetime {
  import opened PendingQueue
  import opened SocketState
  import Runs = SocketRuns

  datatype Phase = Retained | Unlisted | Unreported | Barred | Emptied

  datatype Holder =
    | Idle                                     // the activation is over
    | Creating                                 // withSocket's own reference
    | Using                                    // a reference from a lookup
    | Popped                                   // a deliverer has taken the object from the report list
    | Passed(again: bool)                      // and has made its pass over the queue
    | Detaching(phase: Phase, owed: nat)       // FltDetach; owed counts list references still to be released

  datatype Stage = Created | Attached | Leaving | Detached

  datatype Frame = Frame(
    stage: Stage,
    insertedInSocketsList: bool,
    insertedInSocketsListToReport: bool,
    retainCount: int,
    holders: seq<Holder>)

  datatype Object = Object(socket: nat, socketSequence: nat, world: Runs.World, frame: Frame)

  datatype Event =
    | Insert(h: nat)                           // insertInSocketsList
    | Local(e: Runs.Step)                      // a critical section of the socket, or an injection
    | Queue(i: nat, copyFailed: bool)          // the locked part of FltData
    | Retain                                   // GetSocketObjectRef has found the object
    | Respond(h: nat, sequence: nat, index: nat, allow: bool)
    | Pop
    | Pass(h: nat, attempts: seq<Attempt>)
    | Reinsert(h: nat)
    | Drop(h: nat)                             // release
    | BeginDetach
    | Unlist(h: nat)                           // removeFromSocketsList, under the lock of the sockets list
    | Unreport(h: nat)                         // and under the lock of the report list
    | ReleaseOwed(h: nat)
    | Bar(h: nat)                              // acquireDetachingLockForRemoval has returned
    | PurgeAll(h: nat)
    | FinishDetach(h: nat)                     // checkForInjectionCompletion has returned

  function FreshWorld(): (w: Runs.World)
    ensures Runs.Fresh(w)
  {
    Runs.World(Socket([], 0, 0, 0, 0, 0, 0, false, false, []), [], [], [], [], [], map[], {}, {}, {})
  }

  function NewObject(so: nat, sequence: nat): Object {
    Object(so, sequence, FreshWorld(), Frame(Created, false, false, 1, [Creating]))
  }

  /** Whoever enters the object is called by the stack for an attached socket or holds a reference. */
  predicate InUse(f: Frame) {
    f.stage == Attached || exists i :: 0 <= i < |f.holders| && f.holders[i] != Idle
  }

  predicate At(f: Frame, h: nat, holder: Holder) {
    h < |f.holders| && f.holders[h] == holder
  }

  predicate InPhase(f: Frame, h: nat, phase: Phase) {
    h < |f.holders| && f.holders[h].Detaching? && f.holders[h].phase == phase
  }

  /** FltData only runs for an attached socket, and the stack detaches a socket only when no FltData is under way. */
  predicate MayStep(f: Frame, e: Event) {
    match e
    case Insert(h) => At(f, h, Creating)
    case Local(l) => InUse(f) && (l.Allocate? ==> f.stage == Attached)
    case Queue(i, copyFailed) => f.stage == Attached
    case Retain => f.insertedInSocketsList
    case Respond(h, _, _, _) => At(f, h, Using)
    case Pop => f.insertedInSocketsListToReport
    case Pass(h, attempts) => At(f, h, Popped)
    case Reinsert(h) => At(f, h, Passed(true))
    case Drop(h) => At(f, h, Using) || At(f, h, Passed(false))
    case BeginDetach => f.stage == Attached
    case Unlist(h) => InPhase(f, h, Retained)
    case Unreport(h) => InPhase(f, h, Unlisted)
    case ReleaseOwed(h) => InPhase(f, h, Unreported) && f.holders[h].owed > 0
    case Bar(h) => At(f, h, Detaching(Unreported, 0))
    case PurgeAll(h) => At(f, h, Detaching(Barred, 0))
    case FinishDetach(h) => At(f, h, Detaching(Emptied, 0))
  }

  predicate WorldAllows(w: Runs.World, e: Event) {
    match e
    case Local(l) => !l.Enqueue? && !l.Deliver? && !l.Verdict? && Runs.Enabled(w, l)
    case Queue(i, copyFailed) => Runs.Enabled(w, Runs.Enqueue(i, copyFailed))
    case Pass(h, attempts) => Runs.Enabled(w, Runs.Deliver(attempts))
    case BeginDetach => w.inFlight == []
    case PurgeAll(h) => Runs.Enabled(w, Runs.Purge(All))
    case FinishDetach(h) => w.s.numberOfPendingOutPackets == 0 && w.s.numberOfPendingInPackets == 0
    case _ => true
  }

  predicate Enabled(o: Object, e: Event) {
    MayStep(o.frame, e) && WorldAllows(o.world, e)
  }

  function One(b: bool): nat {
    if b then 1 else 0
  }

  function Enter(f: Frame, h: Holder): Frame {
    f.(retainCount := f.retainCount + 1, holders := f.holders + [h])
  }

  function Become(f: Frame, h: nat, holder: Holder): Frame
    requires h < |f.holders|
  {
    f.(holders := f.holders[h := holder])
  }

  function Release(f: Frame, h: nat): Frame
    requires h < |f.holders|
  {
    Become(f, h, Idle).(retainCount := f.retainCount - 1)
  }

  /** first: a packet is queued for later reporting while none was waiting; stopped: the pass ended before the queue did. */
  function FrameStep(f: Frame, e: Event, first: bool, stopped: bool): Frame
    requires MayStep(f, e)
  {
    match e
    case Insert(h) =>
      if f.insertedInSocketsList then Become(f, h, Using)
      else Become(f, h, Using).(insertedInSocketsList := true, retainCount := f.retainCount + 1, stage := Attached)
    case Queue(_, _) =>
      if !first || f.insertedInSocketsListToReport then f
      else f.(insertedInSocketsListToReport := true, retainCount := f.retainCount + 1)
    case Retain => Enter(f, Using)
    case Pop => f.(insertedInSocketsListToReport := false, holders := f.holders + [Popped])
    case Pass(h, _) => Become(f, h, Passed(stopped))
    case Reinsert(h) =>
      if f.insertedInSocketsListToReport then Become(f, h, Passed(false))
      else Become(f, h, Idle).(insertedInSocketsListToReport := true)
    case Drop(h) => Release(f, h)
    case BeginDetach => Enter(f, Detaching(Retained, 0)).(stage := Leaving)
    case Unlist(h) =>
      Become(f, h, Detaching(Unlisted, f.holders[h].owed + One(f.insertedInSocketsList))).(insertedInSocketsList := false)
    case Unreport(h) =>
      Become(f, h, Detaching(Unreported, f.holders[h].owed + One(f.insertedInSocketsListToReport))).(insertedInSocketsListToReport := false)
    case ReleaseOwed(h) => Become(f, h, Detaching(Unreported, f.holders[h].owed - 1)).(retainCount := f.retainCount - 1)
    case Bar(h) => Become(f, h, Detaching(Barred, 0))
    case PurgeAll(h) => Become(f, h, Detaching(Emptied, 0)).(stage := Detached)
    case FinishDetach(h) => Release(f, h)
    case _ => f
  }

  /** What the event does to the packets of the socket. */
  function WorldStep(o: Object, e: Event): Runs.World
    requires WorldAllows(o.world, e)
  {
    match e
    case Local(l) => Runs.Apply(o.world, l)
    case Queue(i, copyFailed) => Runs.Apply(o.world, Runs.Enqueue(i, copyFailed))
    case Respond(_, sequence, index, allow) =>
      if sequence == o.socketSequence then Runs.Apply(o.world, Runs.Verdict(index, allow)) else o.world
    case Pass(_, attempts) => Runs.Apply(o.world, Runs.Deliver(attempts))
    case PurgeAll(_) => Runs.Apply(o.world, Runs.Purge(All))
    case _ => o.world
  }

  predicate First(s: Socket, e: Event) {
    e.Queue? && Defers(s, e.copyFailed) && s.packetsWaitingForReporting == 0
  }

  predicate Stopped(s: Socket, e: Event)
    requires e.Pass? ==> |e.attempts| >= |s.pendingQueue|
  {
    e.Pass? && Done(s.pendingQueue, e.attempts) < |s.pendingQueue|
  }

  function Step(o: Object, e: Event): Object
    requires Enabled(o, e)
  {
    o.(world := WorldStep(o, e), frame := FrameStep(o.frame, e, First(o.world.s, e), Stopped(o.world.s, e)))
  }

  // ---------------------------------------------------------------- the invariant

  function References(h: Holder): nat {
    match h
    case Idle => 0
    case Detaching(_, owed) => 1 + owed
    case _ => 1
  }

  function Held(holders: seq<Holder>): nat {
    if holders == [] then 0 else References(holders[0]) + Held(holders[1..])
  }

  /** The reference count is one for each list the object is in and one for each reference an activation holds. */
  predicate Balanced(f: Frame) {
    f.retainCount == One(f.insertedInSocketsList) + One(f.insertedInSocketsListToReport) + Held(f.holders)
  }

  /** Nothing is queued, being injected or on its way into the queue. */
  predicate Quiet(w: Runs.World) {
    w.inFlight == [] && w.s.pendingQueue == [] && w.s.packetsToInject == []
  }

  predicate Owner(h: Holder) {
    h.Creating? || h.Detaching?
  }

  function StageOf(h: Holder): Stage
    requires Owner(h)
  {
    if h.Creating? then Created else if h.phase == Emptied then Detached else Leaving
  }

  /** The one activation that creates or detaches the object stands at the object's stage. */
  ghost predicate Staffed(holders: seq<Holder>, stage: Stage) {
    && (forall i :: 0 <= i < |holders| && Owner(holders[i]) ==> StageOf(holders[i]) == stage)
    && (forall i, j :: 0 <= i < j < |holders| ==> !(Owner(holders[i]) && Owner(holders[j])))
    && (stage == Created || stage == Leaving ==> exists i :: 0 <= i < |holders| && Owner(holders[i]))
  }

  predicate Taken(h: Holder) {
    h.Detaching? && h.phase != Retained
  }

  /** The purge comes after the references of the lists have been released. */
  predicate Paid(h: Holder) {
    h.Detaching? && (h.phase == Barred || h.phase == Emptied) ==> h.owed == 0
  }

  /** At which stages the object can be found. */
  ghost predicate Findable(f: Frame) {
    && (forall i :: 0 <= i < |f.holders| && Taken(f.holders[i]) ==> !f.insertedInSocketsList)
    && (f.stage == Attached ==> f.insertedInSocketsList)
    && (f.stage == Created || f.stage == Detached ==> !f.insertedInSocketsList)
    && (forall i :: 0 <= i < |f.holders| ==> Paid(f.holders[i]))
  }

  /** What it contains at each stage. */
  predicate Settled(w: Runs.World, stage: Stage) {
    match stage
    case Attached => true
    case Leaving => w.inFlight == []
    case _ => Quiet(w)
  }

  predicate Deliverer(h: Holder) {
    h.Popped? || h == Passed(true)
  }

  /** The object is in the report list, or some deliverer will still process or reinsert it. */
  ghost predicate Awaited(f: Frame) {
    f.insertedInSocketsListToReport || exists i :: 0 <= i < |f.holders| && Deliverer(f.holders[i])
  }

  /** No attached socket with packets to report is forgotten. */
  ghost predicate Covered(o: Object) {
    o.frame.stage == Attached && o.world.s.packetsWaitingForReporting > 0 ==> Awaited(o.frame)
  }

  ghost predicate Sound(f: Frame) {
    Balanced(f) && Staffed(f.holders, f.stage) && Findable(f)
  }

  ghost predicate Inv(o: Object) {
    Runs.Inv(o.world) && Sound(o.frame) && Settled(o.world, o.frame.stage) && Covered(o)
  }

  // ---------------------------------------------------------------- references

  lemma {:induction false} HeldUpdate(holders: seq<Holder>, i: nat, h: Holder)
    requires i < |holders|
    ensures Held(holders[i := h]) == Held(holders) - References(holders[i]) + References(h)
  {
    if i > 0 {
      assert holders[i := h][1..] == holders[1..][i - 1 := h];
      HeldUpdate(holders[1..], i - 1, h);
    }
  }

  lemma {:induction false} HeldAppend(holders: seq<Holder>, h: Holder)
    ensures Held(holders + [h]) == Held(holders) + References(h)
  {
    if holders != [] {
      assert (holders + [h])[1..] == holders[1..] + [h];
      HeldAppend(holders[1..], h);
    }
  }

  lemma {:induction false} HeldMember(holders: seq<Holder>, i: nat)
    requires i < |holders| && holders[i] != Idle
    ensures Held(holders) > 0
  {
    if i > 0 {
      HeldMember(holders[1..], i - 1);
    }
  }

  // one slot changes, and with it the count and the lists
  lemma Rebalanced(f: Frame, h: nat, holder: Holder, f': Frame)
    requires Balanced(f) && h < |f.holders| && f'.holders == f.holders[h := holder]
    requires f'.retainCount - One(f'.insertedInSocketsList) - One(f'.insertedInSocketsListToReport) - References(holder)
             == f.retainCount - One(f.insertedInSocketsList) - One(f.insertedInSocketsListToReport) - References(f.holders[h])
    ensures Balanced(f')
  {
    HeldUpdate(f.holders, h, holder);
  }

  lemma BalancedEnter(f: Frame, holder: Holder, f': Frame)
    requires Balanced(f) && f'.holders == f.holders + [holder]
    requires f'.retainCount - One(f'.insertedInSocketsList) - One(f'.insertedInSocketsListToReport) - References(holder)
             == f.retainCount - One(f.insertedInSocketsList) - One(f.insertedInSocketsListToReport)
    ensures Balanced(f')
  {
    HeldAppend(f.holders, holder);
  }

  predicate DetachStep(e: Event) {
    e.Unlist? || e.Unreport? || e.ReleaseOwed? || e.Bar? || e.PurgeAll? || e.FinishDetach?
  }

  lemma BalancedDetach(f: Frame, e: Event, first: bool, stopped: bool)
    requires Balanced(f) && MayStep(f, e) && DetachStep(e)
    ensures Balanced(FrameStep(f, e, first, stopped))
  {
    hide Balanced;
    var f' := FrameStep(f, e, first, stopped);
    match e
    case Unlist(h) => Rebalanced(f, h, Detaching(Unlisted, f.holders[h].owed + One(f.insertedInSocketsList)), f');
    case Unreport(h) => Rebalanced(f, h, Detaching(Unreported, f.holders[h].owed + One(f.insertedInSocketsListToReport)), f');
    case ReleaseOwed(h) => Rebalanced(f, h, Detaching(Unreported, f.holders[h].owed - 1), f');
    case Bar(h) => Rebalanced(f, h, Detaching(Barred, 0), f');
    case PurgeAll(h) => Rebalanced(f, h, Detaching(Emptied, 0), f');
    case FinishDetach(h) => Rebalanced(f, h, Idle, f');
    case _ =>
  }

  lemma BalancedKeeps(f: Frame, e: Event, first: bool, stopped: bool)
    requires Balanced(f) && MayStep(f, e)
    ensures Balanced(FrameStep(f, e, first, stopped))
  {
    hide InUse;
    if e.Queue? {
    } else if DetachStep(e) {
      hide FrameStep;
      BalancedDetach(f, e, first, stopped);
    } else {
      hide Balanced;
      var f' := FrameStep(f, e, first, stopped);
      match e
      case Retain => BalancedEnter(f, Using, f');
      case Pop => BalancedEnter(f, Popped, f');
      case BeginDetach => BalancedEnter(f, Detaching(Retained, 0), f');
      case Insert(h) => Rebalanced(f, h, Using, f');
      case Pass(h, _) => Rebalanced(f, h, Passed(stopped), f');
      case Reinsert(h) => Rebalanced(f, h, if f.insertedInSocketsListToReport then Passed(false) else Idle, f');
      case Drop(h) => Rebalanced(f, h, Idle, f');
      case _ =>
    }
  }

  // ---------------------------------------------------------------- stages

  lemma QuietKeeps(w: Runs.World, e: Runs.Step)
    requires Runs.Enabled(w, e) && !e.Allocate?
    ensures w.inFlight == [] ==> Runs.Apply(w, e).inFlight == []
    ensures Quiet(w) ==> Quiet(Runs.Apply(w, e))
  {
    hide Waiters;
    hide Waiting;
    hide Tickets;
    hide Bytes;
    match e
    case Take(t, clock) =>
      if w.s.pendingQueue == [] {
        assert Collected([], t, clock) == [] && AfterCollect([], t, clock) == [];
      }
    case _ =>
  }

  /** A full purge empties the queue; the injection mutex keeps local lists out. */
  lemma PurgeQuiets(w: Runs.World)
    requires Runs.WellFormed(w) && Runs.Enabled(w, Runs.Purge(All)) && w.inFlight == []
    ensures Quiet(Runs.Apply(w, Runs.Purge(All)))
  {
    hide Shape;
    hide Waiters;
    hide Waiting;
    hide Tickets;
    hide Bytes;
    hide Select;
    AllWithout(w.s.pendingQueue);
  }

  lemma {:induction false} AllWithout(q: seq<Packet>)
    ensures Without(q, All) == []
  {
    if q != [] {
      AllWithout(q[1..]);
    }
  }

  lemma StaffedAppend(holders: seq<Holder>, stage: Stage, holder: Holder)
    requires Staffed(holders, stage) && !Owner(holder)
    ensures Staffed(holders + [holder], stage)
  {
    if stage == Created || stage == Leaving {
      var i :| 0 <= i < |holders| && Owner(holders[i]);
      assert Owner((holders + [holder])[i]);
    }
  }

  lemma StaffedUpdate(holders: seq<Holder>, stage: Stage, h: nat, holder: Holder)
    requires Staffed(holders, stage) && h < |holders| && Owner(holder) == Owner(holders[h])
    requires Owner(holder) ==> StageOf(holder) == stage
    ensures Staffed(holders[h := holder], stage)
  {
    if stage == Created || stage == Leaving {
      var i :| 0 <= i < |holders| && Owner(holders[i]);
      assert Owner(holders[h := holder][i]);
    }
  }

  // the owner moves the object on
  lemma StaffedAdvance(holders: seq<Holder>, stage: Stage, h: nat, holder: Holder, stage': Stage)
    requires Staffed(holders, stage) && h < |holders| && Owner(holders[h])
    requires if Owner(holder) then StageOf(holder) == stage' else stage' == Attached || stage' == Detached
    ensures Staffed(holders[h := holder], stage')
  {
    assert forall i :: 0 <= i < |holders| && i != h ==> !Owner(holders[i]);
    assert holders[h := holder][h] == holder;
  }

  lemma StaffedDetach(f: Frame, e: Event, first: bool, stopped: bool)
    requires Staffed(f.holders, f.stage) && MayStep(f, e) && DetachStep(e)
    ensures Staffed(FrameStep(f, e, first, stopped).holders, FrameStep(f, e, first, stopped).stage)
  {
    OwnersStand(f.holders, f.stage);
    hide Staffed;
    hide One;
    match e
    case Unlist(h) => StaffedUpdate(f.holders, f.stage, h, Detaching(Unlisted, f.holders[h].owed + One(f.insertedInSocketsList)));
    case Unreport(h) => StaffedUpdate(f.holders, f.stage, h, Detaching(Unreported, f.holders[h].owed + One(f.insertedInSocketsListToReport)));
    case ReleaseOwed(h) => StaffedUpdate(f.holders, f.stage, h, Detaching(Unreported, f.holders[h].owed - 1));
    case Bar(h) => StaffedUpdate(f.holders, f.stage, h, Detaching(Barred, 0));
    case PurgeAll(h) => StaffedAdvance(f.holders, f.stage, h, Detaching(Emptied, 0), Detached);
    case FinishDetach(h) => StaffedAdvance(f.holders, f.stage, h, Idle, Detached);
    case _ =>
  }

  lemma StaffedKeeps(f: Frame, e: Event, first: bool, stopped: bool)
    requires Staffed(f.holders, f.stage) && Findable(f) && MayStep(f, e)
    ensures Staffed(FrameStep(f, e, first, stopped).holders, FrameStep(f, e, first, stopped).stage)
  {
    OwnersStand(f.holders, f.stage);
    hide Staffed;
    hide InUse;
    if DetachStep(e) {
      hide FrameStep;
      StaffedDetach(f, e, first, stopped);
    } else {
      match e
      case Retain => StaffedAppend(f.holders, f.stage, Using);
      case Pop => StaffedAppend(f.holders, f.stage, Popped);
      case Pass(h, _) => StaffedUpdate(f.holders, f.stage, h, Passed(stopped));
      case Reinsert(h) => StaffedUpdate(f.holders, f.stage, h, if f.insertedInSocketsListToReport then Passed(false) else Idle);
      case Drop(h) => StaffedUpdate(f.holders, f.stage, h, Idle);
      case Insert(h) =>
        assert Owner(f.holders[h]);
        StaffedAdvance(f.holders, f.stage, h, Using, Attached);
      case BeginDetach => StaffedBegin(f.holders, f.stage);
      case _ =>
    }
  }

  lemma OwnersStand(holders: seq<Holder>, stage: Stage)
    requires Staffed(holders, stage)
    ensures forall i :: 0 <= i < |holders| && Owner(holders[i]) ==> StageOf(holders[i]) == stage
  {
  }

  lemma StaffedBegin(holders: seq<Holder>, stage: Stage)
    requires Staffed(holders, stage) && stage == Attached
    ensures Staffed(holders + [Detaching(Retained, 0)], Leaving)
  {
    assert (holders + [Detaching(Retained, 0)])[|holders|] == Detaching(Retained, 0);
  }

  lemma PaidKeeps(f: Frame, e: Event, first: bool, stopped: bool)
    requires MayStep(f, e) && forall i :: 0 <= i < |f.holders| ==> Paid(f.holders[i])
    ensures var f' := FrameStep(f, e, first, stopped); forall i :: 0 <= i < |f'.holders| ==> Paid(f'.holders[i])
  {
    hide InUse;
    hide One;
  }

  lemma FindableKeeps(f: Frame, e: Event, first: bool, stopped: bool)
    requires Sound(f) && MayStep(f, e)
    ensures Findable(FrameStep(f, e, first, stopped))
  {
    OwnersStand(f.holders, f.stage);
    PaidKeeps(f, e, first, stopped);
    hide Balanced;
    hide Paid;
    hide InUse;
    hide One;
    if e.Insert? {
      assert Owner(f.holders[e.h]);
    }
  }

  lemma SoundKeeps(f: Frame, e: Event, first: bool, stopped: bool)
    requires Sound(f) && MayStep(f, e)
    ensures Sound(FrameStep(f, e, first, stopped))
  {
    BalancedKeeps(f, e, first, stopped);
    StaffedKeeps(f, e, first, stopped);
    FindableKeeps(f, e, first, stopped);
    hide FrameStep;
    hide MayStep;
  }

  // how the stage can change
  lemma StageChanges(f: Frame, e: Event, first: bool, stopped: bool)
    requires Sound(f) && MayStep(f, e)
    ensures var f' := FrameStep(f, e, first, stopped);
            && (f.stage == Attached ==> f'.stage == Attached || (e.BeginDetach? && f'.stage == Leaving))
            && (f'.stage == Attached && f.stage != Attached ==> e.Insert? && f.stage == Created)
            && (f.stage == Detached ==> f'.stage == Detached)
            && (f.stage == Leaving ==> f'.stage == if e.PurgeAll? then Detached else Leaving)
            && (f.stage == Created && f'.stage != Attached ==> f'.stage == Created)
            && (e.PurgeAll? ==> f.stage == Leaving)
            && ((e.Queue? || (e.Local? && e.e.Allocate?)) ==> f.stage == Attached)
  {
    OwnersStand(f.holders, f.stage);
    hide Staffed;
    hide Balanced;
    hide InUse;
    match e
    case Insert(h) => assert Owner(f.holders[h]);
    case PurgeAll(h) => assert Owner(f.holders[h]);
    case _ =>
  }

  lemma SettledKeeps(o: Object, e: Event)
    requires Runs.WellFormed(o.world) && Sound(o.frame) && Settled(o.world, o.frame.stage) && Enabled(o, e)
    ensures Settled(Step(o, e).world, Step(o, e).frame.stage)
  {
    StageChanges(o.frame, e, First(o.world.s, e), Stopped(o.world.s, e));
    hide FrameStep;
    hide MayStep;
    hide Sound;
    hide Quiet;
    hide Done;
    hide Defers;
    hide Runs.WellFormed;
    hide Runs.Apply;
    hide Runs.Enabled;
    match e
    case Local(l) => if !l.Allocate? { QuietKeeps(o.world, l); }
    case Respond(_, _, index, allow) =>
      VerdictEnabled(o.world, index, allow);
      QuietKeeps(o.world, Runs.Verdict(index, allow));
    case Pass(_, attempts) => QuietKeeps(o.world, Runs.Deliver(attempts));
    case PurgeAll(h) => PurgeQuiets(o.world);
    case _ =>
  }

  lemma VerdictEnabled(w: Runs.World, index: nat, allow: bool)
    ensures Runs.Enabled(w, Runs.Verdict(index, allow))
  {
  }

  // ---------------------------------------------------------------- nobody is stranded

  /** Packets start to wait only when the first one is queued unreported, and a pass leaves some waiting only if it stops early. */
  lemma WaitingChanges(w: Runs.World, e: Runs.Step)
    requires Runs.WellFormed(w) && Runs.Enabled(w, e)
    ensures Runs.Apply(w, e).s.packetsWaitingForReporting > 0 ==>
              || w.s.packetsWaitingForReporting > 0
              || (e.Enqueue? && Defers(w.s, e.copyFailed) && w.s.packetsWaitingForReporting == 0)
    ensures e.Deliver? && Runs.Apply(w, e).s.packetsWaitingForReporting > 0 ==> Done(w.s.pendingQueue, e.attempts) < |w.s.pendingQueue|
  {
    hide Shape;
    hide Waiters;
    hide Waiting;
    hide Tickets;
    hide Bytes;
    hide Select;
    hide Without;
    hide Done;
    hide AfterDelivery;
    match e
    case Deliver(attempts) =>
      Runs.WellFormedKeeps(w, e);
      DeliveryKeeps(w.s.pendingQueue, attempts);
    case _ =>
  }

  lemma WorldWaits(o: Object, e: Event)
    requires Runs.WellFormed(o.world) && WorldAllows(o.world, e)
    ensures WorldStep(o, e).s.packetsWaitingForReporting > 0 ==> o.world.s.packetsWaitingForReporting > 0 || First(o.world.s, e)
    ensures e.Pass? && WorldStep(o, e).s.packetsWaitingForReporting > 0 ==> Stopped(o.world.s, e)
  {
    hide Runs.WellFormed;
    hide Runs.Apply;
    hide Runs.Enabled;
    hide Done;
    hide Defers;
    match e
    case Local(l) => WaitingChanges(o.world, l);
    case Queue(i, copyFailed) => WaitingChanges(o.world, Runs.Enqueue(i, copyFailed));
    case Respond(_, _, index, allow) =>
      VerdictEnabled(o.world, index, allow);
      WaitingChanges(o.world, Runs.Verdict(index, allow));
    case Pass(_, attempts) => WaitingChanges(o.world, Runs.Deliver(attempts));
    case PurgeAll(_) => WaitingChanges(o.world, Runs.Purge(All));
    case _ =>
  }

  lemma AwaitedKeeps(f: Frame, e: Event, first: bool, stopped: bool)
    requires Sound(f) && MayStep(f, e)
    ensures first && e.Queue? ==> Awaited(FrameStep(f, e, first, stopped))
    ensures stopped && e.Pass? ==> Awaited(FrameStep(f, e, first, stopped))
    ensures Awaited(f) && !e.Pass? && FrameStep(f, e, first, stopped).stage == Attached ==> Awaited(FrameStep(f, e, first, stopped))
  {
    OwnersStand(f.holders, f.stage);
    hide Staffed;
    hide Balanced;
    hide InUse;
    var f' := FrameStep(f, e, first, stopped);
    if e.Pass? {
      assert stopped ==> Deliverer(f'.holders[e.h]);
    } else if e.Unreport? {
      assert Owner(f.holders[e.h]);
    } else if e.Pop? {
      assert Deliverer(f'.holders[|f.holders|]);
    } else if !f.insertedInSocketsListToReport && Awaited(f) {
      var i :| 0 <= i < |f.holders| && Deliverer(f.holders[i]);
      assert Deliverer(f'.holders[i]) || f'.insertedInSocketsListToReport;
    }
  }

  lemma CoveredKeeps(o: Object, e: Event)
    requires Runs.WellFormed(o.world) && Sound(o.frame) && Settled(o.world, o.frame.stage) && Covered(o) && Enabled(o, e)
    ensures Covered(Step(o, e))
  {
    WorldWaits(o, e);
    NothingWaits(o);
    StageChanges(o.frame, e, First(o.world.s, e), Stopped(o.world.s, e));
    AwaitedKeeps(o.frame, e, First(o.world.s, e), Stopped(o.world.s, e));
    hide FrameStep;
    hide WorldStep;
    hide MayStep;
    hide Sound;
    hide Settled;
    hide Done;
    hide Defers;
    hide Awaited;
    hide Runs.WellFormed;
  }

  lemma NothingWaits(o: Object)
    requires Runs.WellFormed(o.world) && Settled(o.world, o.frame.stage)
    ensures o.frame.stage == Created || o.frame.stage == Detached ==> o.world.s.packetsWaitingForReporting == 0
  {
    hide Shape;
    assert Waiting([]) == 0;
  }

  // ---------------------------------------------------------------- the whole invariant

  lemma WorldKeeps(o: Object, e: Event)
    requires Runs.Inv(o.world) && WorldAllows(o.world, e)
    ensures Runs.Inv(WorldStep(o, e))
  {
    hide Runs.Apply;
    hide Runs.Inv;
    match e
    case Local(l) => Runs.InvKeeps(o.world, l);
    case Queue(i, copyFailed) => Runs.InvKeeps(o.world, Runs.Enqueue(i, copyFailed));
    case Respond(_, _, index, allow) => Runs.InvKeeps(o.world, Runs.Verdict(index, allow));
    case Pass(_, attempts) => Runs.InvKeeps(o.world, Runs.Deliver(attempts));
    case PurgeAll(h) => Runs.InvKeeps(o.world, Runs.Purge(All));
    case _ =>
  }

  lemma WellFormedWorld(w: Runs.World)
    requires Runs.Inv(w)
    ensures Runs.WellFormed(w) && Runs.Counted(w)
  {
  }

  lemma InvKeeps(o: Object, e: Event)
    requires Inv(o) && Enabled(o, e)
    ensures Inv(Step(o, e))
  {
    WellFormedWorld(o.world);
    hide Runs.Inv;
    hide Runs.WellFormed;
    hide Sound;
    hide Settled;
    hide Covered;
    hide MayStep;
    hide WorldAllows;
    hide WorldStep;
    hide FrameStep;
    WorldKeeps(o, e);
    SoundKeeps(o.frame, e, First(o.world.s, e), Stopped(o.world.s, e));
    SettledKeeps(o, e);
    CoveredKeeps(o, e);
  }

  lemma NewObjectInv(so: nat, sequence: nat)
    ensures Inv(NewObject(so, sequence))
  {
    Runs.FreshInv(FreshWorld());
    hide Runs.Inv;
    assert NewObject(so, sequence).frame.holders[0] == Creating;
    assert Held([Creating][1..]) == 0;
  }

  // ---------------------------------------------------------------- what follows

  /** No stranded socket. */
  lemma NoStrandedSocket(o: Object)
    requires Inv(o) && o.frame.stage == Attached && o.world.s.packetsWaitingForReporting > 0
    ensures o.frame.insertedInSocketsListToReport || Popped in o.frame.holders || Passed(true) in o.frame.holders
  {
    hide Runs.Inv;
    hide Sound;
    if !o.frame.insertedInSocketsListToReport {
      var i :| 0 <= i < |o.frame.holders| && Deliverer(o.frame.holders[i]);
      assert o.frame.holders[i] in o.frame.holders;
    }
  }

  /** Whoever may still enter the object, or find it in a list, finds it alive. */
  lemma InUseIsAlive(f: Frame)
    requires Sound(f) && (InUse(f) || f.insertedInSocketsList || f.insertedInSocketsListToReport)
    ensures f.retainCount > 0
  {
    if i :| 0 <= i < |f.holders| && f.holders[i] != Idle {
      HeldMember(f.holders, i);
    }
  }

  /** When the last reference goes, the object has been detached and everything free() expects holds;
      nobody can enter it any more. */
  lemma FreedIsClean(o: Object)
    requires Inv(o) && o.frame.retainCount == 0
    ensures o.frame.stage == Detached && !InUse(o.frame)
    ensures o.world.s.pendingQueue == [] && o.world.s.packetsWaitingForReporting == 0
    ensures !o.frame.insertedInSocketsList && !o.frame.insertedInSocketsListToReport
  {
    WellFormedWorld(o.world);
    hide Covered;
    hide Runs.WellFormed;
    hide Runs.Inv;
    if InUse(o.frame) || o.frame.insertedInSocketsList || o.frame.insertedInSocketsListToReport {
      InUseIsAlive(o.frame);
    }
    NothingWaits(o);
  }

  /** Once FltDetach has purged the queue, the counters it waits for are zero: its wait loops end. */
  lemma DetachCompletes(o: Object, h: nat)
    requires Inv(o) && At(o.frame, h, Detaching(Emptied, 0))
    ensures Enabled(o, FinishDetach(h))
    ensures Quiet(o.world) && o.world.s.packetsWaitingForReporting == 0
    ensures forall d :: Packets(o.world.s, d) == 0 && PendingBytes(o.world.s, d) == 0
  {
    assert Owner(o.frame.holders[h]);
    hide Covered;
    hide Balanced;
    hide Shape;
    WellFormedWorld(o.world);
    hide Runs.Inv;
    NothingWaits(o);
    forall d ensures Packets(o.world.s, d) == 0 && PendingBytes(o.world.s, d) == 0 {
      assert Runs.CountedIn(o.world, d);
      assert Tickets([], d) == [] && Bytes([]) == 0;
    }
    assert Packets(o.world.s, true) == 0 && Packets(o.world.s, false) == 0;
  }

  /** Whatever happens to a purged object brings no packet back. */
  lemma PurgedStaysQuiet(o: Object, e: Event)
    requires Inv(o) && o.frame.stage == Detached && Enabled(o, e)
    ensures Step(o, e).frame.stage == Detached && Quiet(Step(o, e).world)
  {
    WellFormedWorld(o.world);
    StageChanges(o.frame, e, First(o.world.s, e), Stopped(o.world.s, e));
    hide Runs.Inv;
    hide Runs.WellFormed;
    hide Covered;
    hide Sound;
    hide MayStep;
    hide WorldAllows;
    hide FrameStep;
    hide WorldStep;
    SettledKeeps(o, e);
  }

  /** The slot of a detach is left only when the object is detached for good, and a slot that was left is not used again. */
  lemma DetachSlot(f: Frame, e: Event, first: bool, stopped: bool, d: nat)
    requires Sound(f) && MayStep(f, e) && d < |f.holders|
    requires f.holders[d].Detaching? || (f.holders[d] == Idle && f.stage == Detached)
    ensures var f' := FrameStep(f, e, first, stopped);
            && d < |f'.holders|
            && (f'.holders[d].Detaching? || (f'.holders[d] == Idle && f'.stage == Detached))
  {
    assert f.holders[d].Detaching? ==> Owner(f.holders[d]);
    StageChanges(f, e, first, stopped);
    OwnersStand(f.holders, f.stage);
    hide Staffed;
    hide Balanced;
    hide Findable;
    hide InUse;
  }

  // ---------------------------------------------------------------- when a list is entered and left

  /** A socket enters the report list exactly when its first packet has to wait or a deliverer that stopped early puts it back,
      and leaves it exactly when a deliverer takes it or FltDetach removes it. */
  lemma ReportListIff(o: Object, e: Event)
    requires Inv(o) && Enabled(o, e)
    ensures var listed, listed' := o.frame.insertedInSocketsListToReport, Step(o, e).frame.insertedInSocketsListToReport;
            var waiting, waiting' := o.world.s.packetsWaitingForReporting, Step(o, e).world.s.packetsWaitingForReporting;
            && (!listed && listed' <==> !listed && (e.Reinsert? || (e.Queue? && waiting == 0 && waiting' > 0)))
            && (listed && !listed' <==> listed && (e.Pop? || e.Unreport?))
  {
    QueueWaits(o, e);
    hide Inv;
    hide WorldStep;
    hide WorldAllows;
    hide InUse;
  }

  lemma QueueWaits(o: Object, e: Event)
    requires Inv(o) && Enabled(o, e)
    ensures First(o.world.s, e) <==>
              e.Queue? && o.world.s.packetsWaitingForReporting == 0 && Step(o, e).world.s.packetsWaitingForReporting > 0
  {
    hide Inv;
    hide FrameStep;
    hide MayStep;
    hide Waiters;
  }

  /** After its pass a deliverer has to put the socket back exactly if packets still wait. */
  lemma PassLeavesIff(o: Object, h: nat, attempts: seq<Attempt>)
    requires Inv(o) && Enabled(o, Pass(h, attempts))
    ensures var o' := Step(o, Pass(h, attempts));
            && o'.frame.holders == o.frame.holders[h := Passed(o'.world.s.packetsWaitingForReporting > 0)]
            && o'.frame.retainCount == o.frame.retainCount
  {
    assert Runs.WellFormed(o.world);
    DeliveryKeeps(o.world.s.pendingQueue, attempts);
    Runs.WellFormedKeeps(o.world, Runs.Deliver(attempts));
    hide Inv;
    hide Runs.WellFormed;
    hide Waiters;
    hide Waiting;
    hide Done;
    hide AfterDelivery;
    hide InUse;
  }

  /** A socket enters the list of sockets exactly with the insertion of a new object and leaves it exactly with its detach. */
  lemma SocketsListIff(o: Object, e: Event)
    requires Inv(o) && Enabled(o, e)
    ensures var listed, listed' := o.frame.insertedInSocketsList, Step(o, e).frame.insertedInSocketsList;
            && (!listed && listed' <==> e.Insert?)
            && (listed && !listed' <==> listed && e.Unlist?)
            && (e.Insert? ==> Step(o, e).frame.stage == Attached)
  {
    OwnersStand(o.frame.holders, o.frame.stage);
    assert e.Insert? ==> Owner(o.frame.holders[e.h]);
    hide Runs.Inv;
    hide Covered;
    hide Settled;
    hide Staffed;
    hide Balanced;
    hide WorldStep;
    hide WorldAllows;
    hide InUse;
  }

  // ---------------------------------------------------------------- nothing is stuck

  /** These events can happen one after the other. */
  predicate Possible(o: Object, more: seq<Event>)
    decreases |more|
  {
    more == [] || (Enabled(o, more[0]) && Possible(Step(o, more[0]), more[1..]))
  }

  function After(o: Object, more: seq<Event>): Object
    requires Possible(o, more)
    decreases |more|
  {
    if more == [] then o else After(Step(o, more[0]), more[1..])
  }

  lemma FirstThen(o: Object, e: Event, rest: seq<Event>)
    requires Enabled(o, e) && Possible(Step(o, e), rest)
    ensures Possible(o, [e] + rest) && After(o, [e] + rest) == After(Step(o, e), rest)
  {
    hide Enabled;
    hide Step;
    assert ([e] + rest)[1..] == rest;
  }

  /** How many steps an activation of an object that is being detached has to go at most. */
  function ToGo(h: Holder): nat {
    match h
    case Idle => 0
    case Creating => 0
    case Using => 1
    case Popped => 2
    case Passed(again) => if again then 4 else 1
    case Detaching(phase, owed) =>
      match phase
      case Retained => owed + 6
      case Unlisted => owed + 4
      case Unreported => owed + 3
      case Barred => 2
      case Emptied => 1
  }

  function AllToGo(holders: seq<Holder>): nat {
    if holders == [] then 0 else ToGo(holders[0]) + AllToGo(holders[1..])
  }

  lemma {:induction false} AllToGoUpdate(holders: seq<Holder>, i: nat, h: Holder)
    requires i < |holders|
    ensures AllToGo(holders[i := h]) == AllToGo(holders) - ToGo(holders[i]) + ToGo(h)
  {
    if i > 0 {
      assert holders[i := h][1..] == holders[1..][i - 1 := h];
      AllToGoUpdate(holders[1..], i - 1, h);
    }
  }

  lemma {:induction false} AllToGoAppend(holders: seq<Holder>, h: Holder)
    ensures AllToGo(holders + [h]) == AllToGo(holders) + ToGo(h)
  {
    if holders != [] {
      assert (holders + [h])[1..] == holders[1..] + [h];
      AllToGoAppend(holders[1..], h);
    } else {
      assert ([] + [h])[1..] == [];
    }
  }

  /** An injection under way, and a place in the report list, cost steps too. */
  function Burden(o: Object): nat {
    AllToGo(o.frame.holders) + 3 * One(o.frame.insertedInSocketsListToReport)
    + if o.world.s.injectionMutexHeld then |o.world.s.packetsToInject| + 1 else 0
  }

  predicate Ending(f: Frame) {
    f.stage == Leaving || f.stage == Detached
  }

  lemma InjectingEnds(o: Object) returns (e: Event)
    requires Inv(o) && o.frame.stage == Leaving && o.world.s.injectionMutexHeld
    ensures Enabled(o, e) && Burden(Step(o, e)) < Burden(o)
  {
    assert exists i :: 0 <= i < |o.frame.holders| && Owner(o.frame.holders[i]) && o.frame.holders[i] != Idle;
    hide Inv;
    hide AllToGo;
    e := if o.world.s.packetsToInject != [] then Local(Runs.Inject(false)) else Local(Runs.EndInjection);
  }

  lemma ListedEnds(o: Object)
    requires Inv(o) && o.frame.insertedInSocketsListToReport
    ensures Enabled(o, Pop) && Burden(Step(o, Pop)) < Burden(o)
  {
    hide Inv;
    AllToGoAppend(o.frame.holders, Popped);
  }

  /** Attempts that all succeed. */
  function AllReported(q: seq<Packet>): (attempts: seq<Attempt>)
    ensures |attempts| == |q| && forall i :: 0 <= i < |q| ==> attempts[i] == Attempt(false, 0)
  {
    seq(|q|, i => Attempt(false, 0))
  }

  lemma PassEnds(o: Object, h: nat)
    requires At(o.frame, h, Popped)
    ensures var e := Pass(h, AllReported(o.world.s.pendingQueue)); Enabled(o, e) && Burden(Step(o, e)) < Burden(o)
  {
    var q := o.world.s.pendingQueue;
    assert Done(q, AllReported(q)) == |q|;
    AllToGoUpdate(o.frame.holders, h, Passed(false));
    hide AllToGo;
    hide Done;
    hide Waiters;
    hide Waiting;
  }

  // the next event of a deliverer or of a user
  lemma UserEnds(o: Object, h: nat) returns (e: Event)
    requires h < |o.frame.holders| && !o.frame.insertedInSocketsListToReport
    requires o.frame.holders[h].Using? || o.frame.holders[h].Popped? || o.frame.holders[h].Passed?
    ensures Enabled(o, e) && Burden(Step(o, e)) < Burden(o)
  {
    var holder := o.frame.holders[h];
    if holder.Popped? {
      e := Pass(h, AllReported(o.world.s.pendingQueue));
      PassEnds(o, h);
    } else {
      e := if holder == Passed(true) then Reinsert(h) else Drop(h);
      AllToGoUpdate(o.frame.holders, h, Idle);
      hide AllToGo;
    }
  }

  /** The next event of FltDetach. */
  function NextOfDetach(h: nat, holder: Holder): Event
    requires holder.Detaching?
  {
    match holder.phase
    case Retained => Unlist(h)
    case Unlisted => Unreport(h)
    case Unreported => if holder.owed > 0 then ReleaseOwed(h) else Bar(h)
    case Barred => PurgeAll(h)
    case Emptied => FinishDetach(h)
  }

  lemma DetachIsOpen(o: Object, h: nat)
    requires Inv(o) && h < |o.frame.holders| && o.frame.holders[h].Detaching?
    requires o.frame.stage == Leaving ==> !o.world.s.injectionMutexHeld
    ensures Enabled(o, NextOfDetach(h, o.frame.holders[h]))
  {
    OwnersStand(o.frame.holders, o.frame.stage);
    assert Owner(o.frame.holders[h]);
    assert Paid(o.frame.holders[h]);
    if o.frame.holders[h].phase == Emptied {
      DetachCompletes(o, h);
    }
    hide Runs.Inv;
    hide Balanced;
    hide Staffed;
    hide Covered;
    hide Settled;
  }

  lemma DetachKeepsInjection(o: Object, e: Event)
    requires Enabled(o, e) && DetachStep(e)
    ensures Step(o, e).world.s.injectionMutexHeld == o.world.s.injectionMutexHeld
    ensures Step(o, e).world.s.packetsToInject == o.world.s.packetsToInject
  {
    hide FrameStep;
    hide MayStep;
    hide Waiters;
    hide Waiting;
    hide Tickets;
    hide Bytes;
    hide Select;
    hide Without;
  }

  // the slot of FltDetach moves on, the others stay
  lemma DetachBecomes(f: Frame, h: nat) returns (holder: Holder)
    requires h < |f.holders| && f.holders[h].Detaching? && MayStep(f, NextOfDetach(h, f.holders[h]))
    ensures var f' := FrameStep(f, NextOfDetach(h, f.holders[h]), false, false);
            && f'.holders == f.holders[h := holder]
            && ToGo(holder) + 3 * One(f'.insertedInSocketsListToReport)
               < ToGo(f.holders[h]) + 3 * One(f.insertedInSocketsListToReport)
  {
    hide InUse;
    var owed := f.holders[h].owed;
    match f.holders[h].phase {
      case Retained => holder := Detaching(Unlisted, owed + One(f.insertedInSocketsList));
      case Unlisted => holder := Detaching(Unreported, owed + One(f.insertedInSocketsListToReport));
      case Unreported => holder := if owed > 0 then Detaching(Unreported, owed - 1) else Detaching(Barred, 0);
      case Barred => holder := Detaching(Emptied, 0);
      case Emptied => holder := Idle;
    }
  }

  lemma DetachGoesOn(f: Frame, h: nat)
    requires h < |f.holders| && f.holders[h].Detaching? && MayStep(f, NextOfDetach(h, f.holders[h]))
    ensures var f' := FrameStep(f, NextOfDetach(h, f.holders[h]), false, false);
            && |f'.holders| == |f.holders| && f'.holders == f.holders[h := f'.holders[h]]
            && ToGo(f'.holders[h]) + 3 * One(f'.insertedInSocketsListToReport)
               < ToGo(f.holders[h]) + 3 * One(f.insertedInSocketsListToReport)
  {
    hide *;
    var holder := DetachBecomes(f, h);
  }

  lemma DetachEnds(o: Object, h: nat)
    requires h < |o.frame.holders| && o.frame.holders[h].Detaching? && Enabled(o, NextOfDetach(h, o.frame.holders[h]))
    ensures var e := NextOfDetach(h, o.frame.holders[h]); Burden(Step(o, e)) < Burden(o)
  {
    var e := NextOfDetach(h, o.frame.holders[h]);
    DetachKeepsInjection(o, e);
    DetachGoesOn(o.frame, h);
    hide AllToGo;
    hide ToGo;
    hide FrameStep;
    hide MayStep;
    hide WorldStep;
    hide WorldAllows;
    hide One;
    AllToGoUpdate(o.frame.holders, h, Step(o, e).frame.holders[h]);
  }

  // nobody is left
  lemma NobodyLeft(o: Object)
    requires Inv(o) && Ending(o.frame) && !o.frame.insertedInSocketsListToReport
    requires forall h :: 0 <= h < |o.frame.holders| ==> o.frame.holders[h] == Idle
    ensures o.frame.retainCount == 0
  {
    NothingHeld(o.frame.holders);
    hide Runs.Inv;
    hide Covered;
    hide Settled;
  }

  lemma {:induction false} NothingHeld(holders: seq<Holder>)
    requires forall h :: 0 <= h < |holders| ==> holders[h] == Idle
    ensures Held(holders) == 0
  {
    if holders != [] {
      NothingHeld(holders[1..]);
    }
  }

  lemma OnlyEnding(o: Object, h: nat)
    requires Inv(o) && Ending(o.frame) && h < |o.frame.holders|
    ensures !o.frame.holders[h].Creating?
  {
    OwnersStand(o.frame.holders, o.frame.stage);
    if o.frame.holders[h].Creating? {
      assert Owner(o.frame.holders[h]);
    }
  }

  // while somebody is left there is something to do
  lemma NextEvent(o: Object) returns (e: Event)
    requires Inv(o) && Ending(o.frame)
    requires o.frame.insertedInSocketsListToReport || exists h :: 0 <= h < |o.frame.holders| && o.frame.holders[h] != Idle
    ensures Enabled(o, e) && Burden(Step(o, e)) < Burden(o)
  {
    if o.frame.stage == Leaving && o.world.s.injectionMutexHeld {
      e := InjectingEnds(o);
    } else if o.frame.insertedInSocketsListToReport {
      ListedEnds(o);
      e := Pop;
    } else {
      var h :| 0 <= h < |o.frame.holders| && o.frame.holders[h] != Idle;
      OnlyEnding(o, h);
      hide *;
      if o.frame.holders[h].Detaching? {
        DetachIsOpen(o, h);
        DetachEnds(o, h);
        e := NextOfDetach(h, o.frame.holders[h]);
      } else {
        e := UserEnds(o, h);
      }
    }
  }

  lemma EndingStays(o: Object, e: Event)
    requires Inv(o) && Ending(o.frame) && Enabled(o, e)
    ensures Ending(Step(o, e).frame)
  {
    StageChanges(o.frame, e, First(o.world.s, e), Stopped(o.world.s, e));
    hide Runs.Inv;
    hide FrameStep;
    hide WorldStep;
    hide Covered;
    hide Settled;
    hide Sound;
    hide Done;
  }

  /** From every reachable state of an object that is being detached, everybody who holds a reference can finish, the detach comes
      to its end, and then the last reference is gone. */
  lemma {:induction false} FreedInTheEnd(o: Object) returns (more: seq<Event>)
    requires Inv(o) && Ending(o.frame)
    ensures Possible(o, more) && After(o, more).frame.retainCount == 0 && Inv(After(o, more))
    decreases Burden(o)
  {
    if o.frame.insertedInSocketsListToReport || exists h :: 0 <= h < |o.frame.holders| && o.frame.holders[h] != Idle {
      hide *;
      var e := NextEvent(o);
      InvKeeps(o, e);
      EndingStays(o, e);
      more := FreedInTheEnd(Step(o, e));
      FirstThen(o, e, more);
      more := [e] + more;
    } else {
      NobodyLeft(o);
      more := [];
    }
  }
}

/**
 All socket objects together: the list of sockets, the list of sockets to report, attaching, lookups and verdicts.
 */
module SocketSystem {
  import opened PendingQueue
  import opened SocketState
  import Runs = SocketRuns
  import Life = SocketLifetime
  import opened IndexLists

  /** How far a call of FltAttach has come. h and d are slots of the object. */
  datatype Phase =
    | Begun
    | Listed                               // NkeIsSocketObjectInList has found an object of this socket
    | Stale(o: nat, h: nat)                // looked up and retained
    | Ending(o: nat, h: nat, d: nat)       // FltDetach of it is running
    | Ended(o: nat, h: nat)                // and has returned
    | Ready                                // about to create the new object
    | Created(o: nat)
    | Inserted(o: nat)
    | Over

  datatype Attach = Attach(so: nat, phase: Phase)

  /** An object is known by its position; objects are never forgotten, only freed. */
  datatype System = System(
    objects: seq<Life.Object>,
    socketsList: seq<nat>,
    socketsListToReport: seq<nat>,
    gSocketSequence: nat,
    attaches: seq<Attach>)

  datatype Step =
    | BeginAttach(so: nat)
    | Check(a: nat)
    | Look(a: nat)
    | DetachStale(a: nat)
    | DetachReturned(a: nat)
    | DropStale(a: nat)
    | Create(a: nat)                    // withSocket
    | Insert(a: nat)                    // insertInSocketsList
    | DropNew(a: nat)
    | Lookup(so: nat)                   // GetSocketObjectRef
    | PopFirst                          // a deliverer takes the first object of the report list
    | On(o: nat, e: Life.Event)

  // TAILQ_REMOVE
  function Erase(list: seq<nat>, x: nat): seq<nat> {
    if list == [] then [] else if list[0] == x then list[1..] else [list[0]] + Erase(list[1..], x)
  }

  datatype Found = Found(o: nat) | NotFound

  /** The first listed object for the socket. */
  function Find(objects: seq<Life.Object>, list: seq<nat>, so: nat): Found
    requires Within(list, |objects|)
  {
    if list == [] then NotFound
    else if objects[list[0]].socket == so then Found(list[0]) else Find(objects, list[1..], so)
  }

  predicate ListsInBounds(sys: System) {
    Within(sys.socketsList, |sys.objects|) && Within(sys.socketsListToReport, |sys.objects|)
  }

  predicate Unlisted(objects: seq<Life.Object>, list: seq<nat>, so: nat)
    requires Within(list, |objects|)
  {
    forall i :: 0 <= i < |list| ==> objects[list[i]].socket != so
  }

  predicate Active(sys: System, a: nat) {
    a < |sys.attaches| && sys.attaches[a].phase != Over
  }

  /** The stack serializes the attach and detach callbacks of one socket. */
  ghost predicate Attaching(sys: System, so: nat) {
    exists a: nat :: Active(sys, a) && sys.attaches[a].so == so
  }

  ghost predicate BeingDetached(sys: System, so: nat) {
    exists o :: 0 <= o < |sys.objects| && sys.objects[o].socket == so && sys.objects[o].frame.stage == Life.Leaving
  }

  /** The reference in this slot belongs to a call of FltAttach. */
  ghost predicate Claimed(sys: System, o: nat, h: nat) {
    exists a: nat :: Active(sys, a) && Claims(sys.attaches[a].phase, o, h)
  }

  predicate Claims(p: Phase, o: nat, h: nat) {
    match p
    case Stale(x, i) => x == o && i == h
    case Ending(x, i, _) => x == o && i == h
    case Ended(x, i) => x == o && i == h
    case Created(x) => x == o && h == 0
    case Inserted(x) => x == o && h == 0
    case _ => false
  }

  predicate MayFire(sys: System, o: nat, e: Life.Event) {
    o < |sys.objects| && Life.Enabled(sys.objects[o], e)
  }

  predicate At(sys: System, a: nat, p: Phase) {
    a < |sys.attaches| && sys.attaches[a].phase == p
  }

  ghost predicate Enabled(sys: System, e: Step) {
    ListsInBounds(sys) &&
    match e
    case BeginAttach(so) => !Attaching(sys, so) && !BeingDetached(sys, so)
    case Check(a) => At(sys, a, Begun)
    case Look(a) =>
      At(sys, a, Listed) && var f := Find(sys.objects, sys.socketsList, sys.attaches[a].so); f.Found? ==> MayFire(sys, f.o, Life.Retain)
    case DetachStale(a) => a < |sys.attaches| && sys.attaches[a].phase.Stale? && MayFire(sys, sys.attaches[a].phase.o, Life.BeginDetach)
    case DetachReturned(a) =>
      && a < |sys.attaches| && sys.attaches[a].phase.Ending?
      && var p := sys.attaches[a].phase;
         p.o < |sys.objects| && p.d < |sys.objects[p.o].frame.holders| && sys.objects[p.o].frame.holders[p.d] == Life.Idle
    case DropStale(a) =>
      a < |sys.attaches| && sys.attaches[a].phase.Ended? && MayFire(sys, sys.attaches[a].phase.o, Life.Drop(sys.attaches[a].phase.h))
    case Create(a) => At(sys, a, Ready)
    case Insert(a) => a < |sys.attaches| && sys.attaches[a].phase.Created? && MayFire(sys, sys.attaches[a].phase.o, Life.Insert(0))
    case DropNew(a) => a < |sys.attaches| && sys.attaches[a].phase.Inserted? && MayFire(sys, sys.attaches[a].phase.o, Life.Drop(0))
    case Lookup(so) =>
      var f := Find(sys.objects, sys.socketsList, so); f.Found? ==> MayFire(sys, f.o, Life.Retain)
    case PopFirst => sys.socketsListToReport != [] && MayFire(sys, sys.socketsListToReport[0], Life.Pop)
    case On(o, event) =>
      && MayFire(sys, o, event) && !event.Insert? && !event.Retain? && !event.Pop?
      && (event.BeginDetach? ==> !Attaching(sys, sys.objects[o].socket))
      && (event.Drop? ==> !Claimed(sys, o, event.h)) && (event.Respond? ==> !Claimed(sys, o, event.h))
  }

  /** An event of one object; the lists follow its flags: insertion at the head, insertion at the tail, removal. */
  function Fire(sys: System, o: nat, e: Life.Event): System
    requires MayFire(sys, o, e)
  {
    var object' := Life.Step(sys.objects[o], e);
    var f, f' := sys.objects[o].frame, object'.frame;
    sys.(objects := sys.objects[o := object'],
         socketsList :=
           if f.insertedInSocketsList == f'.insertedInSocketsList then sys.socketsList
           else if f'.insertedInSocketsList then [o] + sys.socketsList else Erase(sys.socketsList, o),
         socketsListToReport :=
           if f.insertedInSocketsListToReport == f'.insertedInSocketsListToReport then sys.socketsListToReport
           else if f'.insertedInSocketsListToReport then sys.socketsListToReport + [o] else Erase(sys.socketsListToReport, o))
  }

  function Goto(sys: System, a: nat, p: Phase): System
    requires a < |sys.attaches|
  {
    sys.(attaches := sys.attaches[a := sys.attaches[a].(phase := p)])
  }

  /** The slot the next activation of the object gets. */
  function NextSlot(sys: System, o: nat): nat
    requires o < |sys.objects|
  {
    |sys.objects[o].frame.holders|
  }

  ghost function Apply(sys: System, e: Step): System
    requires Enabled(sys, e)
  {
    match e
    case BeginAttach(so) => sys.(attaches := sys.attaches + [Attach(so, Begun)])
    case Check(a) => Goto(sys, a, if Find(sys.objects, sys.socketsList, sys.attaches[a].so).Found? then Listed else Ready)
    case Look(a) =>
      var f := Find(sys.objects, sys.socketsList, sys.attaches[a].so);
      if f.NotFound? then Goto(sys, a, Ready) else Goto(Fire(sys, f.o, Life.Retain), a, Stale(f.o, NextSlot(sys, f.o)))
    case DetachStale(a) =>
      var p := sys.attaches[a].phase;
      Goto(Fire(sys, p.o, Life.BeginDetach), a, Ending(p.o, p.h, NextSlot(sys, p.o)))
    case DetachReturned(a) => Goto(sys, a, Ended(sys.attaches[a].phase.o, sys.attaches[a].phase.h))
    case DropStale(a) => Goto(Fire(sys, sys.attaches[a].phase.o, Life.Drop(sys.attaches[a].phase.h)), a, Ready)
    case Create(a) =>
      Goto(sys, a, Created(|sys.objects|)).(
        objects := sys.objects + [Life.NewObject(sys.attaches[a].so, sys.gSocketSequence)], gSocketSequence := sys.gSocketSequence + 1)
    case Insert(a) => Goto(Fire(sys, sys.attaches[a].phase.o, Life.Insert(0)), a, Inserted(sys.attaches[a].phase.o))
    case DropNew(a) => Goto(Fire(sys, sys.attaches[a].phase.o, Life.Drop(0)), a, Over)
    case Lookup(so) =>
      var f := Find(sys.objects, sys.socketsList, so);
      if f.NotFound? then sys else Fire(sys, f.o, Life.Retain)
    case PopFirst => Fire(sys, sys.socketsListToReport[0], Life.Pop)
    case On(o, event) => Fire(sys, o, event)
  }

  // ---------------------------------------------------------------- the invariant

  /** The list holds each object at most once, and exactly those whose flag is set. */
  ghost predicate Lists(list: seq<nat>, objects: seq<Life.Object>, inserted: Life.Frame -> bool) {
    && Within(list, |objects|) && Distinct(list)
    && forall o :: 0 <= o < |objects| ==> (o in list <==> inserted(objects[o].frame))
  }

  const InSocketsList: Life.Frame -> bool := (f: Life.Frame) => f.insertedInSocketsList
  const InReportList: Life.Frame -> bool := (f: Life.Frame) => f.insertedInSocketsListToReport

  /** At most one listed object for each socket. */
  ghost predicate OnePerSocket(objects: seq<Life.Object>, list: seq<nat>)
    requires Within(list, |objects|)
  {
    forall i, j :: 0 <= i < j < |list| ==> objects[list[i]].socket != objects[list[j]].socket
  }

  /** Sequence numbers are never zero and never reused. */
  ghost predicate Numbered(objects: seq<Life.Object>, next: nat) {
    && next > 0
    && (forall o :: 0 <= o < |objects| ==> 0 < objects[o].socketSequence < next)
    && (forall o, p :: 0 <= o < p < |objects| ==> objects[o].socketSequence < objects[p].socketSequence)
  }

  ghost predicate AllSound(objects: seq<Life.Object>) {
    forall o :: 0 <= o < |objects| ==> Life.Inv(objects[o])
  }

  ghost predicate Core(sys: System) {
    && AllSound(sys.objects)
    && Lists(sys.socketsList, sys.objects, InSocketsList)
    && Lists(sys.socketsListToReport, sys.objects, InReportList)
    && OnePerSocket(sys.objects, sys.socketsList)
    && Numbered(sys.objects, sys.gSocketSequence)
  }

  /** Only this object may be listed for the socket. */
  predicate OnlyListed(sys: System, so: nat, o: nat)
    requires Within(sys.socketsList, |sys.objects|)
  {
    forall i :: 0 <= i < |sys.socketsList| && sys.objects[sys.socketsList[i]].socket == so ==> sys.socketsList[i] == o
  }

  /** What a call of FltAttach knows about the list. */
  ghost predicate Knows(sys: System, so: nat, p: Phase)
    requires Within(sys.socketsList, |sys.objects|)
  {
    match p
    case Stale(o, _) => o < |sys.objects| && OnlyListed(sys, so, o)
    case Ending(o, _, d) =>
      && o < |sys.objects| && OnlyListed(sys, so, o)
      && var f := sys.objects[o].frame;
         d < |f.holders| && (f.holders[d].Detaching? || (f.holders[d] == Life.Idle && f.stage == Life.Detached))
    case Ended(_, _) => Unlisted(sys.objects, sys.socketsList, so)
    case Ready => Unlisted(sys.objects, sys.socketsList, so)
    case Created(o) => o < |sys.objects| && sys.objects[o].socket == so && Unlisted(sys.objects, sys.socketsList, so)
    case _ => true
  }

  ghost predicate AllKnow(sys: System)
    requires Within(sys.socketsList, |sys.objects|)
  {
    forall a :: 0 <= a < |sys.attaches| ==> Knows(sys, sys.attaches[a].so, sys.attaches[a].phase)
  }

  /** One attach at a time for each socket. */
  ghost predicate Serial(attaches: seq<Attach>) {
    forall a, b :: 0 <= a < b < |attaches| && attaches[a].phase != Over && attaches[b].phase != Over ==> attaches[a].so != attaches[b].so
  }

  ghost predicate Inv(sys: System) {
    Core(sys) && Serial(sys.attaches) && AllKnow(sys)
  }

  // ---------------------------------------------------------------- list operations

  lemma {:induction false} EraseWorks(list: seq<nat>, x: nat)
    requires Distinct(list)
    ensures Distinct(Erase(list, x)) && forall y :: y in Erase(list, x) <==> y in list && y != x
  {
    if list != [] {
      assert Distinct(list[1..]) && list[0] !in list[1..];
      assert forall y :: y in list <==> y == list[0] || y in list[1..];
      if list[0] != x {
        EraseWorks(list[1..], x);
      }
    }
  }

  lemma {:induction false} FindWorks(objects: seq<Life.Object>, list: seq<nat>, so: nat)
    requires Within(list, |objects|)
    ensures var f := Find(objects, list, so);
            if f.Found? then f.o in list && objects[f.o].socket == so else Unlisted(objects, list, so)
  {
    if list != [] && objects[list[0]].socket != so {
      FindWorks(objects, list[1..], so);
      assert forall i :: 0 < i < |list| ==> list[i] == list[1..][i - 1];
    }
  }

  /** The search of GetSocketObjectRef through the list. */
  method FindInSocketsList(objects: seq<Life.Object>, list: seq<nat>, so: nat) returns (f: Found)
    requires Within(list, |objects|)
    ensures f == Find(objects, list, so)
    ensures if f.Found? then f.o in list && objects[f.o].socket == so else Unlisted(objects, list, so)
  {
    FindWorks(objects, list, so);
    for i := 0 to |list|
      invariant Find(objects, list, so) == Find(objects, list[i..], so)
    {
      if objects[list[i]].socket == so {
        return Found(list[i]);
      }
    }
    return NotFound;
  }

  // one object changes, and with it the list
  lemma ListsChange(list: seq<nat>, objects: seq<Life.Object>, inserted: Life.Frame -> bool, o: nat, object': Life.Object, list': seq<nat>)
    requires Lists(list, objects, inserted) && o < |objects|
    requires Distinct(list') && Within(list', |objects|)
    requires forall y :: y in list' <==> if y == o then inserted(object'.frame) else y in list
    ensures Lists(list', objects[o := object'], inserted)
  {
  }

  lemma HeadInserted(list: seq<nat>, o: nat, bound: nat)
    requires Distinct(list) && Within(list, bound) && o !in list && o < bound
    ensures Distinct([o] + list) && Within([o] + list, bound)
    ensures Distinct(list + [o]) && Within(list + [o], bound)
    ensures forall y :: y in [o] + list <==> y == o || y in list
    ensures forall y :: y in list + [o] <==> y == o || y in list
  {
  }

  lemma Erased(list: seq<nat>, o: nat, bound: nat)
    requires Distinct(list) && Within(list, bound)
    ensures Distinct(Erase(list, o)) && Within(Erase(list, o), bound)
    ensures forall y :: y in Erase(list, o) <==> y in list && y != o
  {
    EraseWorks(list, o);
    forall i | 0 <= i < |Erase(list, o)| ensures Erase(list, o)[i] < bound {
      assert Erase(list, o)[i] in list;
    }
  }

  lemma ListedOnce(sys: System, a: nat, b: nat)
    requires Within(sys.socketsList, |sys.objects|) && OnePerSocket(sys.objects, sys.socketsList)
    requires a in sys.socketsList && b in sys.socketsList
    ensures sys.objects[a].socket == sys.objects[b].socket ==> a == b
  {
    var i :| 0 <= i < |sys.socketsList| && sys.socketsList[i] == a;
    var j :| 0 <= j < |sys.socketsList| && sys.socketsList[j] == b;
    assert i < j || j < i || i == j;
  }

  // only insertInSocketsList puts an object into the list of sockets
  lemma InsertsAttach(o: Life.Object, e: Life.Event)
    requires Life.Enabled(o, e)
    ensures Life.Step(o, e).socket == o.socket && Life.Step(o, e).socketSequence == o.socketSequence
    ensures !o.frame.insertedInSocketsList && Life.Step(o, e).frame.insertedInSocketsList ==> e.Insert?
    ensures e.Retain? ==> Life.Step(o, e).frame.insertedInSocketsList == o.frame.insertedInSocketsList
    ensures e.Retain? ==> Life.Step(o, e).frame.insertedInSocketsListToReport == o.frame.insertedInSocketsListToReport
    ensures e.Pop? ==> Life.Step(o, e).frame.insertedInSocketsList == o.frame.insertedInSocketsList
    ensures e.Pop? ==> !Life.Step(o, e).frame.insertedInSocketsListToReport
  {
    hide Life.WorldStep;
    hide Life.InUse;
  }

  // ---------------------------------------------------------------- an event of one object

  lemma SocketsListKeeps(sys: System, o: nat, e: Life.Event)
    requires Core(sys) && MayFire(sys, o, e)
    ensures var sys' := Fire(sys, o, e); Lists(sys'.socketsList, sys'.objects, InSocketsList)
  {
    var list, object' := sys.socketsList, Life.Step(sys.objects[o], e);
    Erased(list, o, |sys.objects|);
    if o !in list {
      HeadInserted(list, o, |sys.objects|);
    }
    hide Life.Step;
    hide Life.Enabled;
    hide AllSound;
    hide OnePerSocket;
    hide Numbered;
    ListsChange(list, sys.objects, InSocketsList, o, object', Fire(sys, o, e).socketsList);
  }

  lemma ReportListKeeps(sys: System, o: nat, e: Life.Event)
    requires Core(sys) && MayFire(sys, o, e)
    ensures var sys' := Fire(sys, o, e); Lists(sys'.socketsListToReport, sys'.objects, InReportList)
  {
    var list, object' := sys.socketsListToReport, Life.Step(sys.objects[o], e);
    Erased(list, o, |sys.objects|);
    if o !in list {
      HeadInserted(list, o, |sys.objects|);
    }
    hide Life.Step;
    hide Life.Enabled;
    hide AllSound;
    hide OnePerSocket;
    hide Numbered;
    ListsChange(list, sys.objects, InReportList, o, object', Fire(sys, o, e).socketsListToReport);
  }

  // what the list of sockets gains: at most the object itself, and only by an insertion
  lemma ListGains(sys: System, o: nat, e: Life.Event)
    requires Core(sys) && MayFire(sys, o, e)
    ensures var sys' := Fire(sys, o, e);
            && Within(sys'.socketsList, |sys'.objects|) && |sys'.objects| == |sys.objects| && Distinct(sys'.socketsList)
            && (forall x :: x in sys'.socketsList ==> x in sys.socketsList || (x == o && e.Insert? && o !in sys.socketsList))
            && (forall x :: 0 <= x < |sys.objects| ==> sys'.objects[x].socket == sys.objects[x].socket)
            && sys'.attaches == sys.attaches && sys'.gSocketSequence == sys.gSocketSequence
  {
    SocketsListKeeps(sys, o, e);
    InsertsAttach(sys.objects[o], e);
    EraseWorks(sys.socketsList, o);
    hide Life.FrameStep;
    hide Life.WorldStep;
    hide Life.Enabled;
    hide AllSound;
    hide OnePerSocket;
    hide Numbered;
  }

  lemma OnePerSocketKeeps(sys: System, o: nat, e: Life.Event)
    requires Core(sys) && MayFire(sys, o, e) && (e.Insert? ==> Unlisted(sys.objects, sys.socketsList, sys.objects[o].socket))
    ensures var sys' := Fire(sys, o, e); Within(sys'.socketsList, |sys'.objects|) && OnePerSocket(sys'.objects, sys'.socketsList)
  {
    ListGains(sys, o, e);
    var sys' := Fire(sys, o, e);
    hide Fire;
    hide AllSound;
    hide Lists;
    hide Numbered;
    forall i, j | 0 <= i < j < |sys'.socketsList|
      ensures sys'.objects[sys'.socketsList[i]].socket != sys'.objects[sys'.socketsList[j]].socket
    {
      var a, b := sys'.socketsList[i], sys'.socketsList[j];
      assert a in sys'.socketsList && b in sys'.socketsList && a != b;
      if a in sys.socketsList && b in sys.socketsList {
        ListedOnce(sys, a, b);
      } else {
        NotListed(sys, sys.objects[o].socket, if a in sys.socketsList then a else b);
      }
    }
  }

  lemma NotListed(sys: System, so: nat, x: nat)
    requires Within(sys.socketsList, |sys.objects|) && Unlisted(sys.objects, sys.socketsList, so) && x < |sys.objects|
    ensures x in sys.socketsList ==> sys.objects[x].socket != so
  {
  }

  lemma NumberedKeeps(sys: System, o: nat, e: Life.Event)
    requires Core(sys) && MayFire(sys, o, e)
    ensures Numbered(Fire(sys, o, e).objects, sys.gSocketSequence) && AllSound(Fire(sys, o, e).objects)
  {
    InsertsAttach(sys.objects[o], e);
    Life.InvKeeps(sys.objects[o], e);
    hide Life.Inv;
    hide Life.Step;
    hide Life.Enabled;
    hide Lists;
    hide OnePerSocket;
  }

  lemma FireKeeps(sys: System, o: nat, e: Life.Event)
    requires Core(sys) && MayFire(sys, o, e) && (e.Insert? ==> Unlisted(sys.objects, sys.socketsList, sys.objects[o].socket))
    ensures Core(Fire(sys, o, e))
  {
    SocketsListKeeps(sys, o, e);
    ReportListKeeps(sys, o, e);
    OnePerSocketKeeps(sys, o, e);
    NumberedKeeps(sys, o, e);
    FireFrame(sys, o, e);
    hide Fire;
    hide AllSound;
    hide Lists;
    hide OnePerSocket;
    hide Numbered;
  }

  lemma FireFrame(sys: System, o: nat, e: Life.Event)
    requires MayFire(sys, o, e)
    ensures Fire(sys, o, e).gSocketSequence == sys.gSocketSequence && Fire(sys, o, e).attaches == sys.attaches
  {
    hide Life.Step;
  }

  // nothing new is listed for the socket
  ghost predicate NoGain(sys: System, sys': System, so: nat) {
    && Within(sys.socketsList, |sys.objects|) && Within(sys'.socketsList, |sys'.objects|) && |sys'.objects| == |sys.objects|
    && (forall x :: 0 <= x < |sys.objects| ==> sys'.objects[x].socket == sys.objects[x].socket)
    && forall i :: 0 <= i < |sys'.socketsList| && sys'.objects[sys'.socketsList[i]].socket == so ==> sys'.socketsList[i] in sys.socketsList
  }

  lemma FireGains(sys: System, o: nat, e: Life.Event, so: nat)
    requires Core(sys) && MayFire(sys, o, e) && (e.Insert? ==> sys.objects[o].socket != so)
    ensures NoGain(sys, Fire(sys, o, e), so)
  {
    ListGains(sys, o, e);
    CoreWithin(sys);
    var sys' := Fire(sys, o, e);
    hide *;
    forall i | 0 <= i < |sys'.socketsList| && sys'.objects[sys'.socketsList[i]].socket == so
      ensures sys'.socketsList[i] in sys.socketsList
    {
      assert sys'.socketsList[i] in sys'.socketsList;
    }
    NoGainBy(sys, sys', so);
  }

  lemma NoGainBy(sys: System, sys': System, so: nat)
    requires Within(sys.socketsList, |sys.objects|) && Within(sys'.socketsList, |sys'.objects|) && |sys'.objects| == |sys.objects|
    requires forall x :: 0 <= x < |sys.objects| ==> sys'.objects[x].socket == sys.objects[x].socket
    requires forall i :: 0 <= i < |sys'.socketsList| && sys'.objects[sys'.socketsList[i]].socket == so ==> sys'.socketsList[i] in sys.socketsList
    ensures NoGain(sys, sys', so)
  {
  }

  lemma Shrinks(sys: System, sys': System, so: nat)
    requires NoGain(sys, sys', so)
    ensures Within(sys.socketsList, |sys.objects|) && Within(sys'.socketsList, |sys'.objects|) && |sys'.objects| == |sys.objects|
    ensures Unlisted(sys.objects, sys.socketsList, so) ==> Unlisted(sys'.objects, sys'.socketsList, so)
    ensures forall o :: OnlyListed(sys, so, o) ==> OnlyListed(sys', so, o)
    ensures forall x :: 0 <= x < |sys.objects| ==> sys'.objects[x].socket == sys.objects[x].socket
  {
  }

  // an attach keeps what it knows when an object changes that is not being inserted for its socket
  lemma KnowsKeeps(sys: System, o: nat, e: Life.Event, so: nat, p: Phase)
    requires Core(sys) && MayFire(sys, o, e) && Within(sys.socketsList, |sys.objects|)
    requires Knows(sys, so, p) && (e.Insert? ==> sys.objects[o].socket != so)
    ensures Within(Fire(sys, o, e).socketsList, |Fire(sys, o, e).objects|) && Knows(Fire(sys, o, e), so, p)
  {
    var sys' := Fire(sys, o, e);
    FireGains(sys, o, e, so);
    Shrinks(sys, sys', so);
    if p.Ending? {
      EndingKeeps(sys, o, e, p);
    }
    hide Fire;
    hide Core;
    hide NoGain;
    hide Unlisted;
    hide OnlyListed;
  }

  lemma EndingKeeps(sys: System, o: nat, e: Life.Event, p: Phase)
    requires Core(sys) && MayFire(sys, o, e) && p.Ending? && p.o < |sys.objects|
    requires var f := sys.objects[p.o].frame;
             p.d < |f.holders| && (f.holders[p.d].Detaching? || (f.holders[p.d] == Life.Idle && f.stage == Life.Detached))
    ensures var f := Fire(sys, o, e).objects[p.o].frame;
            p.d < |f.holders| && (f.holders[p.d].Detaching? || (f.holders[p.d] == Life.Idle && f.stage == Life.Detached))
  {
    if p.o == o {
      assert Life.Inv(sys.objects[o]);
      var w := sys.objects[o].world;
      Life.DetachSlot(sys.objects[o].frame, e, Life.First(w.s, e), Life.Stopped(w.s, e), p.d);
    }
    hide Life.FrameStep;
    hide Life.Inv;
  }

  // ---------------------------------------------------------------- the calls of FltAttach

  lemma FoundIsOnly(sys: System, so: nat)
    requires Core(sys)
    ensures var f := Find(sys.objects, sys.socketsList, so);
            if f.Found? then f.o < |sys.objects| && OnlyListed(sys, so, f.o) else Unlisted(sys.objects, sys.socketsList, so)
  {
    FindWorks(sys.objects, sys.socketsList, so);
    var f := Find(sys.objects, sys.socketsList, so);
    hide AllSound;
    hide Numbered;
    hide Find;
    if f.Found? {
      forall i | 0 <= i < |sys.socketsList| && sys.objects[sys.socketsList[i]].socket == so ensures sys.socketsList[i] == f.o {
        ListedOnce(sys, sys.socketsList[i], f.o);
      }
    }
  }

  // a detached object is not listed, so nothing is listed for its socket any more
  lemma EndedIsUnlisted(sys: System, so: nat, p: Phase)
    requires Core(sys) && p.Ending? && Knows(sys, so, p) && sys.objects[p.o].frame.holders[p.d] == Life.Idle
    ensures Unlisted(sys.objects, sys.socketsList, so)
  {
    assert Life.Inv(sys.objects[p.o]);
    hide Life.Settled;
    hide Life.Covered;
    hide Life.Balanced;
    hide Life.Staffed;
    hide Runs.Inv;
    hide AllSound;
    hide Numbered;
    hide OnePerSocket;
    assert p.o !in sys.socketsList;
  }

  // nobody else attaches to this socket
  lemma OthersDiffer(attaches: seq<Attach>, a: nat, b: nat)
    requires Serial(attaches) && a < |attaches| && b < |attaches| && a != b && attaches[a].phase != Over && attaches[b].phase != Over
    ensures attaches[a].so != attaches[b].so
  {
    assert a < b || b < a;
  }

  lemma SerialKeeps(sys: System, e: Step)
    requires Serial(sys.attaches) && Enabled(sys, e)
    ensures Serial(Apply(sys, e).attaches)
  {
    AttachesChange(sys, e);
    var as0, as1 := sys.attaches, Apply(sys, e).attaches;
    assert e.BeginAttach? ==> forall a :: 0 <= a < |as0| && as0[a].so == e.so ==> !Active(sys, a);
    hide Apply;
    hide Enabled;
  }

  // a step changes the phase of one attach, or begins one
  lemma AttachesChange(sys: System, e: Step)
    requires Enabled(sys, e)
    ensures var as0, as1 := sys.attaches, Apply(sys, e).attaches;
            && |as0| <= |as1| && (|as1| > |as0| ==> e.BeginAttach? && as1 == as0 + [Attach(e.so, Begun)])
            && (forall a :: 0 <= a < |as0| ==> as1[a].so == as0[a].so && (as0[a].phase == Over ==> as1[a].phase == Over))
  {
    hide Life.Step;
    hide Life.Enabled;
    hide Find;
    hide Erase;
    hide Attaching;
    hide BeingDetached;
  }

  /** The event a step performs on an object. */
  datatype Fired = Fired(o: nat, e: Life.Event) | Nothing

  ghost function FiredBy(sys: System, e: Step): Fired
    requires Enabled(sys, e)
  {
    match e
    case Look(a) =>
      var f := Find(sys.objects, sys.socketsList, sys.attaches[a].so); if f.Found? then Fired(f.o, Life.Retain) else Nothing
    case Lookup(so) => var f := Find(sys.objects, sys.socketsList, so); if f.Found? then Fired(f.o, Life.Retain) else Nothing
    case DetachStale(a) => Fired(sys.attaches[a].phase.o, Life.BeginDetach)
    case DropStale(a) => Fired(sys.attaches[a].phase.o, Life.Drop(sys.attaches[a].phase.h))
    case Insert(a) => Fired(sys.attaches[a].phase.o, Life.Insert(0))
    case DropNew(a) => Fired(sys.attaches[a].phase.o, Life.Drop(0))
    case PopFirst => Fired(sys.socketsListToReport[0], Life.Pop)
    case On(o, event) => Fired(o, event)
    case _ => Nothing
  }

  // every step is an event of one object, the creation of one, or neither
  lemma StepFires(sys: System, e: Step)
    requires Enabled(sys, e)
    ensures var f, sys' := FiredBy(sys, e), Apply(sys, e);
            && (f.Fired? ==> MayFire(sys, f.o, f.e) && sys' == Fire(sys, f.o, f.e).(attaches := sys'.attaches))
            && (f.Nothing? && !e.Create? ==> sys' == sys.(attaches := sys'.attaches))
            && (f.Fired? && f.e.Insert? ==> e.Insert?)
  {
    hide Life.Step;
    hide Life.Enabled;
    hide Find;
    hide Erase;
    hide Attaching;
    hide BeingDetached;
    hide Claimed;
  }

  // the lists and objects are what counts, not the calls of FltAttach
  lemma AttachesDoNotCount(sys: System, sys': System)
    requires sys' == sys.(attaches := sys'.attaches)
    ensures Core(sys) == Core(sys')
    ensures Within(sys.socketsList, |sys.objects|) ==> forall so, p :: Knows(sys', so, p) == Knows(sys, so, p)
  {
    hide AllSound;
    hide Lists;
    hide OnePerSocket;
    hide Numbered;
    if Within(sys.socketsList, |sys.objects|) {
      forall so, p ensures Knows(sys', so, p) == Knows(sys, so, p) {
        assert forall o :: OnlyListed(sys', so, o) == OnlyListed(sys, so, o);
      }
    }
  }

  lemma CreateKeeps(sys: System, so: nat, sys': System)
    requires Core(sys)
    requires sys' == sys.(attaches := sys'.attaches, gSocketSequence := sys.gSocketSequence + 1,
                          objects := sys.objects + [Life.NewObject(so, sys.gSocketSequence)])
    ensures Core(sys')
    ensures forall s, p :: Knows(sys, s, p) ==> Knows(sys', s, p)
  {
    Life.NewObjectInv(so, sys.gSocketSequence);
    hide Life.Inv;
  }

  // at the moment of an insertion nothing is listed for the socket
  lemma InsertFindsNone(sys: System, a: nat)
    requires Inv(sys) && Enabled(sys, Insert(a))
    ensures var o := sys.attaches[a].phase.o;
            sys.objects[o].socket == sys.attaches[a].so && Unlisted(sys.objects, sys.socketsList, sys.objects[o].socket)
  {
    assert Knows(sys, sys.attaches[a].so, sys.attaches[a].phase);
    hide Core;
  }

  lemma CoreKeeps(sys: System, e: Step)
    requires Inv(sys) && Enabled(sys, e)
    ensures Core(Apply(sys, e))
  {
    var sys' := Apply(sys, e);
    StepFires(sys, e);
    if e.Create? {
      CreateStep(sys, e.a);
      hide *;
      CreateKeeps(sys, sys.attaches[e.a].so, sys');
    } else {
      var f := FiredBy(sys, e);
      if e.Insert? {
        InsertFindsNone(sys, e.a);
        FiredInsert(sys, e.a);
      }
      InvCore(sys);
      hide *;
      if f.Fired? {
        FireKeeps(sys, f.o, f.e);
        AttachesDoNotCount(Fire(sys, f.o, f.e), sys');
      } else {
        AttachesDoNotCount(sys, sys');
      }
    }
  }

  lemma InvCore(sys: System)
    requires Inv(sys)
    ensures Core(sys) && Within(sys.socketsList, |sys.objects|)
  {
    hide AllSound;
    hide OnePerSocket;
    hide Numbered;
  }

  lemma FiredInsert(sys: System, a: nat)
    requires Enabled(sys, Insert(a))
    ensures FiredBy(sys, Insert(a)) == Fired(sys.attaches[a].phase.o, Life.Insert(0))
  {
  }

  lemma CreateStep(sys: System, a: nat)
    requires Inv(sys) && Enabled(sys, Create(a))
    ensures Core(sys) && Within(sys.socketsList, |sys.objects|)
    ensures var sys' := Apply(sys, Create(a));
            sys' == sys.(attaches := sys'.attaches, gSocketSequence := sys.gSocketSequence + 1,
                         objects := sys.objects + [Life.NewObject(sys.attaches[a].so, sys.gSocketSequence)])
  {
    hide AllSound;
    hide OnePerSocket;
    hide Numbered;
    hide Life.NewObject;
  }

  /** The call of FltAttach a step belongs to. */
  predicate Acts(e: Step, a: nat) {
    match e
    case Check(b) => a == b
    case Look(b) => a == b
    case DetachStale(b) => a == b
    case DetachReturned(b) => a == b
    case DropStale(b) => a == b
    case Create(b) => a == b
    case Insert(b) => a == b
    case DropNew(b) => a == b
    case _ => false
  }

  lemma OtherAttach(sys: System, e: Step, b: nat)
    requires Enabled(sys, e) && b < |sys.attaches| && !Acts(e, b)
    ensures b < |Apply(sys, e).attaches| && Apply(sys, e).attaches[b] == sys.attaches[b]
  {
    hide Life.Step;
    hide Life.Enabled;
    hide Find;
    hide Erase;
    hide Attaching;
    hide BeingDetached;
    hide Claimed;
  }

  lemma KnowsOther(sys: System, e: Step, b: nat)
    requires Inv(sys) && Enabled(sys, e) && b < |sys.attaches| && !Acts(e, b)
    ensures b < |Apply(sys, e).attaches| && Apply(sys, e).attaches[b] == sys.attaches[b]
    ensures Within(Apply(sys, e).socketsList, |Apply(sys, e).objects|)
    ensures Knows(Apply(sys, e), sys.attaches[b].so, sys.attaches[b].phase)
  {
    var sys', so, p := Apply(sys, e), sys.attaches[b].so, sys.attaches[b].phase;
    assert Knows(sys, so, p);
    OtherAttach(sys, e, b);
    StepFires(sys, e);
    InvCore(sys);
    CoreKeeps(sys, e);
    CoreWithin(sys');
    if e.Create? {
      CreateStep(sys, e.a);
      hide *;
      CreateKeeps(sys, sys.attaches[e.a].so, sys');
    } else if p == Over {
    } else {
      var f := FiredBy(sys, e);
      if e.Insert? {
        InsertFindsNone(sys, e.a);
        FiredInsert(sys, e.a);
        OthersDiffer(sys.attaches, e.a, b);
      }
      hide *;
      if f.Fired? {
        KnowsKeeps(sys, f.o, f.e, so, p);
        AttachesDoNotCount(Fire(sys, f.o, f.e), sys');
      } else {
        AttachesDoNotCount(sys, sys');
      }
    }
  }

  lemma CoreWithin(sys: System)
    requires Core(sys)
    ensures Within(sys.socketsList, |sys.objects|)
  {
    hide AllSound;
    hide OnePerSocket;
    hide Numbered;
  }

  lemma KnowsOwn(sys: System, e: Step, a: nat)
    requires Inv(sys) && Enabled(sys, e) && Acts(e, a)
    ensures a < |Apply(sys, e).attaches| && Within(Apply(sys, e).socketsList, |Apply(sys, e).objects|)
    ensures Knows(Apply(sys, e), Apply(sys, e).attaches[a].so, Apply(sys, e).attaches[a].phase)
  {
    assert Knows(sys, sys.attaches[a].so, sys.attaches[a].phase);
    var sys' := Apply(sys, e);
    CoreKeeps(sys, e);
    CoreWithin(sys');
    InvCore(sys);
    hide Core;
    hide Inv;
    hide Apply;
    hide Enabled;
    hide Knows;
    match e
    case Check(_) => OwnCheck(sys, a);
    case Look(_) => OwnLook(sys, a);
    case DetachStale(_) => OwnDetach(sys, a);
    case DetachReturned(_) => OwnReturned(sys, a);
    case DropStale(_) => OwnDrop(sys, a);
    case Create(_) => OwnCreate(sys, a);
    case _ => OwnLast(sys, e, a);
  }

  // after the insertion an attach relies on nothing
  lemma OwnLast(sys: System, e: Step, a: nat)
    requires Enabled(sys, e) && Acts(e, a) && (e.Insert? || e.DropNew?)
    requires Within(Apply(sys, e).socketsList, |Apply(sys, e).objects|)
    ensures a < |Apply(sys, e).attaches| && Knows(Apply(sys, e), Apply(sys, e).attaches[a].so, Apply(sys, e).attaches[a].phase)
  {
    hide Life.Step;
  }

  lemma OwnCheck(sys: System, a: nat)
    requires Core(sys) && Enabled(sys, Check(a)) && Within(sys.socketsList, |sys.objects|)
    ensures var sys' := Apply(sys, Check(a)); a < |sys'.attaches| && Knows(sys', sys'.attaches[a].so, sys'.attaches[a].phase)
  {
    FoundIsOnly(sys, sys.attaches[a].so);
    hide Core;
    hide Find;
  }

  lemma OwnLook(sys: System, a: nat)
    requires Core(sys) && Enabled(sys, Look(a)) && Within(sys.socketsList, |sys.objects|)
    ensures var sys' := Apply(sys, Look(a));
            a < |sys'.attaches| && Within(sys'.socketsList, |sys'.objects|) && Knows(sys', sys'.attaches[a].so, sys'.attaches[a].phase)
  {
    var so := sys.attaches[a].so;
    FoundIsOnly(sys, so);
    var f := Find(sys.objects, sys.socketsList, so);
    var sys' := Apply(sys, Look(a));
    hide Find;
    hide Core;
    hide OnlyListed;
    hide Unlisted;
    if f.Found? {
      var p := Stale(f.o, NextSlot(sys, f.o));
      assert Knows(sys, so, p);
      assert sys' == Fire(sys, f.o, Life.Retain).(attaches := sys'.attaches) && sys'.attaches[a] == Attach(so, p);
      hide *;
      KnowsKeeps(sys, f.o, Life.Retain, so, p);
      AttachesDoNotCount(Fire(sys, f.o, Life.Retain), sys');
    }
  }

  lemma OwnDetach(sys: System, a: nat)
    requires Core(sys) && Enabled(sys, DetachStale(a)) && Within(sys.socketsList, |sys.objects|)
    requires Knows(sys, sys.attaches[a].so, sys.attaches[a].phase)
    ensures var sys' := Apply(sys, DetachStale(a));
            a < |sys'.attaches| && Within(sys'.socketsList, |sys'.objects|) && Knows(sys', sys'.attaches[a].so, sys'.attaches[a].phase)
  {
    var so, p := sys.attaches[a].so, sys.attaches[a].phase;
    KnowsKeeps(sys, p.o, Life.BeginDetach, so, p);
    AttachesDoNotCount(Fire(sys, p.o, Life.BeginDetach), Apply(sys, DetachStale(a)));
    DetachSlotIsNew(sys, p.o);
    hide Core;
    hide Fire;
  }

  lemma DetachSlotIsNew(sys: System, o: nat)
    requires MayFire(sys, o, Life.BeginDetach)
    ensures var f := Fire(sys, o, Life.BeginDetach).objects[o].frame;
            NextSlot(sys, o) < |f.holders| && f.holders[NextSlot(sys, o)].Detaching?
  {
    hide Life.WorldStep;
  }

  lemma OwnReturned(sys: System, a: nat)
    requires Core(sys) && Enabled(sys, DetachReturned(a)) && Within(sys.socketsList, |sys.objects|)
    requires Knows(sys, sys.attaches[a].so, sys.attaches[a].phase)
    ensures var sys' := Apply(sys, DetachReturned(a)); a < |sys'.attaches| && Knows(sys', sys'.attaches[a].so, sys'.attaches[a].phase)
  {
    EndedIsUnlisted(sys, sys.attaches[a].so, sys.attaches[a].phase);
    hide Core;
  }

  lemma OwnDrop(sys: System, a: nat)
    requires Core(sys) && Enabled(sys, DropStale(a)) && Within(sys.socketsList, |sys.objects|)
    requires Knows(sys, sys.attaches[a].so, sys.attaches[a].phase)
    ensures var sys' := Apply(sys, DropStale(a));
            a < |sys'.attaches| && Within(sys'.socketsList, |sys'.objects|) && Knows(sys', sys'.attaches[a].so, sys'.attaches[a].phase)
  {
    var so, p := sys.attaches[a].so, sys.attaches[a].phase;
    KnowsKeeps(sys, p.o, Life.Drop(p.h), so, p);
    AttachesDoNotCount(Fire(sys, p.o, Life.Drop(p.h)), Apply(sys, DropStale(a)));
    hide Core;
    hide Fire;
  }

  lemma OwnCreate(sys: System, a: nat)
    requires Inv(sys) && Enabled(sys, Create(a)) && Knows(sys, sys.attaches[a].so, sys.attaches[a].phase)
    ensures var sys' := Apply(sys, Create(a));
            a < |sys'.attaches| && Within(sys'.socketsList, |sys'.objects|) && Knows(sys', sys'.attaches[a].so, sys'.attaches[a].phase)
  {
    CreateStep(sys, a);
    var sys' := Apply(sys, Create(a));
    CreateKeeps(sys, sys.attaches[a].so, sys');
    CoreWithin(sys');
    hide Core;
    hide Inv;
    assert Knows(sys', sys.attaches[a].so, Ready);
  }

  lemma InvKeeps(sys: System, e: Step)
    requires Inv(sys) && Enabled(sys, e)
    ensures Inv(Apply(sys, e))
  {
    var sys' := Apply(sys, e);
    CoreKeeps(sys, e);
    CoreWithin(sys');
    SerialKeeps(sys, e);
    AttachesChange(sys, e);
    hide Apply;
    hide Enabled;
    hide Core;
    hide Knows;
    forall b | 0 <= b < |sys'.attaches| ensures Knows(sys', sys'.attaches[b].so, sys'.attaches[b].phase) {
      if b >= |sys.attaches| {
        KnowsNothing(sys', sys'.attaches[b].so);
      } else if Acts(e, b) {
        KnowsOwn(sys, e, b);
      } else {
        KnowsOther(sys, e, b);
      }
    }
  }

  lemma KnowsNothing(sys: System, so: nat)
    requires Within(sys.socketsList, |sys.objects|)
    ensures Knows(sys, so, Begun)
  {
  }

  // ---------------------------------------------------------------- whole runs

  predicate Initial(sys: System) {
    sys.objects == [] && sys.socketsList == [] && sys.socketsListToReport == [] && sys.gSocketSequence == 1 && sys.attaches == []
  }

  ghost predicate IsRun(states: seq<System>, steps: seq<Step>) {
    && |states| == |steps| + 1 && Initial(states[0])
    && forall i :: 0 <= i < |steps| ==> Enabled(states[i], steps[i]) && states[i + 1] == Apply(states[i], steps[i])
  }

  lemma {:induction false} RunInv(states: seq<System>, steps: seq<Step>)
    requires IsRun(states, steps)
    ensures Inv(states[|steps|])
    decreases |steps|
  {
    if steps != [] {
      var n := |steps| - 1;
      RunInv(states[..|steps|], steps[..n]);
      hide Inv;
      hide Apply;
      hide Enabled;
      InvKeeps(states[n], steps[n]);
    }
  }

  /** In every reachable state an attached socket with packets to report is in the report list or with a deliverer;
      each list holds exactly the objects with its flag, once; and the reference counts add up. */
  lemma NobodyIsStranded(states: seq<System>, steps: seq<Step>, o: nat)
    requires IsRun(states, steps) && o < |states[|steps|].objects|
    ensures var sys := states[|steps|]; var ob := sys.objects[o];
            && (ob.frame.stage == Life.Attached && ob.world.s.packetsWaitingForReporting > 0 ==>
                  o in sys.socketsListToReport || Life.Popped in ob.frame.holders || Life.Passed(true) in ob.frame.holders)
            && (o in sys.socketsListToReport <==> ob.frame.insertedInSocketsListToReport)
            && (o in sys.socketsList <==> ob.frame.insertedInSocketsList)
            && Distinct(sys.socketsListToReport) && Distinct(sys.socketsList)
            && ob.frame.retainCount
               == Life.One(o in sys.socketsList) + Life.One(o in sys.socketsListToReport) + Life.Held(ob.frame.holders)
  {
    RunInv(states, steps);
    hide Apply;
    hide Enabled;
    hide Runs.Inv;
    var ob := states[|steps|].objects[o];
    assert Life.Inv(ob);
    if ob.frame.stage == Life.Attached && ob.world.s.packetsWaitingForReporting > 0 {
      Life.NoStrandedSocket(ob);
    }
  }

  /** An object whose reference count reaches zero is in no list, has no packet and no user left. */
  lemma FreedObjectsAreClean(states: seq<System>, steps: seq<Step>, o: nat)
    requires IsRun(states, steps) && o < |states[|steps|].objects| && states[|steps|].objects[o].frame.retainCount == 0
    ensures var sys := states[|steps|]; var ob := sys.objects[o];
            && o !in sys.socketsList && o !in sys.socketsListToReport && !Life.InUse(ob.frame)
            && ob.world.s.pendingQueue == [] && ob.world.s.packetsWaitingForReporting == 0
  {
    RunInv(states, steps);
    hide Apply;
    hide Enabled;
    hide Life.Inv;
    Life.FreedIsClean(states[|steps|].objects[o]);
  }

  /** In every run, an attach that is about to insert its object finds nothing listed for the socket: it has looked, detached
      what it found, and nobody else attaches to this socket. That is what insertInSocketsList asserts. */
  lemma InsertIsExclusive(states: seq<System>, steps: seq<Step>, a: nat)
    requires IsRun(states, steps) && a < |states[|steps|].attaches| && states[|steps|].attaches[a].phase.Created?
    ensures var sys := states[|steps|]; var o := sys.attaches[a].phase.o;
            && o < |sys.objects| && sys.objects[o].socket == sys.attaches[a].so
            && (forall x :: x in sys.socketsList ==> x < |sys.objects| && sys.objects[x].socket != sys.attaches[a].so)
  {
    hide Apply;
    hide Enabled;
    RunInv(states, steps);
    var sys := states[|steps|];
    InvCore(sys);
    hide Core;
    assert Knows(sys, sys.attaches[a].so, sys.attaches[a].phase);
  }

  /** At most one object is listed for a socket, so a lookup finds the only one. */
  lemma LookupFindsTheOnlyOne(states: seq<System>, steps: seq<Step>, so: nat)
    requires IsRun(states, steps)
    ensures var sys := states[|steps|];
            && Within(sys.socketsList, |sys.objects|)
            && var f := Find(sys.objects, sys.socketsList, so);
               if f.Found?
               then f.o in sys.socketsList && forall o :: o in sys.socketsList && sys.objects[o].socket == so ==> o == f.o
               else forall o :: o in sys.socketsList ==> sys.objects[o].socket != so
  {
    RunInv(states, steps);
    hide Apply;
    hide Enabled;
    hide AllSound;
    var sys := states[|steps|];
    FindWorks(sys.objects, sys.socketsList, so);
    forall o | o in sys.socketsList && sys.objects[o].socket == so ensures Find(sys.objects, sys.socketsList, so) == Found(o) {
      var f := Find(sys.objects, sys.socketsList, so);
      if f.Found? {
        ListedOnce(sys, f.o, o);
      }
    }
  }

  /** A verdict changes the packets of an object only if it carries that object's sequence number, which no other object has;
      a verdict for an earlier object of the same socket changes nothing. */
  lemma StaleVerdictChangesNothing(states: seq<System>, steps: seq<Step>, o: nat, h: nat, sequence: nat, index: nat, allow: bool)
    requires IsRun(states, steps)
    requires Enabled(states[|steps|], On(o, Life.Respond(h, sequence, index, allow)))
    ensures var sys := states[|steps|]; var sys' := Apply(sys, On(o, Life.Respond(h, sequence, index, allow)));
            && (forall x :: 0 <= x < |sys.objects| && sys.objects[x].socketSequence != sequence ==> sys'.objects[x] == sys.objects[x])
            && (forall x :: 0 <= x < |sys.objects| && x != o ==> sys'.objects[x] == sys.objects[x])
            && (forall x, y :: 0 <= x < y < |sys.objects| ==> sys.objects[x].socketSequence != sys.objects[y].socketSequence)
  {
    RunInv(states, steps);
    hide AllSound;
    hide Lists;
    hide OnePerSocket;
    hide Runs.Apply;
  }

  /** A verdict with the right sequence number takes effect on the packet it names, if that has been reported and is still queued. */
  lemma MatchingVerdictIsApplied(states: seq<System>, steps: seq<Step>, o: nat, h: nat, index: nat, allow: bool, i: nat)
    requires IsRun(states, steps) && o < |states[|steps|].objects|
    requires var e := On(o, Life.Respond(h, states[|steps|].objects[o].socketSequence, index, allow));
             Enabled(states[|steps|], e)
    requires var q := states[|steps|].objects[o].world.s.pendingQueue;
             i < |q| && q[i].dataIndex == index && !q[i].needToBeReported
    ensures var sys := states[|steps|]; var e := On(o, Life.Respond(h, sys.objects[o].socketSequence, index, allow));
            var q, q' := sys.objects[o].world.s.pendingQueue, Apply(sys, e).objects[o].world.s.pendingQueue;
            |q'| == |q| && q'[i] == q[i].(allowData := allow, responseReceived := true)
  {
    RunInv(states, steps);
    var ob := states[|steps|].objects[o];
    assert Life.Inv(ob);
    Reached(ob.world, index, allow, i);
    hide Runs.Inv;
    hide Lists;
    hide Numbered;
    hide OnePerSocket;
    hide AfterVerdict;
    hide Life.FrameStep;
  }

  lemma Reached(w: Runs.World, index: nat, allow: bool, i: nat)
    requires Runs.Inv(w) && i < |w.s.pendingQueue| && w.s.pendingQueue[i].dataIndex == index && !w.s.pendingQueue[i].needToBeReported
    ensures var q, q' := w.s.pendingQueue, AfterVerdict(w.s.pendingQueue, index, allow);
            |q'| == |q| && q'[i] == q[i].(allowData := allow, responseReceived := true)
  {
    Life.WellFormedWorld(w);
    assert Runs.PlacedAt(w, index);
    hide Runs.Inv;
    hide Shape;
    hide AfterVerdict;
    Runs.QueuedIsUnique(w, i);
    VerdictReaches(w.s.pendingQueue, index, allow, i);
  }

  /** Over all objects and runs: only packets whose last verdict was an allow are offered to the stack. */
  lemma OnlyAllowedIsInjected(states: seq<System>, steps: seq<Step>, o: nat)
    requires IsRun(states, steps) && o < |states[|steps|].objects|
    ensures var w := states[|steps|].objects[o].world;
            forall r :: r in w.consumed && (r.fate == Injected || r.fate == Rejected) ==> Runs.Allowed(w, r.ticket.dataIndex)
  {
    RunInv(states, steps);
    hide Apply;
    hide Enabled;
    hide Runs.WellFormed;
    hide Runs.Placed;
    assert Life.Inv(states[|steps|].objects[o]);
  }

  /** An FltAttach returns only after it has put a new object of its socket in front of the list, attached. */
  lemma {:induction false} AttachInserts(states: seq<System>, steps: seq<Step>, n: nat, a: nat) returns (k: nat)
    requires IsRun(states, steps) && n <= |steps| && a < |states[n].attaches|
    requires states[n].attaches[a].phase.Inserted? || states[n].attaches[a].phase == Over
    ensures k < n && steps[k] == Insert(a)
    ensures var list, list' := states[k].socketsList, states[k + 1].socketsList;
            && |list'| == |list| + 1 && list'[1..] == list && list'[0] < |states[k + 1].objects|
            && var ob := states[k + 1].objects[list'[0]];
               ob.socket == states[n].attaches[a].so && ob.frame.stage == Life.Attached
    decreases n
  {
    hide *;
    if n == 0 {
      NoAttaches(states, steps);
    }
    k := n - 1;
    InvAt(states, steps, k);
    AttachesChange(states[k], steps[k]);
    if steps[k] == Insert(a) {
      InsertServes(states[k], a);
    } else {
      NotYetInserted(states[k], steps[k], a);
      k := AttachInserts(states, steps, n - 1, a);
    }
  }

  lemma NoAttaches(states: seq<System>, steps: seq<Step>)
    requires IsRun(states, steps)
    ensures |states| == |steps| + 1 && states[0].attaches == []
  {
  }

  lemma NotYetInserted(sys: System, e: Step, a: nat)
    requires Enabled(sys, e) && e != Insert(a) && a < |Apply(sys, e).attaches|
    requires Apply(sys, e).attaches[a].phase.Inserted? || Apply(sys, e).attaches[a].phase == Over
    ensures a < |sys.attaches| && (sys.attaches[a].phase.Inserted? || sys.attaches[a].phase == Over)
  {
    hide Life.Step;
    hide Life.Enabled;
    hide Find;
    hide Erase;
    hide Attaching;
    hide BeingDetached;
    hide Claimed;
  }

  lemma InsertServes(sys: System, a: nat)
    requires Inv(sys) && Enabled(sys, Insert(a))
    ensures var sys' := Apply(sys, Insert(a));
            && a < |sys.attaches| && sys'.socketsList == [sys.attaches[a].phase.o] + sys.socketsList
            && sys'.socketsList[0] < |sys'.objects|
            && var ob := sys'.objects[sys'.socketsList[0]];
               ob.socket == sys.attaches[a].so && ob.frame.stage == Life.Attached
  {
    InsertFindsNone(sys, a);
    var o := sys.attaches[a].phase.o;
    assert Life.Inv(sys.objects[o]);
    Life.SocketsListIff(sys.objects[o], Life.Insert(0));
    InsertsAttach(sys.objects[o], Life.Insert(0));
    hide Life.Step;
    hide Life.Enabled;
    hide Life.Inv;
    hide Inv;
  }

  // ---------------------------------------------------------------- lookups and deliverers are served

  /** The object gets one more reference, held by a new activation; nothing else changes. */
  predicate Referenced(sys: System, sys': System, x: nat) {
    && x < |sys.objects| && x < |sys'.objects|
    && sys' == sys.(objects := sys.objects[x := sys'.objects[x]])
    && sys'.objects[x] == sys.objects[x].(frame := sys'.objects[x].frame)
    && var f, f' := sys.objects[x].frame, sys'.objects[x].frame;
       f' == f.(retainCount := f.retainCount + 1, holders := f.holders + [Life.Using])
  }

  /** In every reachable state a lookup can go through: it gives the caller a reference to the listed object of the socket, or there
      is none and nothing changes. */
  lemma LookupRetains(states: seq<System>, steps: seq<Step>, so: nat, x: nat)
    requires IsRun(states, steps)
    ensures Enabled(states[|steps|], Lookup(so))
    ensures var sys := states[|steps|]; var sys' := Apply(sys, Lookup(so));
            && Within(sys.socketsList, |sys.objects|)
            && (x in sys.socketsList && sys.objects[x].socket == so ==> Referenced(sys, sys', x))
            && ((forall y :: y in sys.socketsList ==> sys.objects[y].socket != so) ==> sys' == sys)
  {
    RunInv(states, steps);
    var sys := states[|steps|];
    hide *;
    ListsKnown(sys);
    InvCore(sys);
    LookupOpen(sys, so);
    LookupServed(sys, so, x);
  }

  lemma LookupOpen(sys: System, so: nat)
    requires Inv(sys)
    ensures Enabled(sys, Lookup(so))
  {
    ListsKnown(sys);
    FindWorks(sys.objects, sys.socketsList, so);
    hide Inv;
    hide Find;
    hide Life.WorldStep;
  }

  lemma LookupServed(sys: System, so: nat, x: nat)
    requires Inv(sys) && Enabled(sys, Lookup(so)) && Within(sys.socketsList, |sys.objects|)
    ensures var sys' := Apply(sys, Lookup(so));
            && (x in sys.socketsList && sys.objects[x].socket == so ==> Referenced(sys, sys', x))
            && ((forall y :: y in sys.socketsList ==> sys.objects[y].socket != so) ==> sys' == sys)
  {
    FoundIsOnly(sys, so);
    FindWorks(sys.objects, sys.socketsList, so);
    LookupFires(sys, so);
    hide Inv;
    hide Find;
    hide Apply;
    hide Enabled;
    hide Fire;
    hide MayFire;
    hide Referenced;
    var f := Find(sys.objects, sys.socketsList, so);
    if f.Found? {
      RetainServes(sys, f.o);
    }
  }

  lemma LookupFires(sys: System, so: nat)
    requires Enabled(sys, Lookup(so)) && Within(sys.socketsList, |sys.objects|)
    ensures var f := Find(sys.objects, sys.socketsList, so);
            if f.Found? then MayFire(sys, f.o, Life.Retain) && Apply(sys, Lookup(so)) == Fire(sys, f.o, Life.Retain)
            else Apply(sys, Lookup(so)) == sys
  {
    hide Find;
    hide Fire;
    hide MayFire;
  }

  lemma RetainServes(sys: System, o: nat)
    requires MayFire(sys, o, Life.Retain)
    ensures Referenced(sys, Fire(sys, o, Life.Retain), o)
  {
  }

  lemma ListsKnown(sys: System)
    requires Inv(sys)
    ensures ListsInBounds(sys)
    ensures forall o :: 0 <= o < |sys.objects| ==>
              && (o in sys.socketsList <==> sys.objects[o].frame.insertedInSocketsList)
              && (o in sys.socketsListToReport <==> sys.objects[o].frame.insertedInSocketsListToReport)
  {
    hide AllSound;
    hide OnePerSocket;
    hide Numbered;
  }

  /** In every reachable state a deliverer can take the first object of the report list, and takes over the list's reference. */
  lemma FirstIsPopped(states: seq<System>, steps: seq<Step>)
    requires IsRun(states, steps) && states[|steps|].socketsListToReport != []
    ensures Enabled(states[|steps|], PopFirst)
    ensures var sys := states[|steps|]; var sys' := Apply(sys, PopFirst);
            var x := sys.socketsListToReport[0];
            && x < |sys.objects| && x < |sys'.objects|
            && sys'.socketsListToReport == sys.socketsListToReport[1..] && sys'.socketsList == sys.socketsList
            && sys'.objects[x].world == sys.objects[x].world
            && sys'.objects[x].frame.holders == sys.objects[x].frame.holders + [Life.Popped]
            && sys'.objects[x].frame.retainCount == sys.objects[x].frame.retainCount
  {
    RunInv(states, steps);
    var sys := states[|steps|];
    ListsKnown(sys);
    assert sys.socketsListToReport[0] in sys.socketsListToReport;
    hide IsRun;
    hide Inv;
  }

  predicate Before(list: seq<nat>, x: nat, y: nat) {
    exists i, j :: 0 <= i < j < |list| && list[i] == x && list[j] == y
  }

  lemma {:induction false} EraseKeepsOrder(list: seq<nat>, z: nat, x: nat, y: nat)
    requires Before(list, x, y) && z != x && z != y
    ensures Before(Erase(list, z), x, y)
  {
    var i, j :| 0 <= i < j < |list| && list[i] == x && list[j] == y;
    var rest := list[1..];
    if list[0] == z {
      assert rest[i - 1] == x && rest[j - 1] == y;
    } else if i == 0 {
      EraseKeepsMember(rest, z, j - 1);
      var k :| 0 <= k < |Erase(rest, z)| && Erase(rest, z)[k] == y;
      assert Erase(list, z)[0] == x && Erase(list, z)[k + 1] == y;
    } else {
      assert rest[i - 1] == x && rest[j - 1] == y;
      EraseKeepsOrder(rest, z, x, y);
      var k, l :| 0 <= k < l < |Erase(rest, z)| && Erase(rest, z)[k] == x && Erase(rest, z)[l] == y;
      assert Erase(list, z)[k + 1] == x && Erase(list, z)[l + 1] == y;
    }
  }

  lemma {:induction false} EraseKeepsMember(list: seq<nat>, z: nat, j: nat)
    requires j < |list| && list[j] != z
    ensures list[j] in Erase(list, z)
  {
    if list[0] == z {
      assert list[1..][j - 1] == list[j];
    } else if j > 0 {
      EraseKeepsMember(list[1..], z, j - 1);
    }
  }

  // an event of one object
  lemma FireKeepsOrder(sys: System, o: nat, e: Life.Event, x: nat, y: nat)
    requires MayFire(sys, o, e) && Before(sys.socketsListToReport, x, y)
    requires x in Fire(sys, o, e).socketsListToReport && y in Fire(sys, o, e).socketsListToReport && Distinct(sys.socketsListToReport)
    ensures Before(Fire(sys, o, e).socketsListToReport, x, y)
  {
    hide Life.Step;
    hide Life.Enabled;
    var list := sys.socketsListToReport;
    EraseWorks(list, o);
    if o != x && o != y {
      EraseKeepsOrder(list, o, x, y);
    }
    var i, j :| 0 <= i < j < |list| && list[i] == x && list[j] == y;
    assert (list + [o])[i] == x && (list + [o])[j] == y;
  }

  lemma StepKeepsOrder(sys: System, e: Step, x: nat, y: nat)
    requires Inv(sys) && Enabled(sys, e) && Before(sys.socketsListToReport, x, y)
    requires x in Apply(sys, e).socketsListToReport && y in Apply(sys, e).socketsListToReport
    ensures Before(Apply(sys, e).socketsListToReport, x, y)
  {
    StepFires(sys, e);
    assert Distinct(sys.socketsListToReport) by {
      hide AllSound;
      hide OnePerSocket;
      hide Numbered;
    }
    if e.Create? {
      CreateStep(sys, e.a);
    }
    hide Inv;
    hide Apply;
    hide Enabled;
    hide Fire;
    hide MayFire;
    hide FiredBy;
    hide Before;
    var f := FiredBy(sys, e);
    if f.Fired? {
      FireKeepsOrder(sys, f.o, f.e, x, y);
    }
  }

  /** Sockets are served in the order in which they came into the report list: as long as two of them stay in it, the one in
      front stays in front, and deliverers take the first. */
  lemma {:induction false} NoOvertaking(states: seq<System>, steps: seq<Step>, m: nat, n: nat, x: nat, y: nat)
    requires IsRun(states, steps) && m <= n <= |steps| && Before(states[m].socketsListToReport, x, y)
    requires forall k :: m <= k <= n ==> x in states[k].socketsListToReport && y in states[k].socketsListToReport
    ensures Before(states[n].socketsListToReport, x, y) && states[n].socketsListToReport[0] != y
    decreases n
  {
    hide *;
    InvAt(states, steps, n);
    if m < n {
      NoOvertaking(states, steps, m, n - 1, x, y);
      InvAt(states, steps, n - 1);
      StepKeepsOrder(states[n - 1], steps[n - 1], x, y);
    }
    ReportDistinct(states[n]);
    NotFirst(states[n].socketsListToReport, x, y);
  }

  lemma InvAt(states: seq<System>, steps: seq<Step>, n: nat)
    requires IsRun(states, steps) && n <= |steps|
    ensures |states| == |steps| + 1 && Inv(states[n])
    ensures n < |steps| ==> Enabled(states[n], steps[n]) && states[n + 1] == Apply(states[n], steps[n])
  {
    hide Apply;
    hide Enabled;
    hide Inv;
    assert IsRun(states[..n + 1], steps[..n]);
    RunInv(states[..n + 1], steps[..n]);
  }

  lemma ReportDistinct(sys: System)
    requires Inv(sys)
    ensures Distinct(sys.socketsListToReport)
  {
    hide AllSound;
    hide OnePerSocket;
    hide Numbered;
  }

  lemma NotFirst(list: seq<nat>, x: nat, y: nat)
    requires Before(list, x, y) && Distinct(list)
    ensures list != [] && list[0] != y
  {
  }

  // ---------------------------------------------------------------- verdicts arrive

  /** The slots that calls of FltAttach have claimed exist. */
  ghost predicate SlotsExist(sys: System) {
    forall a: nat, o: nat, h: nat :: a < |sys.attaches| && Claims(sys.attaches[a].phase, o, h) ==>
      o < |sys.objects| && h < |sys.objects[o].frame.holders|
  }

  // slots are never taken away
  lemma SlotsStay(sys: System, o: nat, e: Life.Event)
    requires MayFire(sys, o, e)
    ensures |Fire(sys, o, e).objects| == |sys.objects|
    ensures forall x :: 0 <= x < |sys.objects| ==> |Fire(sys, o, e).objects[x].frame.holders| >= |sys.objects[x].frame.holders|
    ensures e.Retain? ==> |Fire(sys, o, e).objects[o].frame.holders| == |sys.objects[o].frame.holders| + 1
  {
    hide Life.WorldStep;
    hide Life.WorldAllows;
    hide Life.InUse;
  }

  // which slots a step claims
  lemma ClaimsChange(sys: System, e: Step, a: nat, o: nat, h: nat)
    requires Enabled(sys, e) && a < |Apply(sys, e).attaches| && Claims(Apply(sys, e).attaches[a].phase, o, h)
    ensures || (a < |sys.attaches| && Claims(sys.attaches[a].phase, o, h))
            || (e.Look? && FiredBy(sys, e) == Fired(o, Life.Retain) && h == NextSlot(sys, o))
            || (e.Create? && o == |sys.objects| && h == 0)
  {
    hide Fire;
    hide Find;
    hide Attaching;
    hide BeingDetached;
    hide Claimed;
    hide MayFire;
    FireKeepsAttaches(sys, e);
  }

  lemma FireKeepsAttaches(sys: System, e: Step)
    requires Enabled(sys, e)
    ensures forall o, event :: MayFire(sys, o, event) ==> Fire(sys, o, event).attaches == sys.attaches
  {
    hide Life.Step;
  }

  lemma SlotsExistKeeps(sys: System, e: Step)
    requires Inv(sys) && SlotsExist(sys) && Enabled(sys, e)
    ensures SlotsExist(Apply(sys, e))
  {
    var sys' := Apply(sys, e);
    SlotsAfter(sys, e);
    hide Apply;
    hide Enabled;
    hide Fire;
    hide FiredBy;
    hide Inv;
    hide Claims;
    forall a: nat, o: nat, h: nat | a < |sys'.attaches| && Claims(sys'.attaches[a].phase, o, h)
      ensures o < |sys'.objects| && h < |sys'.objects[o].frame.holders|
    {
      ClaimsChange(sys, e, a, o, h);
    }
  }

  lemma SlotsAfter(sys: System, e: Step)
    requires Inv(sys) && Enabled(sys, e)
    ensures var sys', f := Apply(sys, e), FiredBy(sys, e);
            && |sys'.objects| == |sys.objects| + (if e.Create? then 1 else 0)
            && (forall x :: 0 <= x < |sys.objects| ==> |sys'.objects[x].frame.holders| >= |sys.objects[x].frame.holders|)
            && (f.Fired? ==> f.o < |sys.objects|)
            && (f.Fired? && f.e.Retain? ==> |sys'.objects[f.o].frame.holders| == |sys.objects[f.o].frame.holders| + 1)
            && (e.Create? ==> |sys'.objects[|sys.objects|].frame.holders| == 1)
  {
    StepFires(sys, e);
    if e.Create? {
      CreateStep(sys, e.a);
    }
    var f := FiredBy(sys, e);
    if f.Fired? {
      SlotsStay(sys, f.o, f.e);
      FiredInRange(sys, f.o, f.e);
    }
    hide Apply;
    hide Enabled;
    hide Fire;
    hide FiredBy;
    hide MayFire;
    hide Inv;
  }

  lemma FiredInRange(sys: System, o: nat, e: Life.Event)
    requires MayFire(sys, o, e)
    ensures o < |sys.objects|
  {
  }

  lemma {:induction false} RunSlots(states: seq<System>, steps: seq<Step>, n: nat)
    requires IsRun(states, steps) && n <= |steps|
    ensures |states| == |steps| + 1 && SlotsExist(states[n])
    decreases n
  {
    hide *;
    if n == 0 {
      NoAttaches(states, steps);
      NoSlots(states[0]);
    } else {
      RunSlots(states, steps, n - 1);
      InvAt(states, steps, n - 1);
      SlotsExistKeeps(states[n - 1], steps[n - 1]);
    }
  }

  lemma NoSlots(sys: System)
    requires sys.attaches == []
    ensures SlotsExist(sys)
  {
  }

  /** In every reachable state, an answer for a listed socket can be looked up and given, and if it has the sequence number of the
      listed object it takes effect on the packet it names, provided that one has been reported and is still queued. */
  lemma VerdictArrives(states: seq<System>, steps: seq<Step>, so: nat, x: nat, index: nat, allow: bool, i: nat)
    requires IsRun(states, steps) && x in states[|steps|].socketsList && x < |states[|steps|].objects|
    requires states[|steps|].objects[x].socket == so
    requires var q := states[|steps|].objects[x].world.s.pendingQueue; i < |q| && q[i].dataIndex == index && !q[i].needToBeReported
    ensures Enabled(states[|steps|], Lookup(so))
    ensures var sys := states[|steps|]; var sys1 := Apply(sys, Lookup(so));
            var answer := On(x, Life.Respond(NextSlot(sys, x), sys.objects[x].socketSequence, index, allow));
            && Enabled(sys1, answer)
            && var q, q' := sys.objects[x].world.s.pendingQueue, Apply(sys1, answer).objects[x].world.s.pendingQueue;
               |q'| == |q| && q'[i] == q[i].(allowData := allow, responseReceived := true)
  {
    LookupRetains(states, steps, so, x);
    RunSlots(states, steps, |steps|);
    RunInv(states, steps);
    hide IsRun;
    AnswerIsOpen(states[|steps|], so, x, index, allow);
    AnswerWorks(states[|steps|], so, x, index, allow, i);
  }

  lemma LookupClaimsNothing(sys: System, so: nat)
    requires Enabled(sys, Lookup(so))
    ensures Apply(sys, Lookup(so)).attaches == sys.attaches
    ensures Within(sys.socketsList, |sys.objects|) && Within(sys.socketsListToReport, |sys.objects|)
  {
    hide Life.Step;
    hide Find;
  }

  lemma AnswerIsOpen(sys: System, so: nat, x: nat, index: nat, allow: bool)
    requires Inv(sys) && SlotsExist(sys) && Enabled(sys, Lookup(so)) && Referenced(sys, Apply(sys, Lookup(so)), x)
    ensures Enabled(Apply(sys, Lookup(so)), On(x, Life.Respond(NextSlot(sys, x), sys.objects[x].socketSequence, index, allow)))
  {
    LookupClaimsNothing(sys, so);
    ListsKnown(sys);
    var sys1 := Apply(sys, Lookup(so));
    hide Apply;
    hide Enabled;
    hide Inv;
    NewSlotIsFree(sys, sys1, x);
    RespondIsOpen(sys, sys1, x, index, allow);
  }

  lemma NewSlotIsFree(sys: System, sys1: System, x: nat)
    requires SlotsExist(sys) && sys1.attaches == sys.attaches && x < |sys.objects|
    ensures !Claimed(sys1, x, NextSlot(sys, x))
  {
    hide Claims;
  }

  lemma RespondIsOpen(sys: System, sys1: System, x: nat, index: nat, allow: bool)
    requires ListsInBounds(sys) && Referenced(sys, sys1, x) && !Claimed(sys1, x, NextSlot(sys, x))
    ensures Enabled(sys1, On(x, Life.Respond(NextSlot(sys, x), sys.objects[x].socketSequence, index, allow)))
  {
    hide Claimed;
    hide Attaching;
    hide Runs.Enabled;
  }

  lemma AnswerWorks(sys: System, so: nat, x: nat, index: nat, allow: bool, i: nat)
    requires Inv(sys) && Enabled(sys, Lookup(so)) && Referenced(sys, Apply(sys, Lookup(so)), x)
    requires var q := sys.objects[x].world.s.pendingQueue; i < |q| && q[i].dataIndex == index && !q[i].needToBeReported
    requires Enabled(Apply(sys, Lookup(so)), On(x, Life.Respond(NextSlot(sys, x), sys.objects[x].socketSequence, index, allow)))
    ensures var sys1 := Apply(sys, Lookup(so));
            var answer := On(x, Life.Respond(NextSlot(sys, x), sys.objects[x].socketSequence, index, allow));
            var q, q' := sys.objects[x].world.s.pendingQueue, Apply(sys1, answer).objects[x].world.s.pendingQueue;
            |q'| == |q| && q'[i] == q[i].(allowData := allow, responseReceived := true)
  {
    assert Life.Inv(sys.objects[x]);
    Reached(sys.objects[x].world, index, allow, i);
    var sys1 := Apply(sys, Lookup(so));
    var answer := Life.Respond(NextSlot(sys, x), sys.objects[x].socketSequence, index, allow);
    AnswerFires(sys1, x, answer);
    hide Apply;
    hide Enabled;
    hide Inv;
    hide Life.Inv;
    hide Runs.Inv;
    hide AfterVerdict;
    RespondChanges(sys1, x, answer);
  }

  lemma AnswerFires(sys: System, x: nat, e: Life.Event)
    requires Enabled(sys, On(x, e))
    ensures MayFire(sys, x, e) && Apply(sys, On(x, e)) == Fire(sys, x, e)
  {
    hide Fire;
    hide MayFire;
    hide Claimed;
    hide Attaching;
  }

  lemma RespondChanges(sys: System, x: nat, e: Life.Event)
    requires MayFire(sys, x, e) && e.Respond? && e.sequence == sys.objects[x].socketSequence
    ensures |Fire(sys, x, e).objects| == |sys.objects|
    ensures Fire(sys, x, e).objects[x].world.s.pendingQueue == AfterVerdict(sys.objects[x].world.s.pendingQueue, e.index, e.allow)
  {
    hide Life.FrameStep;
    hide AfterVerdict;
    hide Runs.Left;
  }

  // ---------------------------------------------------------------- where a permission comes from

  /** The step processes a verdict for this packet: same object, its own sequence number, this data index. */
  predicate VerdictFor(sys: System, e: Step, o: nat, index: nat) {
    && e.On? && e.o == o && o < |sys.objects| && e.e.Respond? && e.e.index == index
    && e.e.sequence == sys.objects[o].socketSequence
  }

  /** Step k is the last verdict for the packet that came before the packet left the queue. */
  ghost predicate LastVerdict(states: seq<System>, steps: seq<Step>, o: nat, index: nat, k: nat)
    requires |states| == |steps| + 1
  {
    && k < |steps| && VerdictFor(states[k], steps[k], o, index)
    && forall j :: k < j < |steps| && VerdictFor(states[j], steps[j], o, index) ==> index in Runs.Left(states[j].objects[o].world)
  }

  // the rulings of an object change by its own verdicts only
  lemma RulingsChange(w: Runs.World, e: Runs.Step)
    requires Runs.Enabled(w, e)
    ensures Runs.Apply(w, e).rulings
            == if e.Verdict? && e.index !in Runs.Left(w) then w.rulings[e.index := e.allow] else w.rulings
  {
    hide Runs.Enabled;
    hide Runs.Left;
    hide Done;
    hide Tickets;
    hide Waiters;
  }

  lemma EventRulings(o: Life.Object, e: Life.Event)
    requires Life.Enabled(o, e)
    ensures Life.Step(o, e).socketSequence == o.socketSequence
    ensures Life.Step(o, e).world.rulings
            == if e.Respond? && e.sequence == o.socketSequence && e.index !in Runs.Left(o.world)
               then o.world.rulings[e.index := e.allow] else o.world.rulings
  {
    hide Life.FrameStep;
    hide Life.MayStep;
    hide Runs.Apply;
    hide Runs.Enabled;
    hide Runs.Left;
    match e
    case Local(l) => RulingsChange(o.world, l);
    case Queue(i, copyFailed) => RulingsChange(o.world, Runs.Enqueue(i, copyFailed));
    case Respond(_, _, index, allow) =>
      Life.VerdictEnabled(o.world, index, allow);
      RulingsChange(o.world, Runs.Verdict(index, allow));
    case Pass(_, attempts) => RulingsChange(o.world, Runs.Deliver(attempts));
    case PurgeAll(_) => RulingsChange(o.world, Runs.Purge(All));
    case _ =>
  }

  predicate SameRuling(w: Runs.World, w': Runs.World, index: nat) {
    && (index in w'.rulings <==> index in w.rulings)
    && (index in w.rulings ==> w'.rulings[index] == w.rulings[index])
  }

  lemma StepRulings(sys: System, e: Step, o: nat, index: nat)
    requires Enabled(sys, e) && o < |Apply(sys, e).objects|
    ensures o >= |sys.objects| ==> index !in Apply(sys, e).objects[o].world.rulings
    ensures o < |sys.objects| && !(VerdictFor(sys, e, o, index) && index !in Runs.Left(sys.objects[o].world)) ==>
              SameRuling(sys.objects[o].world, Apply(sys, e).objects[o].world, index)
    ensures VerdictFor(sys, e, o, index) && index !in Runs.Left(sys.objects[o].world) ==>
              index in Apply(sys, e).objects[o].world.rulings && Apply(sys, e).objects[o].world.rulings[index] == e.e.allow
    ensures o < |sys.objects| ==> Apply(sys, e).objects[o].socketSequence == sys.objects[o].socketSequence
  {
    hide Runs.Left;
    if e.Create? {
      CreatedRulings(sys, e.a);
      hide Apply;
      hide Enabled;
    } else {
      StepFires(sys, e);
      FiredVerdict(sys, e);
      hide Apply;
      hide Enabled;
      hide FiredBy;
      hide Fire;
      hide MayFire;
      var f := FiredBy(sys, e);
      if f.Fired? {
        FireRulings(sys, f.o, f.e, o);
      }
    }
  }

  lemma FiredVerdict(sys: System, e: Step)
    requires Enabled(sys, e)
    ensures var f := FiredBy(sys, e); f.Fired? && f.e.Respond? ==> e == On(f.o, f.e)
    ensures e.On? ==> FiredBy(sys, e) == Fired(e.o, e.e)
  {
  }

  lemma CreatedRulings(sys: System, a: nat)
    requires Enabled(sys, Create(a))
    ensures var objects := Apply(sys, Create(a)).objects;
            && |objects| == |sys.objects| + 1 && objects[|sys.objects|].world.rulings == map[]
            && forall o :: 0 <= o < |sys.objects| ==> objects[o] == sys.objects[o]
  {
  }

  lemma FireRulings(sys: System, o: nat, e: Life.Event, x: nat)
    requires MayFire(sys, o, e)
    ensures |Fire(sys, o, e).objects| == |sys.objects| && o < |sys.objects|
    ensures x < |sys.objects| && x != o ==> Fire(sys, o, e).objects[x] == sys.objects[x]
    ensures x == o ==>
              && Fire(sys, o, e).objects[x].socketSequence == sys.objects[x].socketSequence
              && Fire(sys, o, e).objects[x].world.rulings
                 == if e.Respond? && e.sequence == sys.objects[x].socketSequence && e.index !in Runs.Left(sys.objects[x].world)
                    then sys.objects[x].world.rulings[e.index := e.allow] else sys.objects[x].world.rulings
  {
    hide Life.Step;
    hide Runs.Left;
    EventRulings(sys.objects[o], e);
  }

  /** The ruling kept for a packet is the last verdict that came for it before it left the queue. */
  lemma {:induction false} RulingIsLastVerdict(states: seq<System>, steps: seq<Step>, o: nat, index: nat) returns (k: nat)
    requires IsRun(states, steps)
    requires o < |states[|steps|].objects| && index in states[|steps|].objects[o].world.rulings
    ensures LastVerdict(states, steps, o, index, k) && steps[k].e.allow == states[|steps|].objects[o].world.rulings[index]
    decreases |steps|
  {
    var n := |steps| - 1;
    hide Enabled;
    hide Apply;
    StepRulings(states[n], steps[n], o, index);
    if VerdictFor(states[n], steps[n], o, index) && index !in Runs.Left(states[n].objects[o].world) {
      k := n;
    } else {
      k := RulingIsLastVerdict(states[..|steps|], steps[..n], o, index);
    }
  }

  /** Permission safety: a packet offered to the stack was allowed by the last verdict that named its object's
      sequence number and its data index before it left the queue. */
  lemma PermissionSafety(states: seq<System>, steps: seq<Step>, o: nat, r: Record) returns (k: nat)
    requires IsRun(states, steps) && o < |states[|steps|].objects|
    requires r in states[|steps|].objects[o].world.consumed && (r.fate == Injected || r.fate == Rejected)
    ensures LastVerdict(states, steps, o, r.ticket.dataIndex, k) && steps[k].e.allow
  {
    OnlyAllowedIsInjected(states, steps, o);
    hide IsRun;
    hide LastVerdict;
    k := RulingIsLastVerdict(states, steps, o, r.ticket.dataIndex);
  }
}

/**
 The reference to the registered user client: registration, unregistration, getUserClient and releaseUserClient as
 interleaved atomic steps of any number of threads.
 */
module ClientRef {
  /** One successful registration, from its compare-and-swap on. own: the registering caller still has its own reference. */
  datatype Stage = Current | Removed | Drained | Released

  datatype Registration = Registration(client: nat, own: bool, retained: bool, stage: Stage)

  /** userClient points to the client of a registration, or is NULL. */
  datatype Pointer = Null | To(r: nat)

  datatype Thread =
    | Idle
    // getUserClient
    | Seen                                // the client was not NULL
    | Admitted                            // and no unregistration was pending
    | Entered                             // clientInvocations has been incremented
    | Loaded(client: nat)
    | Confirmed(client: nat, r: nat)      // the first compare-and-swap has succeeded
    | Backing                             // an unregistration is under way
    | Holding(client: nat, r: nat)        // getUserClient has returned the client
    // registerUserClient
    | Registering(client: nat)
    | Installed(r: nat)
    | Retained(r: nat)                    // has returned; the caller still has its own reference
    // unregisterUserClient
    | Matched(client: nat)
    | Marked(client: nat)
    | Failed
    | Waiting(r: nat)
    | Releasing(r: nat)
    | Finishing

  datatype State = State(
    userClient: Pointer,
    pendingUnregistration: bool,
    clientInvocations: int,
    threads: seq<Thread>,
    registrations: seq<Registration>,
    references: seq<int>)               // of each client

  datatype Action =
    | CheckClient | CheckPending | Increment | Load | ConfirmSame | ConfirmPresent | Back | ReleaseUserClient
    | BeginRegister(client: nat) | Install | Retain | DropOwn
    | BeginUnregister(client: nat) | MarkPending | Remove | ClearPending | Drain | ReleaseClient | Finish

  predicate WellIndexed(s: State) {
    && (s.userClient.To? ==> s.userClient.r < |s.registrations|)
    && (forall r :: 0 <= r < |s.registrations| ==> s.registrations[r].client < |s.references|)
  }

  predicate Enabled(s: State, t: nat, a: Action) {
    t < |s.threads| && WellIndexed(s)
    && var th := s.threads[t];
       match a
       case CheckClient => th.Idle?
       case CheckPending => th.Seen?
       case Increment => th.Admitted?
       case Load => th.Entered?
       case ConfirmSame => th.Loaded?
       case ConfirmPresent => th.Confirmed?
       case Back => th.Backing?
       case ReleaseUserClient => th.Holding?
       case BeginRegister(client) => th.Idle? && client < |s.references|
       case Install => th.Registering? && th.client < |s.references|
       case Retain => th.Installed? && th.r < |s.registrations|
       case DropOwn => th.Retained? && th.r < |s.registrations|
       case BeginUnregister(_) => th.Idle?
       case MarkPending => th.Matched?
       case Remove => th.Marked?
       case ClearPending => th.Failed?
       case Drain => th.Waiting? && th.r < |s.registrations| && s.clientInvocations == 0
       case ReleaseClient => th.Releasing? && th.r < |s.registrations|
       case Finish => th.Finishing?
  }

  function Goto(s: State, t: nat, th: Thread): State
    requires t < |s.threads|
  {
    s.(threads := s.threads[t := th])
  }

  /** retain() and release() of a client. */
  function Refer(s: State, client: nat, n: int): State
    requires client < |s.references|
  {
    s.(references := s.references[client := s.references[client] + n])
  }

  function Record(s: State, r: nat, registration: Registration): State
    requires r < |s.registrations|
  {
    s.(registrations := s.registrations[r := registration])
  }

  predicate PointsTo(s: State, client: nat)
    requires WellIndexed(s)
  {
    s.userClient.To? && s.registrations[s.userClient.r].client == client
  }

  function Apply(s: State, t: nat, a: Action): State
    requires Enabled(s, t, a)
  {
    var th := s.threads[t];
    match a
    case CheckClient => if s.userClient.Null? then s else Goto(s, t, Seen)
    case CheckPending => Goto(s, t, if s.pendingUnregistration then Idle else Admitted)
    case Increment => Goto(s, t, Entered).(clientInvocations := s.clientInvocations + 1)
    case Load => Goto(s, t, if s.userClient.Null? then Backing else Loaded(s.registrations[s.userClient.r].client))
    case ConfirmSame => Goto(s, t, if PointsTo(s, th.client) then Confirmed(th.client, s.userClient.r) else Backing)
    case ConfirmPresent => Goto(s, t, if s.userClient.Null? then Backing else Holding(th.client, th.r))
    case Back => Goto(s, t, Idle).(clientInvocations := s.clientInvocations - 1)
    case ReleaseUserClient => Goto(s, t, Idle).(clientInvocations := s.clientInvocations - 1)
    case BeginRegister(client) =>
      // the caller comes with a reference of its own
      if s.pendingUnregistration then s else Refer(Goto(s, t, Registering(client)), client, 1)
    case Install =>
      if s.userClient.Null?
      then Goto(s, t, Installed(|s.registrations|)).(
             registrations := s.registrations + [Registration(th.client, true, false, Current)], userClient := To(|s.registrations|))
      else Refer(Goto(s, t, Idle), th.client, -1)
    case Retain =>
      Refer(Record(Goto(s, t, Retained(th.r)), th.r, s.registrations[th.r].(retained := true)), s.registrations[th.r].client, 1)
    case DropOwn =>
      Refer(Record(Goto(s, t, Idle), th.r, s.registrations[th.r].(own := false)), s.registrations[th.r].client, -1)
    case BeginUnregister(client) => if PointsTo(s, client) then Goto(s, t, Matched(client)) else s
    case MarkPending => Goto(s, t, Marked(th.client)).(pendingUnregistration := true)
    case Remove =>
      if PointsTo(s, th.client)
      then Record(Goto(s, t, Waiting(s.userClient.r)), s.userClient.r, s.registrations[s.userClient.r].(stage := Removed)).(userClient := Null)
      else Goto(s, t, Failed)
    case ClearPending => Goto(s, t, Idle).(pendingUnregistration := false)
    case Drain => Record(Goto(s, t, Releasing(th.r)), th.r, s.registrations[th.r].(stage := Drained))
    case ReleaseClient =>
      Refer(Record(Goto(s, t, Finishing), th.r, s.registrations[th.r].(stage := Released)), s.registrations[th.r].client, -1)
    case Finish => Goto(s, t, Idle).(pendingUnregistration := false)
  }

  // ---------------------------------------------------------------- the invariant

  /** Between the increment and the decrement of clientInvocations. */
  predicate Inside(th: Thread) {
    th.Entered? || th.Loaded? || th.Confirmed? || th.Backing? || th.Holding?
  }

  function Invocations(threads: seq<Thread>): nat {
    if threads == [] then 0 else (if Inside(threads[0]) then 1 else 0) + Invocations(threads[1..])
  }

  /** A confirmed client belongs to a registration that has not been drained. */
  predicate Fits(registrations: seq<Registration>, th: Thread) {
    match th
    case Confirmed(client, r) =>
      r < |registrations| && registrations[r].client == client && (registrations[r].stage == Current || registrations[r].stage == Removed)
    case Holding(client, r) =>
      r < |registrations| && registrations[r].client == client && (registrations[r].stage == Current || registrations[r].stage == Removed)
    case Installed(r) => r < |registrations| && registrations[r].own && !registrations[r].retained
    case Retained(r) => r < |registrations| && registrations[r].own && registrations[r].retained
    case Waiting(r) => r < |registrations| && registrations[r].stage == Removed
    case Releasing(r) => r < |registrations| && registrations[r].stage == Drained
    case _ => true
  }

  predicate Registers(th: Thread, r: nat) {
    (th.Installed? && th.r == r) || (th.Retained? && th.r == r)
  }

  predicate Unregisters(th: Thread, r: nat) {
    (th.Waiting? && th.r == r) || (th.Releasing? && th.r == r)
  }

  /** Every registration is completed by one thread and undone by one thread. */
  ghost predicate Exclusive(threads: seq<Thread>) {
    forall i, j, r :: 0 <= i < j < |threads| ==>
      !(Registers(threads[i], r) && Registers(threads[j], r)) && !(Unregisters(threads[i], r) && Unregisters(threads[j], r))
  }

  ghost predicate AllFit(registrations: seq<Registration>, threads: seq<Thread>) {
    forall i :: 0 <= i < |threads| ==> Fits(registrations, threads[i])
  }

  /** userClient points to the one current registration. */
  ghost predicate Pointed(s: State) {
    && (s.userClient.To? ==> s.userClient.r < |s.registrations|)
    && forall r :: 0 <= r < |s.registrations| ==> (s.registrations[r].stage == Current <==> s.userClient == To(r))
  }

  function One(b: bool): int {
    if b then 1 else 0
  }

  /** The references a registration accounts for; never negative. */
  function Weight(g: Registration): int {
    One(g.own) + One(g.retained) - One(g.stage == Released)
  }

  function OfRegistrations(registrations: seq<Registration>, client: nat): int {
    if registrations == [] then 0
    else (if registrations[0].client == client then Weight(registrations[0]) else 0) + OfRegistrations(registrations[1..], client)
  }

  /** Callers on their way into a registration. */
  function OfCallers(threads: seq<Thread>, client: nat): nat {
    if threads == [] then 0 else (if threads[0] == Registering(client) then 1 else 0) + OfCallers(threads[1..], client)
  }

  ghost predicate Referred(s: State, client: nat)
    requires client < |s.references|
  {
    s.references[client] == OfCallers(s.threads, client) + OfRegistrations(s.registrations, client)
  }

  ghost predicate Backed(registrations: seq<Registration>) {
    forall r :: 0 <= r < |registrations| ==> registrations[r].own || registrations[r].retained
  }

  ghost predicate CallersKnown(s: State) {
    forall i :: 0 <= i < |s.threads| && s.threads[i].Registering? ==> s.threads[i].client < |s.references|
  }

  ghost predicate Inv(s: State) {
    && WellIndexed(s)
    && s.clientInvocations == Invocations(s.threads)
    && AllFit(s.registrations, s.threads) && Exclusive(s.threads)
    && Pointed(s)
    && Backed(s.registrations)
    && CallersKnown(s)
    && (forall client :: 0 <= client < |s.references| ==> Referred(s, client))
  }

  predicate Initial(s: State) {
    && s.userClient == Null && !s.pendingUnregistration && s.clientInvocations == 0 && s.registrations == []
    && (forall i :: 0 <= i < |s.threads| ==> s.threads[i] == Idle)
    && (forall client :: 0 <= client < |s.references| ==> s.references[client] == 0)
  }

  // ---------------------------------------------------------------- counting

  lemma {:induction false} InvocationsUpdate(threads: seq<Thread>, t: nat, th: Thread)
    requires t < |threads|
    ensures Invocations(threads[t := th]) == Invocations(threads) - (if Inside(threads[t]) then 1 else 0) + if Inside(th) then 1 else 0
  {
    if t > 0 {
      assert threads[t := th][1..] == threads[1..][t - 1 := th];
      InvocationsUpdate(threads[1..], t - 1, th);
    }
  }

  lemma {:induction false} InvocationsMember(threads: seq<Thread>, t: nat)
    requires t < |threads| && Inside(threads[t])
    ensures Invocations(threads) > 0
  {
    if t > 0 {
      InvocationsMember(threads[1..], t - 1);
    }
  }

  lemma {:induction false} CallersUpdate(threads: seq<Thread>, t: nat, th: Thread, client: nat)
    requires t < |threads|
    ensures OfCallers(threads[t := th], client)
            == OfCallers(threads, client) - (if threads[t] == Registering(client) then 1 else 0) + if th == Registering(client) then 1 else 0
  {
    if t > 0 {
      assert threads[t := th][1..] == threads[1..][t - 1 := th];
      CallersUpdate(threads[1..], t - 1, th, client);
    }
  }

  lemma {:induction false} RegistrationsUpdate(gs: seq<Registration>, r: nat, g: Registration, client: nat)
    requires r < |gs| && g.client == gs[r].client
    ensures OfRegistrations(gs[r := g], client)
            == OfRegistrations(gs, client) + if g.client == client then Weight(g) - Weight(gs[r]) else 0
  {
    if r > 0 {
      assert gs[r := g][1..] == gs[1..][r - 1 := g];
      RegistrationsUpdate(gs[1..], r - 1, g, client);
    }
  }

  lemma {:induction false} RegistrationsAppend(gs: seq<Registration>, g: Registration, client: nat)
    ensures OfRegistrations(gs + [g], client) == OfRegistrations(gs, client) + if g.client == client then Weight(g) else 0
  {
    if gs == [] {
      assert (gs + [g])[1..] == [];
    } else {
      assert (gs + [g])[1..] == gs[1..] + [g];
      RegistrationsAppend(gs[1..], g, client);
    }
  }

  lemma {:induction false} RegistrationsBacked(gs: seq<Registration>, client: nat)
    requires Backed(gs)
    ensures OfRegistrations(gs, client) >= 0
    ensures forall r :: 0 <= r < |gs| && gs[r].client == client && gs[r].stage != Released ==> OfRegistrations(gs, client) > 0
  {
    if gs != [] {
      assert Backed(gs[1..]) by {
        forall r | 0 <= r < |gs[1..]| ensures gs[1..][r].own || gs[1..][r].retained {
          assert gs[1..][r] == gs[r + 1];
        }
      }
      RegistrationsBacked(gs[1..], client);
      forall r | 0 <= r < |gs| && gs[r].client == client && gs[r].stage != Released ensures OfRegistrations(gs, client) > 0 {
        if r > 0 {
          assert gs[1..][r - 1] == gs[r];
        }
      }
    }
  }

  // ---------------------------------------------------------------- every step keeps the invariant

  // every step is one thread's
  lemma OneThread(s: State, t: nat, a: Action)
    requires Enabled(s, t, a)
    ensures var s' := Apply(s, t, a);
            |s'.references| == |s.references| && |s'.threads| == |s.threads| && s'.threads == s.threads[t := s'.threads[t]]
  {
  }

  lemma CountKeeps(s: State, t: nat, a: Action)
    requires Enabled(s, t, a) && s.clientInvocations == Invocations(s.threads)
    ensures Apply(s, t, a).clientInvocations == Invocations(Apply(s, t, a).threads)
  {
    hide Invocations;
    var s' := Apply(s, t, a);
    OneThread(s, t, a);
    InvocationsUpdate(s.threads, t, s'.threads[t]);
  }

  // the registration a step works on, and what it becomes
  lemma ReferredKeeps(s: State, t: nat, a: Action, client: nat)
    requires Enabled(s, t, a) && Fits(s.registrations, s.threads[t]) && Pointed(s)
    requires client < |s.references| && Referred(s, client)
    ensures |Apply(s, t, a).references| == |s.references| && Referred(Apply(s, t, a), client)
  {
    hide OfCallers;
    hide OfRegistrations;
    var s' := Apply(s, t, a);
    OneThread(s, t, a);
    CallersUpdate(s.threads, t, s'.threads[t], client);
    match a
    case Install => RegistrationsAppend(s.registrations, Registration(s.threads[t].client, true, false, Current), client);
    case Retain => RegistrationsUpdate(s.registrations, s.threads[t].r, s'.registrations[s.threads[t].r], client);
    case DropOwn => RegistrationsUpdate(s.registrations, s.threads[t].r, s'.registrations[s.threads[t].r], client);
    case Drain => RegistrationsUpdate(s.registrations, s.threads[t].r, s'.registrations[s.threads[t].r], client);
    case ReleaseClient => RegistrationsUpdate(s.registrations, s.threads[t].r, s'.registrations[s.threads[t].r], client);
    case Remove =>
      if PointsTo(s, s.threads[t].client) {
        RegistrationsUpdate(s.registrations, s.userClient.r, s'.registrations[s.userClient.r], client);
      }
    case _ =>
  }

  lemma ShapeKeeps(s: State, t: nat, a: Action)
    requires Enabled(s, t, a) && Fits(s.registrations, s.threads[t]) && Pointed(s) && Backed(s.registrations)
    ensures WellIndexed(Apply(s, t, a)) && Backed(Apply(s, t, a).registrations)
  {
  }

  lemma PointedKeeps(s: State, t: nat, a: Action)
    requires Enabled(s, t, a) && Fits(s.registrations, s.threads[t]) && Pointed(s)
    ensures Pointed(Apply(s, t, a))
  {
  }

  lemma CallersKeep(s: State, t: nat, a: Action)
    requires Enabled(s, t, a) && CallersKnown(s)
    ensures CallersKnown(Apply(s, t, a))
  {
    OneThread(s, t, a);
  }

  // a thread takes over a registration only if no other thread has it
  lemma MovesAlone(s: State, t: nat, a: Action, r: nat)
    requires Enabled(s, t, a) && Fits(s.registrations, s.threads[t]) && Pointed(s)
    ensures var th, th' := s.threads[t], Apply(s, t, a).threads[t];
            && (Registers(th', r) ==> Registers(th, r) || r == |s.registrations|)
            && (Unregisters(th', r) ==> Unregisters(th, r) || (r < |s.registrations| && s.registrations[r].stage == Current))
  {
  }

  lemma ExclusiveKeeps(s: State, t: nat, a: Action)
    requires Enabled(s, t, a) && AllFit(s.registrations, s.threads) && Exclusive(s.threads) && Pointed(s)
    ensures Exclusive(Apply(s, t, a).threads)
  {
    var s' := Apply(s, t, a);
    OneThread(s, t, a);
    forall i, j, r | 0 <= i < j < |s'.threads|
      ensures !(Registers(s'.threads[i], r) && Registers(s'.threads[j], r))
      ensures !(Unregisters(s'.threads[i], r) && Unregisters(s'.threads[j], r))
    {
      hide *;
      if i == t {
        PairKeeps(s, t, a, j, r);
      } else if j == t {
        PairKeeps(s, t, a, i, r);
      } else {
        Others(s.threads, i, j, r);
      }
    }
  }

  // the thread that moves and another one
  lemma PairKeeps(s: State, t: nat, a: Action, j: nat, r: nat)
    requires Enabled(s, t, a) && AllFit(s.registrations, s.threads) && Exclusive(s.threads) && Pointed(s) && j < |s.threads| && j != t
    ensures var th' := Apply(s, t, a).threads[t];
            !(Registers(th', r) && Registers(s.threads[j], r)) && !(Unregisters(th', r) && Unregisters(s.threads[j], r))
  {
    assert Fits(s.registrations, s.threads[j]) && Fits(s.registrations, s.threads[t]);
    Others(s.threads, j, t, r);
    MovesAlone(s, t, a, r);
    hide Exclusive;
    hide Pointed;
    hide AllFit;
    hide Apply;
  }

  lemma Others(threads: seq<Thread>, i: nat, t: nat, r: nat)
    requires Exclusive(threads) && i < |threads| && t < |threads| && i != t
    ensures !(Registers(threads[i], r) && Registers(threads[t], r)) && !(Unregisters(threads[i], r) && Unregisters(threads[t], r))
  {
    assert i < t || t < i;
  }

  // what a step can change about a registration
  lemma RegistrationChange(s: State, t: nat, a: Action, r: nat)
    requires Enabled(s, t, a) && Fits(s.registrations, s.threads[t]) && Pointed(s) && r < |s.registrations|
    ensures var th, gs' := s.threads[t], Apply(s, t, a).registrations;
            && r < |gs'| && gs'[r].client == s.registrations[r].client
            && (!Registers(th, r) ==> gs'[r].own == s.registrations[r].own && gs'[r].retained == s.registrations[r].retained)
            && (!Unregisters(th, r) ==> gs'[r].stage == s.registrations[r].stage || gs'[r].stage == Removed)
            && (s.registrations[r].stage == Removed ==> gs'[r].stage == Removed || (gs'[r].stage == Drained && s.clientInvocations == 0))
            && (s.registrations[r].stage == Current ==> gs'[r].stage == Current || gs'[r].stage == Removed)
            && (!Unregisters(th, r) && s.registrations[r].stage != Current ==> gs'[r].stage == s.registrations[r].stage)
  {
  }

  // what the step of one thread means for another
  lemma OtherFits(s: State, t: nat, a: Action, th: Thread)
    requires Enabled(s, t, a) && Fits(s.registrations, s.threads[t]) && Fits(s.registrations, th) && Pointed(s)
    requires forall r :: !(Registers(th, r) && Registers(s.threads[t], r)) && !(Unregisters(th, r) && Unregisters(s.threads[t], r))
    requires s.clientInvocations == 0 ==> !Inside(th)
    ensures Fits(Apply(s, t, a).registrations, th)
  {
    hide Apply;
    hide Enabled;
    hide Pointed;
    match th
    case Confirmed(_, r) => RegistrationChange(s, t, a, r);
    case Holding(_, r) => RegistrationChange(s, t, a, r);
    case Installed(r) =>
      assert Registers(th, r);
      RegistrationChange(s, t, a, r);
    case Retained(r) =>
      assert Registers(th, r);
      RegistrationChange(s, t, a, r);
    case Waiting(r) =>
      assert Unregisters(th, r);
      RegistrationChange(s, t, a, r);
    case Releasing(r) =>
      assert Unregisters(th, r);
      RegistrationChange(s, t, a, r);
    case _ =>
  }

  lemma OwnFits(s: State, t: nat, a: Action)
    requires Enabled(s, t, a) && Fits(s.registrations, s.threads[t]) && Pointed(s)
    ensures Fits(Apply(s, t, a).registrations, Apply(s, t, a).threads[t])
  {
  }

  lemma FitsKeeps(s: State, t: nat, a: Action)
    requires Inv(s) && Enabled(s, t, a)
    ensures AllFit(Apply(s, t, a).registrations, Apply(s, t, a).threads)
  {
    OneThread(s, t, a);
    hide Apply;
    hide Fits;
    hide Pointed;
    hide Exclusive;
    hide Backed;
    hide Referred;
    var s' := Apply(s, t, a);
    forall i | 0 <= i < |s'.threads| ensures Fits(s'.registrations, s'.threads[i]) {
      if i == t {
        OwnFits(s, t, a);
      } else {
        forall r
          ensures !(Registers(s.threads[i], r) && Registers(s.threads[t], r))
          ensures !(Unregisters(s.threads[i], r) && Unregisters(s.threads[t], r))
        {
          Others(s.threads, i, t, r);
        }
        if Inside(s.threads[i]) {
          InvocationsMember(s.threads, i);
        }
        OtherFits(s, t, a, s.threads[i]);
      }
    }
  }

  lemma InvKeeps(s: State, t: nat, a: Action)
    requires Inv(s) && Enabled(s, t, a)
    ensures Inv(Apply(s, t, a))
  {
    hide Apply;
    hide Exclusive;
    hide Pointed;
    hide Backed;
    hide Fits;
    hide Referred;
    hide CallersKnown;
    OneThread(s, t, a);
    CountKeeps(s, t, a);
    ShapeKeeps(s, t, a);
    PointedKeeps(s, t, a);
    CallersKeep(s, t, a);
    ExclusiveKeeps(s, t, a);
    FitsKeeps(s, t, a);
    var s' := Apply(s, t, a);
    forall client | 0 <= client < |s'.references| ensures Referred(s', client) {
      ReferredKeeps(s, t, a, client);
    }
  }

  // ---------------------------------------------------------------- whole runs

  /** Steps of any threads in any order. */
  predicate Steps(states: seq<State>, steps: seq<(nat, Action)>) {
    && |states| == |steps| + 1
    && forall i :: 0 <= i < |steps| ==>
         Enabled(states[i], steps[i].0, steps[i].1) && states[i + 1] == Apply(states[i], steps[i].0, steps[i].1)
  }

  /** A run starts when no thread has started. */
  predicate IsRun(states: seq<State>, steps: seq<(nat, Action)>) {
    Steps(states, steps) && Initial(states[0])
  }

  lemma {:induction false} AllIdle(threads: seq<Thread>)
    requires forall i :: 0 <= i < |threads| ==> threads[i] == Idle
    ensures Invocations(threads) == 0 && forall client :: OfCallers(threads, client) == 0
  {
    if threads != [] {
      AllIdle(threads[1..]);
    }
  }

  lemma {:induction false} RunInv(states: seq<State>, steps: seq<(nat, Action)>)
    requires IsRun(states, steps)
    ensures Inv(states[|steps|])
    decreases |steps|
  {
    if steps == [] {
      AllIdle(states[0].threads);
    } else {
      var n := |steps| - 1;
      RunInv(states[..|steps|], steps[..n]);
      hide Inv;
      hide Apply;
      hide Enabled;
      InvKeeps(states[n], steps[n].0, steps[n].1);
    }
  }

  /** clientInvocations is the number of threads between the increment and the decrement. */
  lemma InvocationsAreCounted(states: seq<State>, steps: seq<(nat, Action)>)
    requires IsRun(states, steps)
    ensures states[|steps|].clientInvocations == Invocations(states[|steps|].threads)
  {
    hide Apply;
    RunInv(states, steps);
  }

  /** As long as a thread holds a client from getUserClient, the registration it got it from has not been released,
      unregisterUserClient cannot go on to release it, and the client still has a reference. */
  lemma HeldClientIsAlive(states: seq<State>, steps: seq<(nat, Action)>, i: nat)
    requires IsRun(states, steps) && i < |states[|steps|].threads| && states[|steps|].threads[i].Holding?
    ensures var s := states[|steps|]; var th := s.threads[i];
            && th.r < |s.registrations| && s.registrations[th.r].client == th.client
            && s.registrations[th.r].stage != Released
            && th.client < |s.references| && s.references[th.client] > 0
            && (forall j :: 0 <= j < |s.threads| && s.threads[j] == Waiting(th.r) ==> !Enabled(s, j, Drain))
            && Releasing(th.r) !in s.threads
  {
    RunInv(states, steps);
    var s := states[|steps|];
    hide IsRun;
    hide Exclusive;
    hide Pointed;
    HoldingFits(s, i);
    InvocationsMember(s.threads, i);
    RegistrationsBacked(s.registrations, s.threads[i].client);
    assert Referred(s, s.threads[i].client);
  }

  lemma HoldingFits(s: State, i: nat)
    requires AllFit(s.registrations, s.threads) && i < |s.threads| && s.threads[i].Holding?
    ensures var th := s.threads[i];
            && th.r < |s.registrations| && s.registrations[th.r].client == th.client
            && (s.registrations[th.r].stage == Current || s.registrations[th.r].stage == Removed)
            && Releasing(th.r) !in s.threads
  {
    assert Fits(s.registrations, s.threads[i]);
    forall j | 0 <= j < |s.threads| ensures s.threads[j] != Releasing(s.threads[i].r) {
      assert Fits(s.registrations, s.threads[j]);
    }
  }

  /** Reference counts never become negative: no client is released twice. */
  lemma ReferencesStayPositive(states: seq<State>, steps: seq<(nat, Action)>, client: nat)
    requires IsRun(states, steps) && client < |states[|steps|].references|
    ensures states[|steps|].references[client] >= 0
  {
    RunInv(states, steps);
    hide IsRun;
    var s := states[|steps|];
    assert Referred(s, client);
    RegistrationsBacked(s.registrations, client);
  }

  /** The waiting unregistration can go on as soon as no thread is inside. */
  lemma DrainWaitsForInvocations(states: seq<State>, steps: seq<(nat, Action)>, t: nat)
    requires IsRun(states, steps) && t < |states[|steps|].threads| && states[|steps|].threads[t].Waiting?
    ensures Enabled(states[|steps|], t, Drain) <==> Invocations(states[|steps|].threads) == 0
  {
    hide Apply;
    RunInv(states, steps);
    assert Fits(states[|steps|].registrations, states[|steps|].threads[t]);
  }

  // ---------------------------------------------------------------- what a call answers

  /** Of the steps between m and n none is thread t's. */
  predicate Apart(steps: seq<(nat, Action)>, m: nat, n: nat, t: nat) {
    n <= |steps| && forall j :: m < j < n ==> steps[j].0 != t
  }

  /** userClient points to registration r of this client. */
  predicate Points(s: State, client: nat, r: nat) {
    s.userClient == To(r) && r < |s.registrations| && s.registrations[r].client == client
  }

  ghost predicate PointsSomewhere(s: State, client: nat) {
    exists r: nat :: Points(s, client, r)
  }

  // where a thread comes from
  lemma CameFrom(s: State, t: nat, a: Action)
    requires Enabled(s, t, a)
    ensures |Apply(s, t, a).threads| == |s.threads|
    ensures var th, th', p := s.threads[t], Apply(s, t, a).threads[t], s.userClient;
            match th'
            case Loaded(client) => a == Load && PointsSomewhere(s, client)
            case Confirmed(client, r) => a == ConfirmSame && th == Loaded(client) && Points(s, client, r)
            case Holding(client, r) => a == ConfirmPresent && th == Confirmed(client, r) && p.To?
            case Registering(client) => a == BeginRegister(client) && !s.pendingUnregistration
            case Installed(r) => a == Install && th.Registering? && p.Null? && r == |s.registrations|
            case Retained(r) => a == Retain && th == Installed(r)
            case Matched(client) => a == BeginUnregister(client) && PointsSomewhere(s, client)
            case Marked(client) => a == MarkPending && th == Matched(client)
            case Waiting(r) => a == Remove && th.Marked? && Points(s, th.client, r)
            case _ => true
  {
    if s.userClient.To? {
      assert Points(s, s.registrations[s.userClient.r].client, s.userClient.r);
    }
  }

  // where it goes
  lemma GoesTo(s: State, t: nat, a: Action, client: nat, r: nat)
    requires Enabled(s, t, a)
    ensures |Apply(s, t, a).threads| == |s.threads|
    ensures var th, th', p := s.threads[t], Apply(s, t, a).threads[t], s.userClient;
            && (a == CheckClient && p.To? ==> th' == Seen)
            && (a == CheckPending && !s.pendingUnregistration ==> th' == Admitted)
            && (a == Increment ==> th' == Entered)
            && (a == Load && Points(s, client, r) ==> th' == Loaded(client))
            && (a == ConfirmSame && th == Loaded(client) && Points(s, client, r) ==> th' == Confirmed(client, r))
            && (a == ConfirmPresent && th == Confirmed(client, r) && p.To? ==> th' == Holding(client, r))
            && (a == BeginRegister(client) && !s.pendingUnregistration ==> th' == Registering(client))
            && (a == Install && p.Null? ==> th' == Installed(|s.registrations|))
            && (a == Retain && th == Installed(r) ==> th' == Retained(r))
            && (a == BeginUnregister(client) && Points(s, client, r) ==> th' == Matched(client))
            && (a == MarkPending && th == Matched(client) ==> th' == Marked(client))
            && (a == Remove && th == Marked(client) && Points(s, client, r) ==> th' == Waiting(r))
  {
  }

  lemma OtherStays(s: State, t: nat, a: Action, u: nat)
    requires Enabled(s, t, a) && u < |s.threads| && u != t
    ensures |Apply(s, t, a).threads| == |s.threads| && Apply(s, t, a).threads[u] == s.threads[u]
  {
    OneThread(s, t, a);
  }

  lemma ThreadsStay(states: seq<State>, steps: seq<(nat, Action)>, n: nat, t: nat)
    requires IsRun(states, steps) && n < |steps|
    ensures |states[n + 1].threads| == |states[n].threads|
    ensures t < |states[n].threads| && steps[n].0 != t ==> states[n + 1].threads[t] == states[n].threads[t]
  {
    OneThread(states[n], steps[n].0, steps[n].1);
    hide Apply;
    hide Enabled;
  }

  /** A thread that is not idle is where its last step has taken it. */
  lemma {:induction false} LastStep(states: seq<State>, steps: seq<(nat, Action)>, n: nat, t: nat) returns (m: nat)
    requires IsRun(states, steps) && n <= |steps| && t < |states[n].threads| && states[n].threads[t] != Idle
    ensures m < n && steps[m].0 == t && Apart(steps, m, n, t)
    ensures t < |states[m].threads| && t < |states[m + 1].threads| && states[m + 1].threads[t] == states[n].threads[t]
    decreases n
  {
    hide Apply;
    hide Enabled;
    m := n - 1;
    ThreadsStay(states, steps, m, t);
    if steps[m].0 != t {
      m := LastStep(states, steps, n - 1, t);
    }
  }

  // between two of its steps a thread does not move
  lemma {:induction false} Stands(states: seq<State>, steps: seq<(nat, Action)>, m: nat, n: nat, t: nat)
    requires IsRun(states, steps) && m < n && Apart(steps, m, n, t) && t < |states[m].threads|
    ensures t < |states[m + 1].threads| && t < |states[n].threads| && states[n].threads[t] == states[m + 1].threads[t]
    decreases n
  {
    hide Apply;
    hide Enabled;
    ThreadsStay(states, steps, m, t);
    if m + 1 < n {
      Stands(states, steps, m, n - 1, t);
      ThreadsStay(states, steps, n - 1, t);
    }
  }

  /** The last three steps of a getUserClient that returns registration r of the client. */
  ghost predicate Gets(states: seq<State>, steps: seq<(nat, Action)>, t: nat, l: nat, m: nat, n: nat, client: nat, r: nat) {
    && l < m < n < |steps| && |states| == |steps| + 1
    && steps[l] == (t, Load) && steps[m] == (t, ConfirmSame) && steps[n] == (t, ConfirmPresent)
    && Apart(steps, l, m, t) && Apart(steps, m, n, t)
    && PointsSomewhere(states[l], client) && Points(states[m], client, r) && states[n].userClient.To?
  }

  lemma StepEnabled(states: seq<State>, steps: seq<(nat, Action)>, n: nat)
    requires IsRun(states, steps) && n < |steps|
    ensures Enabled(states[n], steps[n].0, steps[n].1) && states[n + 1] == Apply(states[n], steps[n].0, steps[n].1)
    ensures |states| == |steps| + 1 && steps[n].0 < |states[n].threads|
  {
  }

  /** In every run, getUserClient returns a client exactly if userClient pointed to the client when it was read and when it was
      compared, and was not NULL at the last look. */
  lemma GetterIff(states: seq<State>, steps: seq<(nat, Action)>, t: nat, n: nat, client: nat, r: nat)
    requires IsRun(states, steps) && n < |steps| && steps[n].0 == t && t < |states[n + 1].threads|
    ensures states[n + 1].threads[t] == Holding(client, r) <==>
              exists l: nat, m: nat :: Gets(states, steps, t, l, m, n, client, r)
  {
    hide *;
    StepEnabled(states, steps, n);
    CameFrom(states[n], t, steps[n].1);
    if states[n + 1].threads[t] == Holding(client, r) {
      var m := LastStep(states, steps, n, t);
      StepEnabled(states, steps, m);
      CameFrom(states[m], t, steps[m].1);
      var l := LastStep(states, steps, m, t);
      StepEnabled(states, steps, l);
      CameFrom(states[l], t, steps[l].1);
      GetsBy(states, steps, t, l, m, n, client, r);
    }
    if l: nat, m: nat :| Gets(states, steps, t, l, m, n, client, r) {
      Got(states, steps, t, l, m, n, client, r);
    }
  }

  lemma GetsBy(states: seq<State>, steps: seq<(nat, Action)>, t: nat, l: nat, m: nat, n: nat, client: nat, r: nat)
    requires l < m < n < |steps| && |states| == |steps| + 1
    requires steps[l] == (t, Load) && steps[m] == (t, ConfirmSame) && steps[n] == (t, ConfirmPresent)
    requires Apart(steps, l, m, t) && Apart(steps, m, n, t)
    requires PointsSomewhere(states[l], client) && Points(states[m], client, r) && states[n].userClient.To?
    ensures Gets(states, steps, t, l, m, n, client, r)
  {
  }

  lemma Got(states: seq<State>, steps: seq<(nat, Action)>, t: nat, l: nat, m: nat, n: nat, client: nat, r: nat)
    requires IsRun(states, steps) && Gets(states, steps, t, l, m, n, client, r)
    ensures t < |states[n + 1].threads| && states[n + 1].threads[t] == Holding(client, r)
  {
    var q: nat :| Points(states[l], client, q);
    hide IsRun;
    hide Points;
    hide Apart;
    StepEnabled(states, steps, l);
    StepEnabled(states, steps, m);
    StepEnabled(states, steps, n);
    hide Apply;
    hide Enabled;
    GoesTo(states[l], t, Load, client, q);
    Stands(states, steps, l, m, t);
    GoesTo(states[m], t, ConfirmSame, client, r);
    Stands(states, steps, m, n, t);
    GoesTo(states[n], t, ConfirmPresent, client, r);
  }

  /** The six next steps of thread t, starting with a call of getUserClient. */
  ghost predicate NextSix(steps: seq<(nat, Action)>, t: nat, at: seq<nat>) {
    && |at| == 6 && at[5] < |steps| && (forall i :: 0 <= i < 5 ==> at[i] < at[i + 1] && Apart(steps, at[i], at[i + 1], t))
    && (forall i :: 0 <= i < 6 ==> at[i] < |steps| && steps[at[i]].0 == t) && steps[at[0]].1 == CheckClient
  }

  // the one action that is open to a thread on its way through getUserClient
  lemma OnlyAction(s: State, t: nat, a: Action)
    requires Enabled(s, t, a)
    ensures match s.threads[t]
            case Seen => a == CheckPending
            case Admitted => a == Increment
            case Entered => a == Load
            case Loaded(_) => a == ConfirmSame
            case Confirmed(_, _) => a == ConfirmPresent
            case _ => true
  {
  }

  // the next step of a thread, taken in a state where userClient points to the registration
  lemma NextStep(states: seq<State>, steps: seq<(nat, Action)>, t: nat, m: nat, n: nat, client: nat, r: nat)
    requires IsRun(states, steps) && m < n < |steps| && Apart(steps, m, n, t) && steps[n].0 == t
    requires t < |states[m + 1].threads| && t < |states[m].threads| && Points(states[n], client, r)
    ensures t < |states[n].threads| && t < |states[n + 1].threads|
    ensures var th, th' := states[m + 1].threads[t], states[n + 1].threads[t];
            && (th == Seen && !states[n].pendingUnregistration ==> th' == Admitted)
            && (th == Admitted ==> th' == Entered)
            && (th == Entered ==> th' == Loaded(client))
            && (th == Loaded(client) ==> th' == Confirmed(client, r))
            && (th == Confirmed(client, r) ==> th' == Holding(client, r))
  {
    PointsMeans(states[n], client, r);
    hide *;
    Stands(states, steps, m, n, t);
    StepEnabled(states, steps, n);
    OnlyAction(states[n], t, steps[n].1);
    GoesTo(states[n], t, steps[n].1, client, r);
  }

  lemma PointsMeans(s: State, client: nat, r: nat)
    requires Points(s, client, r)
    ensures s.userClient.To?
  {
  }

  /** If userClient points to one registration at each step of a getUserClient and no unregistration is pending when the thread
      looks, the call returns that client. */
  lemma GetterSucceeds(states: seq<State>, steps: seq<(nat, Action)>, t: nat, at: seq<nat>, client: nat, r: nat)
    requires IsRun(states, steps) && NextSix(steps, t, at)
    requires |states| == |steps| + 1 && (forall i :: 0 <= i < 6 ==> Points(states[at[i]], client, r))
    requires !states[at[1]].pendingUnregistration
    ensures t < |states[at[5] + 1].threads| && states[at[5] + 1].threads[t] == Holding(client, r)
  {
    hide IsRun;
    hide Apart;
    StepEnabled(states, steps, at[0]);
    PointsMeans(states[at[0]], client, r);
    hide Points;
    GoesTo(states[at[0]], t, CheckClient, client, r);
    hide Apply;
    hide Enabled;
    NextStep(states, steps, t, at[0], at[1], client, r);
    NextStep(states, steps, t, at[1], at[2], client, r);
    NextStep(states, steps, t, at[2], at[3], client, r);
    NextStep(states, steps, t, at[3], at[4], client, r);
    NextStep(states, steps, t, at[4], at[5], client, r);
  }

  /** The steps of a registerUserClient that makes registration r. */
  ghost predicate RegistersAt(states: seq<State>, steps: seq<(nat, Action)>, t: nat, k: nat, n: nat, client: nat) {
    && k < n < |steps| && |states| == |steps| + 1 && Apart(steps, k, n, t)
    && steps[k] == (t, BeginRegister(client)) && steps[n] == (t, Install)
    && !states[k].pendingUnregistration && states[n].userClient.Null?
  }

  /** In every run, a registration goes through exactly if no unregistration was pending when it was checked and no client was
      registered at the compare-and-swap; userClient then points to the client. */
  lemma RegisterIff(states: seq<State>, steps: seq<(nat, Action)>, t: nat, n: nat, client: nat)
    requires IsRun(states, steps) && n < |steps| && steps[n].0 == t && t < |states[n].threads| && t < |states[n + 1].threads|
    ensures states[n].threads[t] == Registering(client) && states[n + 1].threads[t].Installed?
            <==> exists k: nat :: RegistersAt(states, steps, t, k, n, client)
    ensures (exists k: nat :: RegistersAt(states, steps, t, k, n, client)) ==>
              states[n + 1].threads[t] == Installed(|states[n].registrations|) && Points(states[n + 1], client, |states[n].registrations|)
  {
    hide *;
    StepEnabled(states, steps, n);
    CameFrom(states[n], t, steps[n].1);
    if states[n].threads[t] == Registering(client) && states[n + 1].threads[t].Installed? {
      var k := LastStep(states, steps, n, t);
      StepEnabled(states, steps, k);
      CameFrom(states[k], t, steps[k].1);
      RegistersBy(states, steps, t, k, n, client);
    }
    if k: nat :| RegistersAt(states, steps, t, k, n, client) {
      Registered(states, steps, t, k, n, client);
    }
  }

  lemma RegistersBy(states: seq<State>, steps: seq<(nat, Action)>, t: nat, k: nat, n: nat, client: nat)
    requires k < n < |steps| && |states| == |steps| + 1 && Apart(steps, k, n, t)
    requires steps[k] == (t, BeginRegister(client)) && steps[n] == (t, Install)
    requires !states[k].pendingUnregistration && states[n].userClient.Null?
    ensures RegistersAt(states, steps, t, k, n, client)
  {
  }

  lemma Registered(states: seq<State>, steps: seq<(nat, Action)>, t: nat, k: nat, n: nat, client: nat)
    requires IsRun(states, steps) && RegistersAt(states, steps, t, k, n, client)
    ensures t < |states[n].threads| && states[n].threads[t] == Registering(client)
    ensures t < |states[n + 1].threads| && states[n + 1].threads[t] == Installed(|states[n].registrations|)
    ensures Points(states[n + 1], client, |states[n].registrations|)
  {
    hide IsRun;
    hide Apart;
    StepEnabled(states, steps, k);
    StepEnabled(states, steps, n);
    hide Enabled;
    GoesTo(states[k], t, BeginRegister(client), client, 0);
    Stands(states, steps, k, n, t);
    GoesTo(states[n], t, Install, client, 0);
  }

  /** The steps of an unregisterUserClient that removes registration r of its client. */
  ghost predicate UnregistersAt(states: seq<State>, steps: seq<(nat, Action)>, t: nat, k: nat, m: nat, n: nat, client: nat, r: nat) {
    && k < m < n < |steps| && |states| == |steps| + 1 && Apart(steps, k, m, t) && Apart(steps, m, n, t)
    && steps[k] == (t, BeginUnregister(client)) && steps[m] == (t, MarkPending) && steps[n] == (t, Remove)
    && PointsSomewhere(states[k], client) && Points(states[n], client, r)
  }

  /** In every run, an unregistration removes a registration exactly if userClient pointed to its client at the first look and
      does so at the compare-and-swap; userClient is NULL then. */
  lemma UnregisterIff(states: seq<State>, steps: seq<(nat, Action)>, t: nat, n: nat, client: nat, r: nat)
    requires IsRun(states, steps) && n < |steps| && steps[n].0 == t && t < |states[n].threads| && t < |states[n + 1].threads|
    ensures states[n].threads[t] == Marked(client) && states[n + 1].threads[t] == Waiting(r)
            <==> exists k: nat, m: nat :: UnregistersAt(states, steps, t, k, m, n, client, r)
    ensures states[n + 1].threads[t].Waiting? && steps[n].1.Remove? ==> states[n + 1].userClient.Null?
  {
    hide *;
    StepEnabled(states, steps, n);
    CameFrom(states[n], t, steps[n].1);
    RemovesPointer(states[n], t, steps[n].1);
    if states[n].threads[t] == Marked(client) && states[n + 1].threads[t] == Waiting(r) {
      var m := LastStep(states, steps, n, t);
      StepEnabled(states, steps, m);
      CameFrom(states[m], t, steps[m].1);
      var k := LastStep(states, steps, m, t);
      StepEnabled(states, steps, k);
      CameFrom(states[k], t, steps[k].1);
      UnregistersBy(states, steps, t, k, m, n, client, r);
    }
    if k: nat, m: nat :| UnregistersAt(states, steps, t, k, m, n, client, r) {
      Unregistered(states, steps, t, k, m, n, client, r);
    }
  }

  lemma RemovesPointer(s: State, t: nat, a: Action)
    requires Enabled(s, t, a)
    ensures |Apply(s, t, a).threads| == |s.threads|
    ensures a == Remove && Apply(s, t, a).threads[t].Waiting? ==> Apply(s, t, a).userClient.Null?
  {
  }

  lemma UnregistersBy(states: seq<State>, steps: seq<(nat, Action)>, t: nat, k: nat, m: nat, n: nat, client: nat, r: nat)
    requires k < m < n < |steps| && |states| == |steps| + 1 && Apart(steps, k, m, t) && Apart(steps, m, n, t)
    requires steps[k] == (t, BeginUnregister(client)) && steps[m] == (t, MarkPending) && steps[n] == (t, Remove)
    requires PointsSomewhere(states[k], client) && Points(states[n], client, r)
    ensures UnregistersAt(states, steps, t, k, m, n, client, r)
  {
  }

  lemma Unregistered(states: seq<State>, steps: seq<(nat, Action)>, t: nat, k: nat, m: nat, n: nat, client: nat, r: nat)
    requires IsRun(states, steps) && UnregistersAt(states, steps, t, k, m, n, client, r)
    ensures t < |states[n].threads| && states[n].threads[t] == Marked(client)
    ensures t < |states[n + 1].threads| && states[n + 1].threads[t] == Waiting(r)
  {
    var q: nat :| Points(states[k], client, q);
    hide IsRun;
    hide Apart;
    hide Points;
    StepEnabled(states, steps, k);
    StepEnabled(states, steps, m);
    StepEnabled(states, steps, n);
    hide Enabled;
    hide Apply;
    GoesTo(states[k], t, BeginUnregister(client), client, q);
    Stands(states, steps, k, m, t);
    GoesTo(states[m], t, MarkPending, client, r);
    Stands(states, steps, m, n, t);
    GoesTo(states[n], t, Remove, client, r);
  }

  // ---------------------------------------------------------------- nothing is stuck

  /** These steps can be taken one after the other. */
  predicate Possible(s: State, more: seq<(nat, Action)>)
    decreases |more|
  {
    more == [] || (Enabled(s, more[0].0, more[0].1) && Possible(Apply(s, more[0].0, more[0].1), more[1..]))
  }

  function After(s: State, more: seq<(nat, Action)>): State
    requires Possible(s, more)
    decreases |more|
  {
    if more == [] then s else After(Apply(s, more[0].0, more[0].1), more[1..])
  }

  lemma FirstThen(s: State, t: nat, a: Action, rest: seq<(nat, Action)>)
    requires Enabled(s, t, a) && Possible(Apply(s, t, a), rest)
    ensures Possible(s, [(t, a)] + rest) && After(s, [(t, a)] + rest) == After(Apply(s, t, a), rest)
  {
    hide Enabled;
    hide Apply;
    assert ([(t, a)] + rest)[1..] == rest;
  }

  /** How many steps a thread inside has to go at most. */
  function ToGo(th: Thread): nat {
    if th.Entered? then 4 else if th.Loaded? then 3 else if th.Confirmed? then 2 else if Inside(th) then 1 else 0
  }

  function AllToGo(threads: seq<Thread>): nat {
    if threads == [] then 0 else ToGo(threads[0]) + AllToGo(threads[1..])
  }

  lemma {:induction false} AllToGoUpdate(threads: seq<Thread>, t: nat, th: Thread)
    requires t < |threads|
    ensures AllToGo(threads[t := th]) == AllToGo(threads) - ToGo(threads[t]) + ToGo(th)
  {
    if t > 0 {
      assert threads[t := th][1..] == threads[1..][t - 1 := th];
      AllToGoUpdate(threads[1..], t - 1, th);
    }
  }

  lemma {:induction false} SomebodyInside(threads: seq<Thread>)
    requires Invocations(threads) > 0
    ensures exists t :: 0 <= t < |threads| && Inside(threads[t])
  {
    if !Inside(threads[0]) {
      SomebodyInside(threads[1..]);
      var t :| 0 <= t < |threads[1..]| && Inside(threads[1..][t]);
      assert Inside(threads[t + 1]);
    }
  }

  /** The next step of a thread on its way out of getUserClient, or of the caller with its client. */
  function WayOut(th: Thread): Action {
    if th.Entered? then Load else if th.Loaded? then ConfirmSame else if th.Confirmed? then ConfirmPresent
    else if th.Backing? then Back else ReleaseUserClient
  }

  lemma GoesOut(s: State, t: nat)
    requires WellIndexed(s) && t < |s.threads| && Inside(s.threads[t])
    ensures Enabled(s, t, WayOut(s.threads[t]))
    ensures var s' := Apply(s, t, WayOut(s.threads[t]));
            && |s'.threads| == |s.threads| && ToGo(s'.threads[t]) < ToGo(s.threads[t])
            && s'.threads == s.threads[t := s'.threads[t]] && s'.registrations == s.registrations
  {
  }

  // the way back of the unregistration itself
  lemma LastThree(s: State, t: nat, r: nat) returns (more: seq<(nat, Action)>)
    requires t < |s.threads| && WellIndexed(s) && s.threads[t] == Waiting(r) && r < |s.registrations| && s.clientInvocations == 0
    ensures Possible(s, more) && more == [(t, Drain), (t, ReleaseClient), (t, Finish)]
    ensures var s' := After(s, more);
            && t < |s'.threads| && s'.threads[t].Idle? && !s'.pendingUnregistration
            && r < |s'.registrations| && s'.registrations[r].stage == Released
            && |s'.references| == |s.references|
            && (var c := s.registrations[r].client; s'.references[c] == s.references[c] - 1)
  {
    var s1 := Apply(s, t, Drain);
    var s2 := Apply(s1, t, ReleaseClient);
    var s3 := Apply(s2, t, Finish);
    assert Enabled(s2, t, Finish);
    assert s3.threads[t].Idle? && s3.registrations[r].stage == Released;
    hide Enabled;
    hide Apply;
    FirstThen(s2, t, Finish, []);
    FirstThen(s1, t, ReleaseClient, [(t, Finish)]);
    FirstThen(s, t, Drain, [(t, ReleaseClient), (t, Finish)]);
    more := [(t, Drain), (t, ReleaseClient), (t, Finish)];
    assert [(t, Drain)] + ([(t, ReleaseClient)] + [(t, Finish)]) == more;
  }

  /** From every reachable state, an unregistration that waits comes to its end, and the client's reference is given up, as soon as
      the threads inside have left; for that, each of them needs only steps of its own. */
  lemma {:induction false} UnregistrationCompletes(s: State, t: nat, r: nat) returns (more: seq<(nat, Action)>)
    requires Inv(s) && t < |s.threads| && s.threads[t] == Waiting(r)
    ensures Possible(s, more)
    ensures var s' := After(s, more);
            && t < |s'.threads| && s'.threads[t].Idle? && !s'.pendingUnregistration
            && r < |s'.registrations| && s'.registrations[r].stage == Released
    decreases AllToGo(s.threads)
  {
    InvWaiting(s, t, r);
    if Invocations(s.threads) == 0 {
      hide *;
      more := LastThree(s, t, r);
    } else {
      SomebodyInside(s.threads);
      var u :| 0 <= u < |s.threads| && Inside(s.threads[u]);
      var a := WayOut(s.threads[u]);
      GoesOut(s, u);
      AllToGoUpdate(s.threads, u, Apply(s, u, a).threads[u]);
      InvKeeps(s, u, a);
      hide *;
      more := UnregistrationCompletes(Apply(s, u, a), t, r);
      FirstThen(s, u, a, more);
      more := [(u, a)] + more;
    }
  }

  lemma InvWaiting(s: State, t: nat, r: nat)
    requires Inv(s) && t < |s.threads| && s.threads[t] == Waiting(r)
    ensures WellIndexed(s) && r < |s.registrations| && s.clientInvocations == Invocations(s.threads) && !Inside(s.threads[t])
  {
    assert Fits(s.registrations, s.threads[t]);
  }

  // ---------------------------------------------------------------- when the assertion of a failing getter holds

  /** unregisterUserClient has found its client and not returned. */
  predicate Unregistering(th: Thread) {
    th.Matched? || Flagging(th)
  }

  /** It has set pendingUnregistration and not reset it. */
  predicate Flagging(th: Thread) {
    th.Marked? || th.Failed? || th.Waiting? || th.Releasing? || th.Finishing?
  }

  predicate OneAtATime(threads: seq<Thread>) {
    forall i, j :: 0 <= i < j < |threads| ==> !(Unregistering(threads[i]) && Unregistering(threads[j]))
  }

  predicate SomeFlagging(threads: seq<Thread>) {
    exists i :: 0 <= i < |threads| && Flagging(threads[i])
  }

  lemma OnlyOne(threads: seq<Thread>, t: nat)
    requires OneAtATime(threads) && t < |threads| && Unregistering(threads[t])
    ensures forall i :: 0 <= i < |threads| && i != t ==> !Unregistering(threads[i])
  {
  }

  // a step raises the flag, takes it back or leaves it
  lemma FlagStep(s: State, t: nat, a: Action)
    requires Enabled(s, t, a)
    ensures var s' := Apply(s, t, a); var th, th' := s.threads[t], s'.threads[t];
            if a.MarkPending? then s'.pendingUnregistration && Flagging(th')
            else if a.ClearPending? || a.Finish? then !s'.pendingUnregistration && Flagging(th) && !Flagging(th')
            else s'.pendingUnregistration == s.pendingUnregistration && Flagging(th) == Flagging(th')
  {
  }

  lemma FlagKeeps(s: State, t: nat, a: Action)
    requires Enabled(s, t, a) && OneAtATime(s.threads) && (s.pendingUnregistration <==> SomeFlagging(s.threads))
    ensures Apply(s, t, a).pendingUnregistration <==> SomeFlagging(Apply(s, t, a).threads)
  {
    var s' := Apply(s, t, a);
    OneThread(s, t, a);
    FlagStep(s, t, a);
    hide Apply;
    hide Enabled;
    if a.ClearPending? || a.Finish? {
      OnlyOne(s.threads, t);
    } else {
      assert Flagging(s'.threads[t]) ==> SomeFlagging(s'.threads);
      if i :| 0 <= i < |s.threads| && Flagging(s.threads[i]) {
        assert Flagging(s'.threads[i]);
      }
    }
  }

  /** As long as unregistrations do not overlap, pendingUnregistration is set exactly while one is past setting it and has not
      ended: a getter that backs out finds its assertion true exactly if the unregistration it has met is still under way. */
  lemma {:induction false} PendingIff(states: seq<State>, steps: seq<(nat, Action)>)
    requires IsRun(states, steps) && forall k :: 0 <= k < |states| ==> OneAtATime(states[k].threads)
    ensures states[|steps|].pendingUnregistration <==> SomeFlagging(states[|steps|].threads)
    decreases |steps|
  {
    hide Apply;
    hide Enabled;
    if steps != [] {
      var n := |steps| - 1;
      PendingIff(states[..|steps|], steps[..n]);
      FlagKeeps(states[n], steps[n].0, steps[n].1);
    }
  }

  lemma Joined(a: seq<State>, s: seq<(nat, Action)>, b: seq<State>, t: seq<(nat, Action)>)
    returns (states: seq<State>, steps: seq<(nat, Action)>)
    requires Steps(a, s) && Steps(b, t) && |a| == |s| + 1 && |b| == |t| + 1 && a[|s|] == b[0]
    ensures Steps(states, steps) && |states| == |steps| + 1 && states[0] == a[0] && states[|steps|] == b[|t|]
  {
    hide Enabled;
    hide Apply;
    states, steps := a + b[1..], s + t;
  }

  // thread 1 registers client 0 and unregisters it again between the two looks of thread 0
  lemma RegisterFirst() returns (states: seq<State>, steps: seq<(nat, Action)>)
    ensures Steps(states, steps) && |steps| == 2 && |states| == 3
    ensures states[0] == State(Null, false, 0, [Idle, Idle], [], [0])
    ensures states[2] == State(To(0), false, 0, [Idle, Installed(0)], [Registration(0, true, false, Current)], [1])
  {
    var s := State(Null, false, 0, [Idle, Idle], [], [0]);
    states, steps :=
      [s, Apply(s, 1, BeginRegister(0)), Apply(Apply(s, 1, BeginRegister(0)), 1, Install)],
      [(1, BeginRegister(0)), (1, Install)];
  }

  lemma RegisterSecond() returns (states: seq<State>, steps: seq<(nat, Action)>)
    ensures Steps(states, steps) && |steps| == 2 && |states| == 3
    ensures states[0] == State(To(0), false, 0, [Idle, Installed(0)], [Registration(0, true, false, Current)], [1])
    ensures states[2] == State(To(0), false, 0, [Idle, Idle], [Registration(0, false, true, Current)], [1])
  {
    var s := State(To(0), false, 0, [Idle, Installed(0)], [Registration(0, true, false, Current)], [1]);
    states, steps :=
      [s, Apply(s, 1, Retain), Apply(Apply(s, 1, Retain), 1, DropOwn)],
      [(1, Retain), (1, DropOwn)];
  }

  lemma LookFirst() returns (states: seq<State>, steps: seq<(nat, Action)>)
    ensures Steps(states, steps) && |steps| == 2 && |states| == 3
    ensures states[0] == State(To(0), false, 0, [Idle, Idle], [Registration(0, false, true, Current)], [1])
    ensures states[2] == State(To(0), false, 0, [Admitted, Idle], [Registration(0, false, true, Current)], [1])
  {
    var s := State(To(0), false, 0, [Idle, Idle], [Registration(0, false, true, Current)], [1]);
    states, steps :=
      [s, Apply(s, 0, CheckClient), Apply(Apply(s, 0, CheckClient), 0, CheckPending)],
      [(0, CheckClient), (0, CheckPending)];
  }

  lemma UnregisterFirst() returns (states: seq<State>, steps: seq<(nat, Action)>)
    ensures Steps(states, steps) && |steps| == 2 && |states| == 3
    ensures states[0] == State(To(0), false, 0, [Admitted, Idle], [Registration(0, false, true, Current)], [1])
    ensures states[2] == State(To(0), true, 0, [Admitted, Marked(0)], [Registration(0, false, true, Current)], [1])
  {
    var s := State(To(0), false, 0, [Admitted, Idle], [Registration(0, false, true, Current)], [1]);
    states, steps :=
      [s, Apply(s, 1, BeginUnregister(0)), Apply(Apply(s, 1, BeginUnregister(0)), 1, MarkPending)],
      [(1, BeginUnregister(0)), (1, MarkPending)];
  }

  lemma UnregisterSecond() returns (states: seq<State>, steps: seq<(nat, Action)>)
    ensures Steps(states, steps) && |steps| == 2 && |states| == 3
    ensures states[0] == State(To(0), true, 0, [Admitted, Marked(0)], [Registration(0, false, true, Current)], [1])
    ensures states[2] == State(Null, true, 0, [Admitted, Releasing(0)], [Registration(0, false, true, Drained)], [1])
  {
    var s := State(To(0), true, 0, [Admitted, Marked(0)], [Registration(0, false, true, Current)], [1]);
    states, steps :=
      [s, Apply(s, 1, Remove), Apply(Apply(s, 1, Remove), 1, Drain)],
      [(1, Remove), (1, Drain)];
  }

  lemma UnregisterThird() returns (states: seq<State>, steps: seq<(nat, Action)>)
    ensures Steps(states, steps) && |steps| == 2 && |states| == 3
    ensures states[0] == State(Null, true, 0, [Admitted, Releasing(0)], [Registration(0, false, true, Drained)], [1])
    ensures states[2] == State(Null, false, 0, [Admitted, Idle], [Registration(0, false, true, Released)], [0])
  {
    var s := State(Null, true, 0, [Admitted, Releasing(0)], [Registration(0, false, true, Drained)], [1]);
    states, steps :=
      [s, Apply(s, 1, ReleaseClient), Apply(Apply(s, 1, ReleaseClient), 1, Finish)],
      [(1, ReleaseClient), (1, Finish)];
  }

  lemma LookSecond() returns (states: seq<State>, steps: seq<(nat, Action)>)
    ensures Steps(states, steps) && |steps| == 2 && |states| == 3
    ensures states[0] == State(Null, false, 0, [Admitted, Idle], [Registration(0, false, true, Released)], [0])
    ensures states[2] == State(Null, false, 1, [Backing, Idle], [Registration(0, false, true, Released)], [0])
  {
    var s := State(Null, false, 0, [Admitted, Idle], [Registration(0, false, true, Released)], [0]);
    states, steps :=
      [s, Apply(s, 0, Increment), Apply(Apply(s, 0, Increment), 0, Load)],
      [(0, Increment), (0, Load)];
  }

  /** A getter that finds no client may find no unregistration pending either, contrary to the assertion on its way out:
      a whole unregistration fits between its two looks at the client. */
  lemma NoUnregistrationPending() returns (states: seq<State>, steps: seq<(nat, Action)>)
    ensures IsRun(states, steps)
    ensures var s := states[|steps|]; s.threads == [Backing, Idle] && !s.pendingUnregistration
  {
    states, steps := RegisterFirst();
    assert Initial(states[0]);
    hide *;
    var more, next := RegisterSecond();
    states, steps := Joined(states, steps, more, next);
    more, next := LookFirst();
    states, steps := Joined(states, steps, more, next);
    more, next := UnregisterFirst();
    states, steps := Joined(states, steps, more, next);
    more, next := UnregisterSecond();
    states, steps := Joined(states, steps, more, next);
    more, next := UnregisterThird();
    states, steps := Joined(states, steps, more, next);
    more, next := LookSecond();
    states, steps := Joined(states, steps, more, next);
    StepsRun(states, steps);
  }

  // threads 1 and 2 unregister client 0 at the same time
  lemma ThreeRegister() returns (states: seq<State>, steps: seq<(nat, Action)>)
    ensures Steps(states, steps) && |steps| == 2 && |states| == 3
    ensures states[0] == State(Null, false, 0, [Idle, Idle, Idle], [], [0])
    ensures states[2] == State(To(0), false, 0, [Idle, Installed(0), Idle], [Registration(0, true, false, Current)], [1])
  {
    var s := State(Null, false, 0, [Idle, Idle, Idle], [], [0]);
    states, steps :=
      [s, Apply(s, 1, BeginRegister(0)), Apply(Apply(s, 1, BeginRegister(0)), 1, Install)],
      [(1, BeginRegister(0)), (1, Install)];
  }

  lemma ThreeRegistered() returns (states: seq<State>, steps: seq<(nat, Action)>)
    ensures Steps(states, steps) && |steps| == 2 && |states| == 3
    ensures states[0] == State(To(0), false, 0, [Idle, Installed(0), Idle], [Registration(0, true, false, Current)], [1])
    ensures states[2] == State(To(0), false, 0, [Idle, Idle, Idle], [Registration(0, false, true, Current)], [1])
  {
    var s := State(To(0), false, 0, [Idle, Installed(0), Idle], [Registration(0, true, false, Current)], [1]);
    states, steps :=
      [s, Apply(s, 1, Retain), Apply(Apply(s, 1, Retain), 1, DropOwn)],
      [(1, Retain), (1, DropOwn)];
  }

  lemma ThreeLook() returns (states: seq<State>, steps: seq<(nat, Action)>)
    ensures Steps(states, steps) && |steps| == 2 && |states| == 3
    ensures states[0] == State(To(0), false, 0, [Idle, Idle, Idle], [Registration(0, false, true, Current)], [1])
    ensures states[2] == State(To(0), false, 0, [Admitted, Idle, Idle], [Registration(0, false, true, Current)], [1])
  {
    var s := State(To(0), false, 0, [Idle, Idle, Idle], [Registration(0, false, true, Current)], [1]);
    states, steps :=
      [s, Apply(s, 0, CheckClient), Apply(Apply(s, 0, CheckClient), 0, CheckPending)],
      [(0, CheckClient), (0, CheckPending)];
  }

  lemma ThreeMatch() returns (states: seq<State>, steps: seq<(nat, Action)>)
    ensures Steps(states, steps) && |steps| == 2 && |states| == 3
    ensures states[0] == State(To(0), false, 0, [Admitted, Idle, Idle], [Registration(0, false, true, Current)], [1])
    ensures states[2] == State(To(0), false, 0, [Admitted, Matched(0), Matched(0)], [Registration(0, false, true, Current)], [1])
  {
    var s := State(To(0), false, 0, [Admitted, Idle, Idle], [Registration(0, false, true, Current)], [1]);
    states, steps :=
      [s, Apply(s, 1, BeginUnregister(0)), Apply(Apply(s, 1, BeginUnregister(0)), 2, BeginUnregister(0))],
      [(1, BeginUnregister(0)), (2, BeginUnregister(0))];
  }

  lemma ThreeMark() returns (states: seq<State>, steps: seq<(nat, Action)>)
    ensures Steps(states, steps) && |steps| == 2 && |states| == 3
    ensures states[0] == State(To(0), false, 0, [Admitted, Matched(0), Matched(0)], [Registration(0, false, true, Current)], [1])
    ensures states[2] == State(To(0), true, 0, [Admitted, Marked(0), Marked(0)], [Registration(0, false, true, Current)], [1])
  {
    var s := State(To(0), false, 0, [Admitted, Matched(0), Matched(0)], [Registration(0, false, true, Current)], [1]);
    states, steps :=
      [s, Apply(s, 1, MarkPending), Apply(Apply(s, 1, MarkPending), 2, MarkPending)],
      [(1, MarkPending), (2, MarkPending)];
  }

  lemma ThreeRemove() returns (states: seq<State>, steps: seq<(nat, Action)>)
    ensures Steps(states, steps) && |steps| == 2 && |states| == 3
    ensures states[0] == State(To(0), true, 0, [Admitted, Marked(0), Marked(0)], [Registration(0, false, true, Current)], [1])
    ensures states[2] == State(Null, true, 0, [Admitted, Waiting(0), Failed], [Registration(0, false, true, Removed)], [1])
  {
    var s := State(To(0), true, 0, [Admitted, Marked(0), Marked(0)], [Registration(0, false, true, Current)], [1]);
    states, steps :=
      [s, Apply(s, 1, Remove), Apply(Apply(s, 1, Remove), 2, Remove)],
      [(1, Remove), (2, Remove)];
  }

  lemma ThreeClear() returns (states: seq<State>, steps: seq<(nat, Action)>)
    ensures Steps(states, steps) && |steps| == 2 && |states| == 3
    ensures states[0] == State(Null, true, 0, [Admitted, Waiting(0), Failed], [Registration(0, false, true, Removed)], [1])
    ensures states[2] == State(Null, false, 1, [Entered, Waiting(0), Idle], [Registration(0, false, true, Removed)], [1])
  {
    var s := State(Null, true, 0, [Admitted, Waiting(0), Failed], [Registration(0, false, true, Removed)], [1]);
    states, steps :=
      [s, Apply(s, 2, ClearPending), Apply(Apply(s, 2, ClearPending), 0, Increment)],
      [(2, ClearPending), (0, Increment)];
  }

  lemma LastLoad(s: State)
    requires s == State(Null, false, 1, [Entered, Waiting(0), Idle], [Registration(0, false, true, Removed)], [1])
    ensures Enabled(s, 0, Load) && Apply(s, 0, Load) == State(Null, false, 1, [Backing, Waiting(0), Idle], [Registration(0, false, true, Removed)], [1])
  {
  }

  /** Nor while one is under way: of two overlapping unregistrations of one client the loser takes the flag back while the
      winner still waits. */
  lemma OverlappingUnregistrations() returns (states: seq<State>, steps: seq<(nat, Action)>)
    ensures IsRun(states, steps)
    ensures var s := states[|steps|]; s.threads == [Backing, Waiting(0), Idle] && !s.pendingUnregistration
  {
    states, steps := ThreeRegister();
    assert Initial(states[0]);
    hide *;
    var more, next := ThreeRegistered();
    states, steps := Joined(states, steps, more, next);
    more, next := ThreeLook();
    states, steps := Joined(states, steps, more, next);
    more, next := ThreeMatch();
    states, steps := Joined(states, steps, more, next);
    more, next := ThreeMark();
    states, steps := Joined(states, steps, more, next);
    more, next := ThreeRemove();
    states, steps := Joined(states, steps, more, next);
    more, next := ThreeClear();
    states, steps := Joined(states, steps, more, next);
    LastLoad(states[|steps|]);
    more, next := OneStep(states[|steps|], 0, Load);
    states, steps := Joined(states, steps, more, next);
    StepsRun(states, steps);
  }

  lemma OneStep(s: State, t: nat, a: Action) returns (states: seq<State>, steps: seq<(nat, Action)>)
    requires Enabled(s, t, a)
    ensures Steps(states, steps) && |steps| == 1 && |states| == 2 && states[0] == s && states[1] == Apply(s, t, a)
  {
    hide Enabled;
    hide Apply;
    states, steps :=
      [s, Apply(s, t, a)],
      [(t, a)];
  }

  lemma StepsRun(states: seq<State>, steps: seq<(nat, Action)>)
    requires Steps(states, steps) && |states| == |steps| + 1 && Initial(states[0])
    ensures IsRun(states, steps)
  {
  }
}

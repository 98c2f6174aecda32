/**
 The lock that keeps a socket from being detached: acquireDetachingLock, releaseDetachingLock and
 acquireDetachingLockForRemoval as interleaved atomic steps of any number of threads.
 */
module DetachingLock {
  datatype Thread =
    | Idle
    | Trying                  // about to read lockCount
    | Loaded(oldCount: int)   // about to compare and swap
    | Holding
    | Removing                // has given up the socket's own count and waits
    | Removed                 // acquireDetachingLockForRemoval has returned

  /** detached: acquireDetachingLockForRemoval has been called; this may happen only once. */
  datatype State = State(lockCount: int, detached: bool, threads: seq<Thread>)

  datatype Action = Begin | Load | Swap | Release | BeginRemoval | EndRemoval

  predicate Enabled(s: State, t: nat, a: Action) {
    t < |s.threads| &&
    match a
    case Begin => s.threads[t].Idle?
    case Load => s.threads[t].Trying?
    case Swap => s.threads[t].Loaded?
    case Release => s.threads[t].Holding?
    case BeginRemoval => s.threads[t].Idle? && !s.detached
    case EndRemoval => s.threads[t].Removing? && s.lockCount == 0
  }

  function Goto(s: State, t: nat, th: Thread): State
    requires t < |s.threads|
  {
    s.(threads := s.threads[t := th])
  }

  function Apply(s: State, t: nat, a: Action): State
    requires Enabled(s, t, a)
  {
    match a
    case Begin => Goto(s, t, Trying)
    case Load => Goto(s, t, Loaded(s.lockCount))
    case Swap =>
      var oldCount := s.threads[t].oldCount;
      if oldCount == 0 then Goto(s, t, Idle)
      else if s.lockCount == oldCount then Goto(s, t, Holding).(lockCount := oldCount + 1)
      else Goto(s, t, Trying)
    case Release => Goto(s, t, Idle).(lockCount := s.lockCount - 1)
    case BeginRemoval => Goto(s, t, Removing).(lockCount := s.lockCount - 1, detached := true)
    case EndRemoval => Goto(s, t, Removed)
  }

  function Holders(threads: seq<Thread>): nat {
    if threads == [] then 0 else (if threads[0].Holding? then 1 else 0) + Holders(threads[1..])
  }

  ghost predicate Inv(s: State) {
    && s.lockCount == Holders(s.threads) + (if s.detached then 0 else 1)
    && (forall i :: 0 <= i < |s.threads| && (s.threads[i].Removing? || s.threads[i].Removed?) ==> s.detached)
    && (forall i :: 0 <= i < |s.threads| && s.threads[i].Removed? ==> s.lockCount == 0)
  }

  predicate Steps(states: seq<State>, steps: seq<(nat, Action)>) {
    && |states| == |steps| + 1
    && forall i :: 0 <= i < |steps| ==>
         Enabled(states[i], steps[i].0, steps[i].1) && states[i + 1] == Apply(states[i], steps[i].0, steps[i].1)
  }

  predicate Initial(s: State) {
    s.lockCount == 1 && !s.detached && forall i :: 0 <= i < |s.threads| ==> s.threads[i] == Idle
  }

  predicate IsRun(states: seq<State>, steps: seq<(nat, Action)>) {
    Steps(states, steps) && Initial(states[0])
  }

  lemma {:induction false} HoldersUpdate(threads: seq<Thread>, t: nat, th: Thread)
    requires t < |threads|
    ensures Holders(threads[t := th]) == Holders(threads) - (if threads[t].Holding? then 1 else 0) + if th.Holding? then 1 else 0
  {
    if t > 0 {
      assert threads[t := th][1..] == threads[1..][t - 1 := th];
      HoldersUpdate(threads[1..], t - 1, th);
    }
  }

  lemma {:induction false} NoHolders(threads: seq<Thread>)
    ensures Holders(threads) == 0 <==> Holding !in threads
  {
    if threads != [] {
      NoHolders(threads[1..]);
      assert Holding in threads <==> threads[0] == Holding || Holding in threads[1..];
    }
  }

  /** A step from zero leaves the count at zero: a compare-and-swap that expects another value fails. */
  lemma InvKeeps(s: State, t: nat, a: Action)
    requires Inv(s) && Enabled(s, t, a)
    ensures Inv(Apply(s, t, a))
    ensures s.lockCount == 0 ==> Apply(s, t, a).lockCount == 0
  {
    hide Holders;
    var s' := Apply(s, t, a);
    HoldersUpdate(s.threads, t, s'.threads[t]);
    assert s'.threads == s.threads[t := s'.threads[t]];
    NoHolders(s.threads);
    assert s.threads[t].Holding? ==> s.threads[t] in s.threads;
  }

  lemma {:induction false} RunInv(states: seq<State>, steps: seq<(nat, Action)>)
    requires IsRun(states, steps)
    ensures Inv(states[|steps|])
    decreases |steps|
  {
    if steps == [] {
      NoHolders(states[0].threads);
    } else {
      var n := |steps| - 1;
      RunInv(states[..|steps|], steps[..n]);
      hide Inv;
      hide Apply;
      hide Enabled;
      InvKeeps(states[n], steps[n].0, steps[n].1);
    }
  }

  /** lockCount is the number of holders, plus one while the socket has not been detached. */
  lemma CountIsHolders(states: seq<State>, steps: seq<(nat, Action)>)
    requires IsRun(states, steps)
    ensures var s := states[|steps|]; s.lockCount == Holders(s.threads) + if s.detached then 0 else 1
  {
    hide Steps;
    RunInv(states, steps);
  }

  lemma {:induction false} ZeroStays(states: seq<State>, steps: seq<(nat, Action)>, k: nat, n: nat)
    requires IsRun(states, steps) && k <= n <= |steps| && states[k].lockCount == 0
    ensures Inv(states[n]) && states[n].lockCount == 0
    decreases n
  {
    hide Inv;
    hide Apply;
    hide Enabled;
    assert IsRun(states[..n + 1], steps[..n]);
    RunInv(states[..n + 1], steps[..n]);
    if k < n {
      ZeroStays(states, steps, k, n - 1);
      InvKeeps(states[n - 1], steps[n - 1].0, steps[n - 1].1);
    }
  }

  /** Once acquireDetachingLockForRemoval has returned, nobody holds the lock, then or ever after. */
  lemma RemovalIsFinal(states: seq<State>, steps: seq<(nat, Action)>, k: nat, n: nat)
    requires IsRun(states, steps) && k <= n <= |steps| && Removed in states[k].threads
    ensures states[n].lockCount == 0 && Holding !in states[n].threads
  {
    assert IsRun(states[..k + 1], steps[..k]) by {
      hide Apply;
      hide Enabled;
    }
    RunInv(states[..k + 1], steps[..k]);
    hide Steps;
    var i :| 0 <= i < |states[k].threads| && states[k].threads[i] == Removed;
    ZeroStays(states, steps, k, n);
    NoHolders(states[n].threads);
  }

  /** The thread that detaches the socket is let through exactly when the last holder has left. */
  lemma RemovalWaitsForHolders(states: seq<State>, steps: seq<(nat, Action)>, t: nat)
    requires IsRun(states, steps) && t < |states[|steps|].threads| && states[|steps|].threads[t] == Removing
    ensures Enabled(states[|steps|], t, EndRemoval) <==> Holding !in states[|steps|].threads
  {
    var s := states[|steps|];
    hide Steps;
    RunInv(states, steps);
    NoHolders(s.threads);
  }

  // ---------------------------------------------------------------- what an acquisition answers

  /** Of the steps between m and n none is thread t's. */
  predicate Apart(steps: seq<(nat, Action)>, m: nat, n: nat, t: nat) {
    n <= |steps| && forall j :: m < j < n ==> steps[j].0 != t
  }

  // the threads that do not move stay where they are
  lemma OthersStay(s: State, t: nat, a: Action, u: nat)
    requires Enabled(s, t, a) && u < |s.threads|
    ensures |Apply(s, t, a).threads| == |s.threads|
    ensures u != t ==> Apply(s, t, a).threads[u] == s.threads[u]
    ensures u == t && Apply(s, t, a).threads[u].Loaded? ==> a == Load && Apply(s, t, a).threads[u].oldCount == s.lockCount
    ensures u == t && a == Load ==> Apply(s, t, a).threads[u] == Loaded(s.lockCount)
  {
  }

  /** A thread about to compare and swap has read lockCount in its last step. */
  lemma {:induction false} LastLoad(states: seq<State>, steps: seq<(nat, Action)>, n: nat, t: nat) returns (m: nat)
    requires IsRun(states, steps) && n <= |steps| && t < |states[n].threads| && states[n].threads[t].Loaded?
    ensures m < n && steps[m] == (t, Load) && Apart(steps, m, n, t)
    ensures states[m].lockCount == states[n].threads[t].oldCount
    decreases n
  {
    hide Apply;
    hide Enabled;
    m := n - 1;
    var s, u, a := states[m], steps[m].0, steps[m].1;
    SameThreads(states, steps, m);
    OthersStay(s, u, a, t);
    if u != t {
      m := LastLoad(states, steps, n - 1, t);
    }
  }

  lemma SameThreads(states: seq<State>, steps: seq<(nat, Action)>, n: nat)
    requires Steps(states, steps) && n < |steps|
    ensures |states[n + 1].threads| == |states[n].threads|
  {
  }

  /** What becomes of an acquisition, by its last look at lockCount: it is refused exactly if by then the socket was being
      detached and nobody held the lock any more; it succeeds, and counts, exactly if the count was not zero and is still the
      same; otherwise the thread looks again. */
  lemma SwapIff(states: seq<State>, steps: seq<(nat, Action)>, n: nat, t: nat) returns (m: nat)
    requires IsRun(states, steps) && n < |steps| && steps[n] == (t, Swap)
    ensures m < n && steps[m] == (t, Load) && Apart(steps, m, n, t) && t < |states[n + 1].threads|
    ensures var th := states[n + 1].threads[t];
            && (th == Idle <==> states[m].detached && Holding !in states[m].threads)
            && (th == Holding <==>
                  (!states[m].detached || Holding in states[m].threads) && states[n].lockCount == states[m].lockCount)
            && (th == Idle || th == Holding || th == Trying)
            && states[n + 1].lockCount == states[n].lockCount + if th == Holding then 1 else 0
  {
    SameThreads(states, steps, n);
    m := LastLoad(states, steps, n, t);
    assert IsRun(states[..m + 1], steps[..m]) by {
      hide Apply;
      hide Enabled;
    }
    RunInv(states[..m + 1], steps[..m]);
    NoHolders(states[m].threads);
    hide Holders;
  }

  // ---------------------------------------------------------------- nothing is stuck

  /** These steps can be taken one after the other. */
  predicate Possible(s: State, more: seq<(nat, Action)>)
    decreases |more|
  {
    more == [] || (Enabled(s, more[0].0, more[0].1) && Possible(Apply(s, more[0].0, more[0].1), more[1..]))
  }

  function After(s: State, more: seq<(nat, Action)>): State
    requires Possible(s, more)
    decreases |more|
  {
    if more == [] then s else After(Apply(s, more[0].0, more[0].1), more[1..])
  }

  lemma FirstThen(s: State, t: nat, a: Action, rest: seq<(nat, Action)>)
    requires Enabled(s, t, a) && Possible(Apply(s, t, a), rest)
    ensures Possible(s, [(t, a)] + rest) && After(s, [(t, a)] + rest) == After(Apply(s, t, a), rest)
  {
    hide Enabled;
    hide Apply;
    assert ([(t, a)] + rest)[1..] == rest;
  }

  /** From every reachable state, a detach that waits for the lock comes to its end as soon as the holders have released it: nobody
      else has to do anything. */
  lemma {:induction false} RemovalCompletes(s: State, t: nat) returns (more: seq<(nat, Action)>)
    requires Inv(s) && t < |s.threads| && s.threads[t].Removing?
    ensures Possible(s, more) && t < |After(s, more).threads| && After(s, more).threads[t].Removed?
    ensures forall e :: e in more ==> e.1 == Release || e == (t, EndRemoval)
    decreases Holders(s.threads)
  {
    NoHolders(s.threads);
    var u, a := t, EndRemoval;
    more := [];
    if Holding in s.threads {
      u :| 0 <= u < |s.threads| && s.threads[u] == Holding;
      a := Release;
      HoldersUpdate(s.threads, u, Idle);
      InvKeeps(s, u, a);
      more := RemovalCompletes(Apply(s, u, a), t);
    }
    FirstThen(s, u, a, more);
    more := [(u, a)] + more;
  }

  /** A thread that is not interrupted gets the lock exactly if lockCount is not zero, and giving it back restores everything. */
  lemma AcquireAlone(s: State, t: nat)
    requires t < |s.threads| && s.threads[t].Idle?
    ensures var call := [(t, Begin), (t, Load), (t, Swap)];
            && Possible(s, call)
            && (s.lockCount == 0 ==> After(s, call) == s)
            && (s.lockCount != 0 ==> After(s, call) == Goto(s, t, Holding).(lockCount := s.lockCount + 1))
    ensures s.lockCount != 0 ==> Possible(s, [(t, Begin), (t, Load), (t, Swap), (t, Release)])
                                 && After(s, [(t, Begin), (t, Load), (t, Swap), (t, Release)]) == s
  {
    var s1 := Apply(s, t, Begin);
    var s2 := Apply(s1, t, Load);
    var s3 := Apply(s2, t, Swap);
    assert s2 == Goto(s, t, Loaded(s.lockCount));
    assert s.lockCount == 0 ==> s3 == s;
    assert s.lockCount != 0 ==> s3 == Goto(s, t, Holding).(lockCount := s.lockCount + 1) && Apply(s3, t, Release) == s;
    Thrice(s, t);
  }

  lemma Thrice(s: State, t: nat)
    requires t < |s.threads| && s.threads[t].Idle?
    ensures var s3 := Apply(Apply(Apply(s, t, Begin), t, Load), t, Swap);
            && Possible(s, [(t, Begin), (t, Load), (t, Swap)]) && After(s, [(t, Begin), (t, Load), (t, Swap)]) == s3
            && (s3.threads[t].Holding? ==>
                  && Possible(s, [(t, Begin), (t, Load), (t, Swap), (t, Release)])
                  && After(s, [(t, Begin), (t, Load), (t, Swap), (t, Release)]) == Apply(s3, t, Release))
  {
    var s1 := Apply(s, t, Begin);
    var s2 := Apply(s1, t, Load);
    var s3 := Apply(s2, t, Swap);
    assert Enabled(s, t, Begin) && Enabled(s1, t, Load) && Enabled(s2, t, Swap);
    assert s3.threads[t].Holding? ==> Enabled(s3, t, Release);
    hide Enabled;
    hide Apply;
    FirstThen(s2, t, Swap, []);
    FirstThen(s1, t, Load, [(t, Swap)]);
    FirstThen(s, t, Begin, [(t, Load), (t, Swap)]);
    assert [(t, Begin)] + [(t, Load), (t, Swap)] == [(t, Begin), (t, Load), (t, Swap)];
    if s3.threads[t].Holding? {
      FirstThen(s3, t, Release, []);
      FirstThen(s2, t, Swap, [(t, Release)]);
      FirstThen(s1, t, Load, [(t, Swap), (t, Release)]);
      FirstThen(s, t, Begin, [(t, Load), (t, Swap), (t, Release)]);
      assert [(t, Begin)] + [(t, Load), (t, Swap), (t, Release)] == [(t, Begin), (t, Load), (t, Swap), (t, Release)];
    }
  }
}

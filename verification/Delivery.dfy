/**
 Delivery of postponed reports to the client: DeliverWaitingNotifications and the release of buffers that calls it
 again. Buffers and client are outside, so every outcome is possible.
 */
module Delivery {
  import opened FreeBuffers
  import opened IndexLists
  import opened PendingQueue

  /** One attempt to report a packet, with the contents of the buffer array after it: too few buffers (the array keeps
      the indices that were given back already), the client not notified, or the client notified. */
  datatype Result = NotEnough(buffers: seq<nat>) | Unnotified(buffers: seq<nat>) | Notified(buffers: seq<nat>)

  function Attempts(results: seq<Result>, clock: seq<nat>): (a: seq<Attempt>)
    requires |results| == |clock|
    ensures |a| == |results| && forall i :: 0 <= i < |a| ==> a[i] == Attempt(!results[i].Notified?, clock[i])
  {
    seq(|results|, i requires 0 <= i < |results| => Attempt(!results[i].Notified?, clock[i]))
  }

  // ---------------------------------------------------------------- what a pass tries

  /** The unreported packets among the first n, by position. */
  function Unreported(q: seq<Packet>, n: nat): (u: seq<nat>)
    requires n <= |q|
    ensures forall k :: 0 <= k < |u| ==> u[k] < n
  {
    if n == 0 then [] else Unreported(q, n - 1) + if q[n - 1].needToBeReported then [n - 1] else []
  }

  lemma {:induction false} UnreportedAre(q: seq<Packet>, n: nat)
    requires n <= |q|
    ensures var u := Unreported(q, n);
            && (forall k :: 0 <= k < |u| ==> u[k] < n && q[u[k]].needToBeReported)
            && (forall k, l :: 0 <= k < l < |u| ==> u[k] < u[l])
            && (forall i :: 0 <= i < n && q[i].needToBeReported ==> i in u)
  {
    if n > 0 {
      UnreportedAre(q, n - 1);
    }
  }

  /** How many packets a pass looks at: the one it stops at is the last. */
  function Reached(q: seq<Packet>, attempts: seq<Attempt>): (n: nat)
    requires |attempts| >= |q|
    ensures n <= |q|
  {
    if Done(q, attempts) < |q| then Done(q, attempts) + 1 else |q|
  }

  /** The results of the attempts on the first n packets, in order. */
  function Tried(q: seq<Packet>, results: seq<Result>, n: nat): (tried: seq<Result>)
    requires n <= |q| && n <= |results|
    ensures |tried| == |Unreported(q, n)|
    ensures forall k :: 0 <= k < |tried| ==> Unreported(q, n)[k] < n && tried[k] == results[Unreported(q, n)[k]]
  {
    var u := Unreported(q, n);
    seq(|u|, k requires 0 <= k < |u| => results[u[k]])
  }

  /** What a pass over the queue tries, given what its attempts would come to and when they look at the clock. */
  function PassTries(q: seq<Packet>, results: seq<Result>, clock: seq<nat>): seq<Result>
    requires |results| == |clock| == |q|
  {
    Tried(q, results, Reached(q, Attempts(results, clock)))
  }

  function Last(tried: seq<Result>): Result
    requires tried != []
  {
    tried[|tried| - 1]
  }

  /** The last attempt of a pass failed. */
  predicate Failed(tried: seq<Result>) {
    tried != [] && !Last(tried).Notified?
  }

  ghost predicate SomeUnnotified(tried: seq<Result>) {
    exists i :: 0 <= i < |tried| && tried[i].Unnotified?
  }

  // ---------------------------------------------------------------- what it releases

  /** The buffers a pass releases when it is over: at most one array, the last one. */
  ghost function Released(tried: seq<Result>): seq<nat> {
    if SomeUnnotified(tried) then Last(tried).buffers else []
  }

  /** The buffers it would have to release: those filled for reports that did not reach the client. */
  function Owed(tried: seq<Result>): seq<nat> {
    if tried == [] then []
    else Owed(tried[..|tried| - 1]) + if Last(tried).Unnotified? then Last(tried).buffers else []
  }

  /** The pass gives back what it owes, and it has something to release only if it ended with a failure, as the source
      asserts in front of the release. */
  ghost predicate Orderly(tried: seq<Result>) {
    Released(tried) == Owed(tried) && (SomeUnnotified(tried) ==> Failed(tried))
  }

  /** No unreported packet but the last one is past its deadline when the pass looks at it. */
  predicate Timely(q: seq<Packet>, clock: seq<nat>)
    requires |clock| >= |q|
  {
    forall i, j :: 0 <= i < j < |q| && q[i].needToBeReported && q[j].needToBeReported ==> !Expired(q[i], clock[i])
  }

  /** A packet with data takes buffers, one without takes none. */
  predicate Plausible(p: Packet, r: Result) {
    !r.NotEnough? ==> (r.buffers == [] <==> p.dataLength == 0)
  }

  /** The buffers of a failed report stay acquired, so no later array can hold them. */
  ghost predicate StayAcquired(tried: seq<Result>) {
    forall i, j, x :: 0 <= i < j < |tried| && tried[i].Unnotified? && x in tried[i].buffers ==> x !in tried[j].buffers
  }

  ghost predicate Possible(q: seq<Packet>, results: seq<Result>, clock: seq<nat>)
    requires |clock| == |q|
  {
    && |results| == |q| && (forall i :: 0 <= i < |q| ==> Plausible(q[i], results[i]))
    && StayAcquired(PassTries(q, results, clock))
  }

  lemma {:induction false} OwedNothing(tried: seq<Result>)
    requires forall i :: 0 <= i < |tried| ==> !tried[i].Unnotified?
    ensures Owed(tried) == []
  {
    if tried != [] {
      OwedNothing(tried[..|tried| - 1]);
    }
  }

  /** In a timely queue every attempt but the last reaches the client. */
  lemma TimelyReaches(q: seq<Packet>, results: seq<Result>, clock: seq<nat>)
    requires |results| == |clock| == |q| && Timely(q, clock)
    ensures var tried := PassTries(q, results, clock); forall k :: 0 <= k < |tried| - 1 ==> tried[k].Notified?
  {
    hide Unreported;
    var attempts := Attempts(results, clock);
    var n := Reached(q, attempts);
    var u, tried := Unreported(q, n), PassTries(q, results, clock);
    UnreportedAre(q, n);
    forall k | 0 <= k < |tried| - 1 ensures tried[k].Notified? {
      var i, j := u[k], u[|u| - 1];
      assert i < j < n && q[i].needToBeReported && q[j].needToBeReported;
      assert !Stops(q[i], attempts[i]) && !Expired(q[i], clock[i]);
    }
  }

  lemma TimelyIsOrderly(q: seq<Packet>, results: seq<Result>, clock: seq<nat>)
    requires |results| == |clock| == |q| && Timely(q, clock)
    ensures Orderly(PassTries(q, results, clock))
  {
    TimelyReaches(q, results, clock);
    hide PassTries;
    var tried := PassTries(q, results, clock);
    if tried != [] {
      OwedNothing(tried[..|tried| - 1]);
      if Last(tried).Unnotified? {
        assert tried[|tried| - 1].Unnotified?;
      }
    }
  }

  /** The run in which only the report of packet i fails to reach the client. */
  function OnlyFailure(q: seq<Packet>, i: nat): (results: seq<Result>)
    ensures |results| == |q|
  {
    seq(|q|, k requires 0 <= k < |q| =>
      var buffers := if q[k].dataLength == 0 then [] else [k];
      if k == i then Unnotified(buffers) else Notified(buffers))
  }

  /** One result for each of the positions u, each with its own buffers; only the one for position i is a failure. */
  ghost predicate Spread(tried: seq<Result>, u: seq<nat>, i: nat) {
    && |tried| == |u| && (forall k, l :: 0 <= k < l < |u| ==> u[k] < u[l])
    && (forall k :: 0 <= k < |u| ==> if u[k] == i then tried[k].Unnotified? else tried[k].Notified?)
    && (forall k :: 0 <= k < |u| ==> tried[k].buffers <= [u[k]])
  }

  lemma OnlyFailureTries(q: seq<Packet>, clock: seq<nat>, i: nat) returns (u: seq<nat>)
    requires |clock| == |q| && i < |q| && Expired(q[i], clock[i])
    ensures u == Unreported(q, |q|) && Spread(PassTries(q, OnlyFailure(q, i), clock), u, i)
  {
    hide Unreported;
    hide Done;
    var attempts := Attempts(OnlyFailure(q, i), clock);
    assert forall k :: 0 <= k < |q| ==> !Stops(q[k], attempts[k]);
    assert Reached(q, attempts) == |q|;
    hide Stops;
    hide Expired;
    u := Unreported(q, |q|);
    UnreportedAre(q, |q|);
  }

  lemma SpreadStaysAcquired(tried: seq<Result>, u: seq<nat>, i: nat)
    requires Spread(tried, u, i)
    ensures StayAcquired(tried)
  {
    forall k, l, x | 0 <= k < l < |tried| && tried[k].Unnotified? && x in tried[k].buffers ensures x !in tried[l].buffers {
      assert x == u[k] && u[k] != u[l];
    }
  }

  lemma SpreadIsDisorderly(tried: seq<Result>, u: seq<nat>, i: nat, j: nat)
    requires Spread(tried, u, i) && i in u && j in u && i < j
    ensures !Orderly(tried)
  {
    var k :| 0 <= k < |u| && u[k] == i;
    var l :| 0 <= l < |u| && u[l] == j;
    hide Released;
    hide Owed;
    assert tried[k].Unnotified? && u[|u| - 1] >= j && Last(tried).Notified?;
  }

  lemma LateIsDisorderly(q: seq<Packet>, clock: seq<nat>, i: nat, j: nat)
    requires |clock| == |q| && i < j < |q| && q[i].needToBeReported && q[j].needToBeReported && Expired(q[i], clock[i])
    ensures Possible(q, OnlyFailure(q, i), clock) && !Orderly(PassTries(q, OnlyFailure(q, i), clock))
  {
    hide PassTries;
    hide Spread;
    hide StayAcquired;
    hide Orderly;
    hide Expired;
    var u := OnlyFailureTries(q, clock, i);
    UnreportedAre(q, |q|);
    hide Unreported;
    var tried := PassTries(q, OnlyFailure(q, i), clock);
    SpreadStaysAcquired(tried, u, i);
    SpreadIsDisorderly(tried, u, i, j);
  }

  /** Whatever the attempts come to, a pass over this queue is orderly exactly if no unreported packet but the last is past
      its deadline: such a packet does not end the pass, and the next attempt overwrites the array. */
  lemma PassIsOrderlyIff(q: seq<Packet>, clock: seq<nat>)
    requires |clock| == |q|
    ensures (forall results :: Possible(q, results, clock) ==> Orderly(PassTries(q, results, clock))) <==> Timely(q, clock)
  {
    hide PassTries;
    hide Orderly;
    if Timely(q, clock) {
      forall results | Possible(q, results, clock) ensures Orderly(PassTries(q, results, clock)) {
        TimelyIsOrderly(q, results, clock);
      }
    } else {
      var i, j :| 0 <= i < j < |q| && q[i].needToBeReported && q[j].needToBeReported && Expired(q[i], clock[i]);
      LateIsDisorderly(q, clock, i, j);
    }
  }

  /** What that does to the pool: two packets of one buffer each, the first past its deadline. Its buffer stays acquired
      although nobody uses it, and the buffer the client has just been told of is the next one to be handed out. */
  lemma LateFirstOfTwo(q: seq<Packet>, clock: seq<nat>, p: Pool, free: seq<nat>, owned: set<nat>, created: nat)
    requires |q| == |clock| == 2 && q[0].needToBeReported && q[1].needToBeReported && Expired(q[0], clock[0])
    requires Partitioned(p, free, owned, created) && |free| >= 2
    ensures p.head < |p.links| && Acquire(p).1 == free[0]
    ensures var p1 := Acquire(p).0;
            && p1.head < |p1.links| && Acquire(p1).1 == free[1]
            && var tried := PassTries(q, [Unnotified([free[0]]), Notified([free[1]])], clock);
               var p3 := ReleaseAll(Acquire(p1).0, Released(tried));
               && Owed(tried) == [free[0]] && Released(tried) == [free[1]]
               && Partitioned(p3, free[1..], owned + {free[0]}, created) && p3.head == free[1]
  {
    AcquireKeeps(p, free, owned, created);
    var p1 := Acquire(p).0;
    AcquireKeeps(p1, free[1..], owned + {free[0]}, created);
    var p2 := Acquire(p1).0;
    ListIsDistinct(p.links, p.head, free);
    ReleaseKeeps(p2, free[1..][1..], owned + {free[0]} + {free[1]}, created, free[1]);
    BackInFront(free, owned);
    TriedBoth(q, clock, free[0], free[1]);
    var p3 := Release(p2, free[1]);
    assert ReleaseAll(p2, [free[1]]) == ReleaseAll(p3, [free[1]][1..]) == p3;
  }

  lemma BackInFront(free: seq<nat>, owned: set<nat>)
    requires |free| >= 2 && Distinct(free) && free[1] !in owned
    ensures [free[1]] + free[1..][1..] == free[1..]
    ensures owned + {free[0]} + {free[1]} - {free[1]} == owned + {free[0]}
  {
    assert free[0] != free[1];
  }

  lemma TriedBoth(q: seq<Packet>, clock: seq<nat>, a: nat, b: nat)
    requires |q| == |clock| == 2 && q[0].needToBeReported && q[1].needToBeReported && Expired(q[0], clock[0])
    ensures var tried := PassTries(q, [Unnotified([a]), Notified([b])], clock);
            Owed(tried) == [a] && Released(tried) == [b]
  {
    var results := [Unnotified([a]), Notified([b])];
    assert Done(q, Attempts(results, clock)) == 2;
    assert Unreported(q, 0) == [] && Unreported(q, 1) == [0] && Unreported(q, 2) == [0, 1];
    var tried := PassTries(q, results, clock);
    assert tried == results && tried[0].Unnotified?;
    assert tried[..1] == [Unnotified([a])] && tried[..1][..0] == [] && Owed(tried[..1]) == [a];
  }

  // ---------------------------------------------------------------- the recursion

  /** n + (n - 1) + ... + 1 */
  function Triangle(n: nat): nat {
    if n == 0 then 0 else n + Triangle(n - 1)
  }

  /** The part of the bound that is left when a call stops with m sockets in the list. */
  function Spared(m: nat): nat {
    if m == 0 then 0 else Triangle(m - 1)
  }

  lemma {:induction false} TriangleGrows(m: nat, n: nat)
    requires m <= n
    ensures Triangle(m) + (n - m) <= Triangle(n)
  {
    if m < n {
      TriangleGrows(m, n - 1);
    }
  }

  // one round: a pass over the first of n sockets, a nested call that leaves m, and possibly a reinsertion
  lemma TriangleRound(n: nat, m: nat)
    requires m < n
    ensures 1 + Triangle(n - 1) - Spared(m) <= Triangle(n) - Triangle(m)
    ensures 1 <= Triangle(n) - Triangle(n - 1)
    ensures Spared(m) <= Triangle(m) && Spared(m + 1) == Triangle(m)
  {
    TriangleGrows(m, n);
  }

  predicate Clear(q: seq<Packet>) {
    forall i :: 0 <= i < |q| ==> !q[i].needToBeReported
  }

  /** Timely whatever the clock says up to a limit. */
  predicate TimelyUntil(q: seq<Packet>, limit: nat) {
    forall i, j :: 0 <= i < j < |q| && q[i].needToBeReported && q[j].needToBeReported ==> !Expired(q[i], limit)
  }

  ghost predicate FailedSince(reports: seq<seq<Result>>, n: nat) {
    exists k :: n <= k < |reports| && Failed(reports[k])
  }

  ghost predicate AllTimely(list: seq<nat>, queues: seq<seq<Packet>>, limit: nat)
    requires Within(list, |queues|)
  {
    forall i :: 0 <= i < |list| ==> TimelyUntil(queues[list[i]], limit)
  }

  /** Nobody enters the list, whoever leaves it has nothing left to report, and no queue gets worse. */
  ghost predicate Onward(list: seq<nat>, queues: seq<seq<Packet>>, list': seq<nat>, queues': seq<seq<Packet>>, limit: nat)
    requires Within(list, |queues|)
  {
    && |queues'| == |queues|
    && (forall x :: x in list' ==> x in list)
    && (forall x :: x in list ==> x in list' || Clear(queues'[x]))
    && (forall x :: 0 <= x < |queues| && Clear(queues[x]) ==> Clear(queues'[x]))
    && (forall x :: 0 <= x < |queues| && TimelyUntil(queues[x], limit) ==> TimelyUntil(queues'[x], limit))
  }

  lemma OnwardFrom(list: seq<nat>, queues: seq<seq<Packet>>, limit: nat)
    requires Within(list, |queues|)
    ensures Onward(list, queues, list, queues, limit)
  {
  }

  lemma OnwardStays(list: seq<nat>, queues: seq<seq<Packet>>, list': seq<nat>, queues': seq<seq<Packet>>, limit: nat)
    requires Within(list, |queues|) && Onward(list, queues, list', queues', limit)
    ensures Within(list', |queues'|)
    ensures AllTimely(list, queues, limit) ==> AllTimely(list', queues', limit)
  {
    hide Clear;
    hide TimelyUntil;
    forall i | 0 <= i < |list'|
      ensures list'[i] < |queues'|
      ensures AllTimely(list, queues, limit) ==> TimelyUntil(queues'[list'[i]], limit)
    {
      assert list'[i] in list';
      var j :| 0 <= j < |list| && list[j] == list'[i];
    }
  }

  lemma OnwardTwice(list: seq<nat>, queues: seq<seq<Packet>>, list1: seq<nat>, queues1: seq<seq<Packet>>,
                    list2: seq<nat>, queues2: seq<seq<Packet>>, limit: nat)
    requires Within(list, |queues|) && Onward(list, queues, list1, queues1, limit)
    requires Within(list1, |queues1|) && Onward(list1, queues1, list2, queues2, limit)
    ensures Onward(list, queues, list2, queues2, limit) && Within(list2, |queues2|)
  {
    OnwardStays(list1, queues1, list2, queues2, limit);
    hide Clear;
    hide TimelyUntil;
  }

  // the first socket is taken out and passed over, then other calls run
  lemma OnwardRound(list: seq<nat>, queues: seq<seq<Packet>>, q: seq<Packet>, list1: seq<nat>, queues1: seq<seq<Packet>>, limit: nat)
    requires list != [] && Within(list, |queues|) && list[0] < |queues|
    requires (Clear(queues[list[0]]) ==> Clear(q)) && (TimelyUntil(queues[list[0]], limit) ==> TimelyUntil(q, limit))
    requires Within(list[1..], |queues|) && Onward(list[1..], queues[list[0] := q], list1, queues1, limit)
    ensures Within(list1, |queues1|)
    ensures Clear(q) || list[0] in list1 ==> Onward(list, queues, list1, queues1, limit)
    ensures Onward(list, queues, list1 + [list[0]], queues1, limit) && Within(list1 + [list[0]], |queues1|)
  {
    OnwardStays(list[1..], queues[list[0] := q], list1, queues1, limit);
    hide Clear;
    hide TimelyUntil;
    assert forall x :: x in list <==> x == list[0] || x in list[1..];
  }

  // ---------------------------------------------------------------- which passes make up a call

  /** A round is a pass, and the passes of the nested call if the pass has something to release. */
  ghost predicate Round(r: seq<seq<Result>>)
    decreases |r|, 0
  {
    r != [] && if SomeUnnotified(r[0]) then Trace(r[1..]) else |r| == 1
  }

  /** The passes of a call: rounds of which only the last one can begin with a failed pass. */
  ghost predicate Trace(r: seq<seq<Result>>)
    decreases |r|, 1
  {
    r == [] || Round(r) || exists k :: 0 < k < |r| && Round(r[..k]) && !Failed(r[0]) && Trace(r[k..])
  }

  /** The rounds of a call that goes on. */
  ghost predicate Rounds(r: seq<seq<Result>>)
    decreases |r|
  {
    r == [] || exists k :: 0 < k <= |r| && Round(r[..k]) && !Failed(r[0]) && Rounds(r[k..])
  }

  lemma {:induction false} RoundsThenTrace(a: seq<seq<Result>>, b: seq<seq<Result>>)
    requires Rounds(a) && Trace(b)
    ensures Trace(a + b)
    decreases |a|
  {
    hide Round;
    hide Failed;
    if a == [] {
      assert a + b == b;
    } else {
      var k :| 0 < k <= |a| && Round(a[..k]) && !Failed(a[0]) && Rounds(a[k..]);
      RoundsThenTrace(a[k..], b);
      assert (a + b)[..k] == a[..k] && (a + b)[k..] == a[k..] + b;
      if k == |a + b| {
        assert a + b == a[..k];
      }
    }
  }

  lemma {:induction false} RoundsMore(a: seq<seq<Result>>, b: seq<seq<Result>>)
    requires Rounds(a) && Round(b) && !Failed(b[0])
    ensures Rounds(a + b)
    decreases |a|
  {
    hide Failed;
    if a == [] {
      assert a + b == b && b[..|b|] == b && b[|b|..] == [] && b != [];
    } else {
      hide Round;
      var k :| 0 < k <= |a| && Round(a[..k]) && !Failed(a[0]) && Rounds(a[k..]);
      RoundsMore(a[k..], b);
      assert (a + b)[..k] == a[..k] && (a + b)[k..] == a[k..] + b;
    }
  }

  // the passes of the latest round
  lemma RoundIs(tried: seq<Result>, nested: seq<seq<Result>>)
    requires if SomeUnnotified(tried) then Trace(nested) else nested == []
    ensures Round([tried] + nested) && Trace([tried] + nested)
  {
    assert ([tried] + nested)[1..] == nested;
  }

  // how the passes of a call grow by a round
  lemma RoundEnds(start: seq<seq<Result>>, before: seq<seq<Result>>, reports: seq<seq<Result>>)
    requires start <= before <= reports && Rounds(before[|start|..]) && Round(reports[|before|..])
    ensures Trace(reports[|start|..])
    ensures !Failed(reports[|before|..][0]) ==> Rounds(reports[|start|..])
  {
    hide Rounds;
    hide Failed;
    var mine, round := before[|start|..], reports[|before|..];
    assert reports[|start|..] == mine + round;
    RoundsThenTrace(mine, round);
    if !Failed(round[0]) {
      RoundsMore(mine, round);
    }
  }

  lemma RoundsAreTrace(r: seq<seq<Result>>)
    ensures Rounds(r) ==> Trace(r)
  {
    hide Rounds;
    if Rounds(r) {
      RoundsThenTrace(r, []);
      assert r + [] == r;
    }
  }

  lemma NoRounds(reports: seq<seq<Result>>)
    ensures Rounds(reports[|reports|..])
  {
  }

  // ---------------------------------------------------------------- whose turn it is

  /** The first k sockets have been served, and those of them that are still in the list stand behind all others. */
  ghost predicate ServedFirst(list: seq<nat>, list': seq<nat>, k: nat) {
    && k <= |list| && list[k..] <= list'
    && forall x :: x in list'[|list| - k..] ==> x in list[..k]
  }

  /** Some sockets have been served, from the front of the list. */
  ghost predicate InTurn(list: seq<nat>, list': seq<nat>) {
    if list == [] then list' == [] else exists k: nat :: k > 0 && ServedFirst(list, list', k)
  }

  lemma TurnRound(list: seq<nat>, list': seq<nat>)
    requires list != [] && (list' == list[1..] || InTurn(list[1..], list'))
    ensures InTurn(list, list') && InTurn(list, list' + [list[0]])
  {
    var k: nat := 1;
    if list' != list[1..] {
      var l: nat :| l > 0 && ServedFirst(list[1..], list', l);
      k := l + 1;
      assert list[1..][l..] == list[k..] && forall x :: x in list[1..][..l] ==> x in list[..k];
    }
    assert list[0] in list[..k];
    assert ServedFirst(list, list', k);
    var more := list' + [list[0]];
    assert more[|list| - k..] == list'[|list| - k..] + [list[0]];
    assert ServedFirst(list, more, k);
  }

  lemma TurnTwice(list: seq<nat>, list1: seq<nat>, list2: seq<nat>)
    requires (list1 == list || InTurn(list, list1)) && InTurn(list1, list2)
    ensures InTurn(list, list2)
  {
    if list != [] && list1 != list {
      var k: nat :| k > 0 && ServedFirst(list, list1, k);
      if list1 == [] {
        assert ServedFirst(list, list2, |list|);
      } else {
        var l: nat :| l > 0 && ServedFirst(list1, list2, l);
        ServedTwice(list, list1, list2, k, l);
      }
    }
  }

  lemma ServedTwice(list: seq<nat>, list1: seq<nat>, list2: seq<nat>, k: nat, l: nat)
    requires ServedFirst(list, list1, k) && ServedFirst(list1, list2, l)
    ensures ServedFirst(list, list2, if k + l < |list| then k + l else |list|)
  {
    var n := if k + l < |list| then k + l else |list|;
    var back := list1[|list| - k..];
    assert list1 == list[k..] + back;
    forall x | x in list1[..l] ensures x in list[..n] {
      var i :| 0 <= i < l && list1[i] == x;
      if i < |list| - k {
        assert x == list[k + i] && list[..n][k + i] == x;
      } else {
        assert x == back[i - (|list| - k)] && x in list[..k];
        MorePrefix(list, k, n, x);
      }
    }
    forall x | x in list2[|list| - n..] ensures x in list[..n] {
      var i :| |list| - n <= i < |list2| && list2[i] == x;
      if i >= |list1| - l {
        assert x == list2[|list1| - l..][i - (|list1| - l)];
      } else {
        assert x == list1[l..][i] == back[i + l - (|list| - k)];
        MorePrefix(list, k, n, x);
      }
    }
  }

  lemma MorePrefix(list: seq<nat>, k: nat, n: nat, x: nat)
    requires k <= n <= |list| && x in list[..k]
    ensures x in list[..n]
  {
    var i :| 0 <= i < k && list[..k][i] == x;
    assert list[..n][i] == x;
  }

  lemma FirstAndRest(list: seq<nat>, queues: seq<seq<Packet>>, limit: nat)
    requires list != [] && Within(list, |queues|)
    ensures list[0] < |queues| && Within(list[1..], |queues|)
    ensures AllTimely(list, queues, limit) ==> TimelyUntil(queues[list[0]], limit) && AllTimely(list[1..], queues, limit)
  {
  }

  /** A pass does not make a queue any later. */
  lemma TimelyAfter(q: seq<Packet>, attempts: seq<Attempt>, limit: nat)
    requires |attempts| >= |q|
    ensures TimelyUntil(q, limit) ==> TimelyUntil(AfterDelivery(q, attempts), limit)
  {
    hide Done;
  }

  lemma TimelyBefore(q: seq<Packet>, clock: seq<nat>, limit: nat)
    requires |clock| >= |q| && TimelyUntil(q, limit) && forall i :: 0 <= i < |clock| ==> clock[i] <= limit
    ensures Timely(q, clock)
  {
  }

  // one more packet looked at
  lemma TriedSnoc(q: seq<Packet>, results: seq<Result>, n: nat)
    requires n < |q| && n < |results|
    ensures Tried(q, results, n + 1) == Tried(q, results, n) + if q[n].needToBeReported then [results[n]] else []
  {
  }

  lemma TriedExtends(q: seq<Packet>, results: seq<Result>, results': seq<Result>, n: nat)
    requires n <= |q| && n <= |results| <= |results'| && results <= results'
    ensures Tried(q, results', n) == Tried(q, results, n)
  {
  }

  class Reporter {
    var socketsListToReport: seq<nat>
    var queues: seq<seq<Packet>>
    // what every pass tried, in order
    ghost var reports: seq<seq<Result>>

    constructor (queues: seq<seq<Packet>>, list: seq<nat>)
      ensures this.queues == queues && socketsListToReport == list && reports == []
    {
      this.queues, socketsListToReport, reports := queues, list, [];
    }

    predicate Valid()
      reads this
    {
      Within(socketsListToReport, |queues|)
    }

    /** The pass over the queue of one socket: it tries the unreported packets in turn, up to the first failure of one that is
        not past its deadline, and what it then has to release is the last array. */
    method ReportPackets(o: nat, limit: nat) returns (error: bool, reinsertInList: bool, releaseBuffers: bool, buffers: seq<nat>,
                                                      ghost results: seq<Result>, ghost clock: seq<nat>)
      requires o < |queues|
      modifies this`queues, this`reports
      ensures |results| == |clock| == |old(queues[o])| && forall i :: 0 <= i < |clock| ==> clock[i] <= limit
      ensures queues == old(queues)[o := AfterDelivery(old(queues[o]), Attempts(results, clock))]
      ensures reports == old(reports) + [PassTries(old(queues[o]), results, clock)]
      ensures reinsertInList <==> Done(old(queues[o]), Attempts(results, clock)) < |old(queues[o])|
      ensures !reinsertInList ==> Clear(queues[o])
      ensures Clear(old(queues[o])) ==> Clear(queues[o])
      ensures var tried := PassTries(old(queues[o]), results, clock);
              && (error <==> Failed(tried)) && (releaseBuffers <==> SomeUnnotified(tried))
              && (releaseBuffers ==> buffers == Released(tried))
      ensures reinsertInList ==> error
    {
      hide *;
      ghost var q := queues[o];
      ghost var tried: seq<Result> := [];
      error, reinsertInList, releaseBuffers, buffers := false, false, false, [];
      results, clock := [], [];
      var i := 0;
      NothingTried(q, limit);
      while i < |queues[o]|
        invariant reports == old(reports) && o < |queues| && queues == old(queues)[o := queues[o]]
        invariant PassedOver(q, queues[o], results, clock, i, limit) && |results| == |clock| == i <= |q| == |queues[o]|
        invariant PassState(q, results, i, tried, error, releaseBuffers, buffers)
        invariant !reinsertInList
      {
        var pkt := queues[o][i];
        var result: Result, now: nat := *, *;
        if now > limit {
          now := limit;
        }
        PassedOverNext(q, queues[o], results, clock, i, limit, result, now);
        PassStateNext(q, results, i, tried, error, releaseBuffers, buffers, result);
        ghost var before, beforeAt := results, clock;
        results, clock := results + [result], clock + [now];
        if !pkt.needToBeReported {
          i := i + 1;
          continue;
        }
        buffers, error := result.buffers, !result.Notified?;
        releaseBuffers := releaseBuffers || result.Unnotified?;
        tried := tried + [result];
        if error {
          if pkt.deadlineTimerExpired || now > pkt.allocationTime + DEADLINE {
            pkt := pkt.(deadlineTimerExpired := true, allowData := false);
          } else {
            reinsertInList := true;
            assert results[..i] == before && clock[..i] == beforeAt;
            break;
          }
        }
        queues := queues[o := queues[o][i := pkt.(needToBeReported := false, waitEntry := false)]];
        i := i + 1;
      }
      assert i == |q| ==> results[..i] == results && clock[..i] == clock;
      reports := reports + [tried];
      ghost var seen, at := results, clock;
      results := results + seq(|q| - |results|, k => Notified([]));
      clock := clock + seq(|q| - |clock|, k => 0);
      PassEnds(q, queues[o], seen, at, i, limit, results, clock, tried, error, releaseBuffers, buffers);
    }

    // one turn of the loop: the first socket is taken out of the list, passed over, and put back if its pass stopped early
    method ServeFirst(limit: nat) returns (error: bool, passes: nat)
      requires Valid() && socketsListToReport != []
      modifies this
      decreases |socketsListToReport|, 0
      ensures Valid() && |socketsListToReport| <= |old(socketsListToReport)|
      ensures Onward(old(socketsListToReport), old(queues), socketsListToReport, queues, limit)
      ensures InTurn(old(socketsListToReport), socketsListToReport)
      ensures old(reports) <= reports && passes == |reports| - |old(reports)|
      ensures |reports| > |old(reports)| && Round(reports[|old(reports)|..]) && (error <==> Failed(reports[|old(reports)|]))
      ensures !error ==> |socketsListToReport| < |old(socketsListToReport)|
      ensures passes <= Triangle(|old(socketsListToReport)|)
                        - if error then Spared(|socketsListToReport|) else Triangle(|socketsListToReport|)
      ensures AllTimely(old(socketsListToReport), old(queues), limit) ==>
                && AllTimely(socketsListToReport, queues, limit)
                && passes <= if error then |old(socketsListToReport)| else |old(socketsListToReport)| - |socketsListToReport|
    {
      hide Within;
      hide Onward;
      hide InTurn;
      hide AllTimely;
      hide TimelyUntil;
      hide Triangle;
      hide Spared;
      hide Clear;
      hide AfterDelivery;
      hide Done;
      hide Released;
      hide PassTries;
      hide Attempts;
      hide SomeUnnotified;
      hide Failed;
      hide Tried;
      hide Reached;
      hide Last;
      hide ServedFirst;
      hide Trace;
      hide Round;
      ghost var list, before, pass := socketsListToReport, queues, |reports|;
      FirstAndRest(list, queues, limit);
      var sockObj := socketsListToReport[0];
      socketsListToReport := socketsListToReport[1..];
      var reinsertInList, releaseBuffers, buffers;
      ghost var results, clock;
      error, reinsertInList, releaseBuffers, buffers, results, clock := ReportPackets(sockObj, limit);
      ghost var attempts, tried := Attempts(results, clock), PassTries(before[sockObj], results, clock);
      PassIsTimely(before[sockObj], results, clock, limit);
      OnwardFrom(socketsListToReport, queues, limit);
      AllTimelyTail(list, before, before[sockObj], attempts, limit);
      passes := 1;
      TriangleRound(|list|, |list| - 1);
      if releaseBuffers {
        var nested := ReleaseDataBuffersAndDeliverNotifications(buffers, limit);
        passes := passes + nested;
      }
      OnwardRound(list, before, AfterDelivery(before[sockObj], attempts), socketsListToReport, queues, limit);
      TurnRound(list, socketsListToReport);
      TriangleRound(|list|, |socketsListToReport|);
      assert old(reports) <= reports && reports[pass] == tried;
      RoundIs(tried, reports[pass + 1..]);
      assert reports[pass..] == [tried] + reports[pass + 1..];
      if reinsertInList {
        reinsertInList := sockObj !in socketsListToReport;
        if reinsertInList {
          socketsListToReport := socketsListToReport + [sockObj];
        }
      }
      OnwardStays(list, before, socketsListToReport, queues, limit);
    }

    /** Every call comes to an end, whatever fails, because a failing socket goes back to the list only after the nested call
        and then the loop stops. A socket leaves the list only with nothing left to report, and one stays only after a failure;
        it then stands behind those that have not been served. A pass whose last attempt failed is the last one the call makes
        itself. If no listed queue can have a packet past its deadline in front of another by then, there is at most one pass for
        each listed socket. */
    method DeliverWaitingNotifications(limit: nat) returns (passes: nat)
      requires Valid()
      modifies this
      decreases |socketsListToReport|, 1
      ensures Valid() && |socketsListToReport| <= |old(socketsListToReport)|
      ensures Onward(old(socketsListToReport), old(queues), socketsListToReport, queues, limit)
      ensures InTurn(old(socketsListToReport), socketsListToReport)
      ensures |old(reports)| <= |reports| && Trace(reports[|old(reports)|..])
      ensures socketsListToReport == [] || FailedSince(reports, |old(reports)|)
      ensures old(reports) <= reports && passes == |reports| - |old(reports)|
      ensures passes <= Triangle(|old(socketsListToReport)|) - Spared(|socketsListToReport|)
      ensures AllTimely(old(socketsListToReport), old(queues), limit) ==> passes <= |old(socketsListToReport)|
    {
      hide Within;
      hide Onward;
      hide InTurn;
      hide AllTimely;
      hide Triangle;
      hide Spared;
      hide Failed;
      hide Trace;
      hide Round;
      hide Rounds;
      passes := 0;
      OnwardFrom(socketsListToReport, queues, limit);
      SparedNone();
      NobodysTurn();
      NoRounds(reports);
      while socketsListToReport != []
        invariant Valid() && |socketsListToReport| <= |old(socketsListToReport)|
        invariant Onward(old(socketsListToReport), old(queues), socketsListToReport, queues, limit)
        invariant socketsListToReport == old(socketsListToReport) || InTurn(old(socketsListToReport), socketsListToReport)
        invariant old(reports) <= reports && passes == |reports| - |old(reports)|
        invariant Rounds(reports[|old(reports)|..])
        invariant passes <= Triangle(|old(socketsListToReport)|) - Triangle(|socketsListToReport|)
        invariant AllTimely(old(socketsListToReport), old(queues), limit) ==>
                    AllTimely(socketsListToReport, queues, limit) && passes <= |old(socketsListToReport)| - |socketsListToReport|
        decreases |socketsListToReport|
      {
        ghost var list, before, earlier := socketsListToReport, queues, reports;
        var error, more := ServeFirst(limit);
        passes := passes + more;
        TurnTwice(old(socketsListToReport), list, socketsListToReport);
        OnwardTwice(old(socketsListToReport), old(queues), list, before, socketsListToReport, queues, limit);
        assert reports[|earlier|..][0] == reports[|earlier|] && (error <==> Failed(reports[|earlier|]));
        RoundEnds(old(reports), earlier, reports);
        if error {
          break;
        }
      }
      RoundsAreTrace(reports[|old(reports)|..]);
    }

    // the release itself is NkeSocketFilter.ReleaseDataBuffers of module SocketFilterBuffers
    method ReleaseDataBuffersAndDeliverNotifications(buffers: seq<nat>, limit: nat) returns (passes: nat)
      requires Valid()
      modifies this
      decreases |socketsListToReport|, 2
      ensures Valid() && |socketsListToReport| <= |old(socketsListToReport)|
      ensures Onward(old(socketsListToReport), old(queues), socketsListToReport, queues, limit)
      ensures InTurn(old(socketsListToReport), socketsListToReport)
      ensures |old(reports)| <= |reports| && Trace(reports[|old(reports)|..])
      ensures socketsListToReport == [] || FailedSince(reports, |old(reports)|)
      ensures old(reports) <= reports && passes == |reports| - |old(reports)|
      ensures passes <= Triangle(|old(socketsListToReport)|) - Spared(|socketsListToReport|)
      ensures AllTimely(old(socketsListToReport), old(queues), limit) ==> passes <= |old(socketsListToReport)|
    {
      passes := DeliverWaitingNotifications(limit);
    }
  }

  /** The first i packets have been passed over; the rest of the queue is as it was. */
  ghost predicate PassedOver(q: seq<Packet>, now: seq<Packet>, results: seq<Result>, clock: seq<nat>, i: nat, limit: nat) {
    && i <= |q| == |now| && |results| == |clock| == i
    && (forall k :: 0 <= k < i ==> clock[k] <= limit)
    && (forall k :: 0 <= k < i ==>
          var a := Attempt(!results[k].Notified?, clock[k]); !Stops(q[k], a) && now[k] == Delivered(q[k], a))
    && (forall k :: i <= k < |q| ==> now[k] == q[k])
  }

  /** What the variables of the pass say about the attempts on the first n packets. */
  ghost predicate PassState(q: seq<Packet>, results: seq<Result>, n: nat, tried: seq<Result>,
                            error: bool, releaseBuffers: bool, buffers: seq<nat>) {
    && n <= |q| && n <= |results| && tried == Tried(q, results, n)
    && (error <==> Failed(tried)) && (releaseBuffers <==> SomeUnnotified(tried))
    && (tried != [] ==> buffers == Last(tried).buffers)
  }

  lemma NothingTried(q: seq<Packet>, limit: nat)
    ensures PassedOver(q, q, [], [], 0, limit) && PassState(q, [], 0, [], false, false, [])
  {
  }

  // what happens to the next packet, whatever its attempt comes to
  lemma PassedOverNext(q: seq<Packet>, now: seq<Packet>, results: seq<Result>, clock: seq<nat>, i: nat, limit: nat, r: Result, t: nat)
    requires PassedOver(q, now, results, clock, i, limit) && i < |q| && t <= limit
    ensures |now| == |q| && |results| == |clock| == i && now[i] == q[i]
    ensures var p, late := q[i], q[i].deadlineTimerExpired || t > q[i].allocationTime + DEADLINE;
            if !p.needToBeReported then PassedOver(q, now, results + [r], clock + [t], i + 1, limit)
            else if r.Notified? then
              PassedOver(q, now[i := p.(needToBeReported := false, waitEntry := false)], results + [r], clock + [t], i + 1, limit)
            else if late then
              PassedOver(q, now[i := p.(deadlineTimerExpired := true, allowData := false, needToBeReported := false, waitEntry := false)],
                         results + [r], clock + [t], i + 1, limit)
            else Stops(p, Attempt(true, t))
  {
  }

  lemma PassStateNext(q: seq<Packet>, results: seq<Result>, i: nat, tried: seq<Result>, error: bool, releaseBuffers: bool,
                      buffers: seq<nat>, r: Result)
    requires PassState(q, results, i, tried, error, releaseBuffers, buffers) && i < |q| && |results| == i
    ensures if q[i].needToBeReported
            then PassState(q, results + [r], i + 1, tried + [r], !r.Notified?, releaseBuffers || r.Unnotified?, r.buffers)
            else PassState(q, results + [r], i + 1, tried, error, releaseBuffers, buffers)
  {
    hide Unreported;
    hide Tried;
    TriedExtends(q, results, results + [r], i);
    TriedSnoc(q, results + [r], i);
    UnnotifiedSnoc(tried, r);
  }

  lemma NobodysTurn()
    ensures InTurn([], [])
  {
  }

  lemma SparedNone()
    ensures Spared(0) == 0 && Triangle(0) == 0
  {
  }

  lemma PassEndsQueue(q: seq<Packet>, now: seq<Packet>, seen: seq<Result>, at: seq<nat>, i: nat, limit: nat,
                      results: seq<Result>, clock: seq<nat>)
    requires |results| == |clock| == |q| && seen <= results && at <= clock && |seen| == |at| >= i
    requires PassedOver(q, now, seen[..i], at[..i], i, limit)
    requires i < |q| ==> |at| == i + 1 && Stops(q[i], Attempt(!seen[i].Notified?, at[i]))
    ensures var attempts := Attempts(results, clock);
            && Done(q, attempts) == i && now == AfterDelivery(q, attempts)
            && (i == |q| ==> Clear(now)) && (Clear(q) ==> Clear(now))
  {
    hide Stops;
    var attempts := Attempts(results, clock);
    assert forall k :: 0 <= k < i ==> attempts[k] == Attempt(!seen[..i][k].Notified?, at[..i][k]);
    assert Done(q, attempts) == i;
    hide Done;
  }

  lemma TriedStop(q: seq<Packet>, seen: seq<Result>, i: nat)
    requires i < |q| && |seen| == i + 1 && q[i].needToBeReported && !seen[i].Notified?
    ensures Failed(Tried(q, seen, i + 1))
  {
    hide Unreported;
    hide Tried;
    TriedSnoc(q, seen, i);
  }

  lemma PassEnds(q: seq<Packet>, now: seq<Packet>, seen: seq<Result>, at: seq<nat>, i: nat, limit: nat,
                 results: seq<Result>, clock: seq<nat>, tried: seq<Result>, error: bool, releaseBuffers: bool, buffers: seq<nat>)
    requires |results| == |clock| == |q| && seen <= results && at <= clock && |seen| == |at| >= i
    requires PassedOver(q, now, seen[..i], at[..i], i, limit)
    requires forall k :: |at| <= k < |clock| ==> clock[k] == 0
    requires i < |q| ==> |at| == i + 1 && at[i] <= limit && Stops(q[i], Attempt(!seen[i].Notified?, at[i]))
    requires PassState(q, seen, |seen|, tried, error, releaseBuffers, buffers)
    ensures forall k :: 0 <= k < |clock| ==> clock[k] <= limit
    ensures var attempts := Attempts(results, clock);
            && now == AfterDelivery(q, attempts) && (i < |q| <==> Done(q, attempts) < |q|)
            && (i == |q| ==> Clear(now)) && (Clear(q) ==> Clear(now))
    ensures tried == PassTries(q, results, clock)
    ensures (error <==> Failed(tried)) && (releaseBuffers <==> SomeUnnotified(tried)) && (releaseBuffers ==> buffers == Released(tried))
    ensures i < |q| ==> error
  {
    hide Unreported;
    PassEndsQueue(q, now, seen, at, i, limit, results, clock);
    TriedExtends(q, seen, results, |seen|);
    hide PassedOver;
    hide Done;
    hide Stops;
    hide AfterDelivery;
    if i < |q| {
      TriedStop(q, seen, i);
    }
  }

  lemma PassIsTimely(q: seq<Packet>, results: seq<Result>, clock: seq<nat>, limit: nat)
    requires |results| == |clock| == |q| && forall i :: 0 <= i < |clock| ==> clock[i] <= limit
    ensures TimelyUntil(q, limit) ==>
              && (SomeUnnotified(PassTries(q, results, clock)) ==> Failed(PassTries(q, results, clock)))
              && TimelyUntil(AfterDelivery(q, Attempts(results, clock)), limit)
    ensures TimelyUntil(q, limit) ==> TimelyUntil(AfterDelivery(q, Attempts(results, clock)), limit)
  {
    if TimelyUntil(q, limit) {
      TimelyBefore(q, clock, limit);
      TimelyIsOrderly(q, results, clock);
    }
    TimelyAfter(q, Attempts(results, clock), limit);
  }

  // the rest of the list after a pass over the first socket
  lemma AllTimelyTail(list: seq<nat>, queues: seq<seq<Packet>>, q: seq<Packet>, attempts: seq<Attempt>, limit: nat)
    requires list != [] && Within(list, |queues|) && q == queues[list[0]] && |attempts| >= |q|
    ensures AllTimely(list, queues, limit) ==>
              Within(list[1..], |queues|) && AllTimely(list[1..], queues[list[0] := AfterDelivery(q, attempts)], limit)
  {
    TimelyAfter(q, attempts, limit);
    hide TimelyUntil;
    hide AfterDelivery;
  }

  lemma UnnotifiedSnoc(tried: seq<Result>, result: Result)
    ensures SomeUnnotified(tried + [result]) <==> SomeUnnotified(tried) || result.Unnotified?
  {
    if SomeUnnotified(tried) {
      var i :| 0 <= i < |tried| && tried[i].Unnotified?;
      assert (tried + [result])[i].Unnotified?;
    }
    if result.Unnotified? {
      assert (tried + [result])[|tried|].Unnotified?;
    }
  }
}

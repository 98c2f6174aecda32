/**
 The free list of shared data buffers: an array of links and the index of the first free buffer.
 Acquire and release each take effect at one compare-and-swap of the head; they are single steps here,
 and CasIsSafeIff says what the compare-and-swap of an acquire has to guarantee for that.
 */
module FreeBuffers {
  import opened IndexLists

  // kt_NkeSocketBuffersNumber and UINT8_MAX
  const BUFFERS: nat := 40
  const END: nat := 255

  /** links[i] is the buffer after i, or END; head is the first free buffer, or END. */
  datatype Pool = Pool(links: seq<nat>, head: nat)

  /** A list threaded through the links: from its first index to END. */
  ghost predicate ListFrom(links: seq<nat>, from: nat, list: seq<nat>)
    decreases list
  {
    if list == [] then from == END
    else from == list[0] && from < |links| && from != END && ListFrom(links, links[from], list[1..])
  }

  /** free is the free list, owned the acquired buffers; the first `created` buffers exist. */
  ghost predicate Partitioned(p: Pool, free: seq<nat>, owned: set<nat>, created: nat) {
    && |p.links| == BUFFERS && created <= BUFFERS
    && ListFrom(p.links, p.head, free)
    && (forall i: nat :: i < created <==> i in free || i in owned)
    && (forall i :: i in owned ==> i !in free)
    && (forall i: nat :: i < BUFFERS && i !in free ==> p.links[i] == END)
  }

  /** The free list and the owned buffers partition the buffers. */
  ghost predicate Sound(p: Pool, owned: set<nat>, created: nat) {
    exists free :: Partitioned(p, free, owned, created)
  }

  /** withDefault: the buffers that could be created are pushed one after the other. */
  function Initial(created: nat): (p: Pool)
    requires created <= BUFFERS
    ensures |p.links| == BUFFERS
  {
    if created == 0 then Pool(seq(BUFFERS, i => END), END)
    else var p := Initial(created - 1); Pool(p.links[created - 1 := p.head], created - 1)
  }

  /** The index handed out, or END if no buffer is free. */
  function Acquire(p: Pool): (Pool, nat)
    requires p.head == END || p.head < |p.links|
  {
    if p.head == END then (p, END)
    else (Pool(p.links[p.head := END], p.links[p.head]), p.head)
  }

  /** The guard in front of a release; the index may come from the user client. */
  predicate Accepts(p: Pool, index: nat) {
    index < BUFFERS && index < |p.links| && p.links[index] == END
  }

  function Release(p: Pool, index: nat): Pool {
    if Accepts(p, index) then Pool(p.links[index := p.head], index) else p
  }

  // ---------------------------------------------------------------- lists

  lemma {:induction false} ListIsUnique(links: seq<nat>, from: nat, a: seq<nat>, b: seq<nat>)
    requires ListFrom(links, from, a) && ListFrom(links, from, b)
    ensures a == b
    decreases |a|
  {
    if a != [] {
      ListIsUnique(links, links[from], a[1..], b[1..]);
      assert a == [a[0]] + a[1..] && b == [b[0]] + b[1..];
    }
  }

  lemma {:induction false} ListSuffix(links: seq<nat>, from: nat, list: seq<nat>, k: nat)
    requires ListFrom(links, from, list) && k < |list|
    ensures ListFrom(links, list[k], list[k..])
    ensures list[k] < |links| && list[k] != END
    ensures links[list[k]] == if k == |list| - 1 then END else list[k + 1]
    decreases |list|
  {
    if k > 0 {
      ListSuffix(links, links[from], list[1..], k - 1);
      assert list[k..] == list[1..][k - 1..];
    } else {
      assert list[0..] == list;
    }
  }

  /** A terminated list cannot visit a buffer twice: the links form no cycle. */
  lemma ListIsDistinct(links: seq<nat>, from: nat, list: seq<nat>)
    requires ListFrom(links, from, list)
    ensures Distinct(list)
  {
    forall i, j | 0 <= i < j < |list| ensures list[i] != list[j] {
      ListSuffix(links, from, list, i);
      ListSuffix(links, from, list, j);
      if list[i] == list[j] {
        ListIsUnique(links, list[i], list[i..], list[j..]);
      }
    }
  }

  /** Changing the link of a buffer outside the list keeps the list. */
  lemma {:induction false} ListFrame(links: seq<nat>, from: nat, list: seq<nat>, index: nat, link: nat)
    requires ListFrom(links, from, list) && index < |links| && index !in list
    ensures ListFrom(links[index := link], from, list)
    decreases |list|
  {
    if list != [] {
      ListFrame(links, links[from], list[1..], index, link);
    }
  }

  lemma {:induction false} DistinctFits(list: seq<nat>, bound: nat)
    requires Distinct(list) && forall x :: x in list ==> x < bound
    ensures |list| <= bound
    decreases bound
  {
    assert list == [] || list[0] in list;
    if bound == 0 {
    } else if i :| 0 <= i < |list| && list[i] == bound - 1 {
      var rest := list[..i] + list[i + 1..];
      assert forall x :: x in rest ==> x in list && x != bound - 1;
      DistinctFits(rest, bound - 1);
    } else {
      DistinctFits(list, bound - 1);
    }
  }

  /** By pigeonhole the free list never outgrows the array of buffers. */
  lemma FreeListFits(p: Pool, free: seq<nat>, owned: set<nat>, created: nat)
    requires Partitioned(p, free, owned, created)
    ensures Distinct(free) && |free| <= BUFFERS
    ensures forall i :: i in free ==> i < BUFFERS && i !in owned
    ensures forall i :: i in owned ==> i < BUFFERS
  {
    ListIsDistinct(p.links, p.head, free);
    DistinctFits(free, BUFFERS);
  }

  lemma FreeWereCreated(p: Pool, free: seq<nat>, owned: set<nat>, created: nat)
    requires Partitioned(p, free, owned, created)
    ensures forall i :: i in free ==> i < created
    ensures forall i :: i in owned ==> i < created
  {
  }

  // ---------------------------------------------------------------- the invariant

  function Countdown(n: nat): (list: seq<nat>)
    ensures |list| == n && forall i: nat :: i in list <==> i < n
  {
    if n == 0 then [] else [n - 1] + Countdown(n - 1)
  }

  /** The fresh pool: every created buffer is free, the last one created first. */
  lemma {:induction false} InitialIsSound(created: nat)
    requires created <= BUFFERS
    ensures Partitioned(Initial(created), Countdown(created), {}, created)
  {
    if created > 0 {
      InitialIsSound(created - 1);
      var p := Initial(created - 1);
      ListFrame(p.links, p.head, Countdown(created - 1), created - 1, p.head);
      assert Countdown(created)[1..] == Countdown(created - 1);
    }
  }

  /** An acquire takes the first free buffer, which nobody owned; it fails only when none is free. */
  lemma AcquireKeeps(p: Pool, free: seq<nat>, owned: set<nat>, created: nat)
    requires Partitioned(p, free, owned, created)
    ensures p.head == END || p.head < |p.links|
    ensures var (p', index) := Acquire(p);
            if free == [] then index == END && p' == p
            else index == free[0] && index < created && index !in owned && Partitioned(p', free[1..], owned + {index}, created)
  {
    if free != [] {
      ListIsDistinct(p.links, p.head, free);
      ListFrame(p.links, p.links[p.head], free[1..], p.head, END);
      assert free == [free[0]] + free[1..] && free[0] in free && free[0] !in free[1..];
      assert forall i :: i in free <==> i == free[0] || i in free[1..];
    }
  }

  /** Releasing an owned buffer puts it in front of the free list. */
  lemma ReleaseKeeps(p: Pool, free: seq<nat>, owned: set<nat>, created: nat, index: nat)
    requires Partitioned(p, free, owned, created) && index in owned
    ensures Accepts(p, index)
    ensures Partitioned(Release(p, index), [index] + free, owned - {index}, created)
  {
    ListFrame(p.links, p.head, free, index, p.head);
    assert ([index] + free)[1..] == free;
  }

  /** What the guard lets through: owned buffers, buffers that were never created, and the last free buffer. */
  lemma AcceptsIff(p: Pool, free: seq<nat>, owned: set<nat>, created: nat, index: nat)
    requires Partitioned(p, free, owned, created)
    ensures Accepts(p, index) <==> index in owned || created <= index < BUFFERS || (free != [] && index == free[|free| - 1])
  {
    if index in free {
      var k :| 0 <= k < |free| && free[k] == index;
      ListSuffix(p.links, p.head, free, k);
      ListIsDistinct(p.links, p.head, free);
    }
    if free != [] {
      ListSuffix(p.links, p.head, free, |free| - 1);
      assert free[|free| - 1] in free;
    }
  }

  /** The buffer reached after n links. */
  function Walk(p: Pool, from: nat, n: nat): nat {
    if n == 0 then from
    else var i := Walk(p, from, n - 1); if i < |p.links| then p.links[i] else END
  }

  lemma {:induction false} WalkAlongList(p: Pool, from: nat, list: seq<nat>, n: nat)
    requires ListFrom(p.links, from, list) && n <= |list|
    ensures Walk(p, from, n) == if n < |list| then list[n] else END
  {
    if n > 0 {
      WalkAlongList(p, from, list, n - 1);
      ListSuffix(p.links, from, list, n - 1);
    }
  }

  /** index lies on a cycle of links, so no walk from the head ends. */
  ghost predicate Cyclic(p: Pool) {
    forall n: nat :: Walk(p, p.head, n) != END
  }

  lemma CyclicIsUnsound(p: Pool, owned: set<nat>, created: nat)
    requires Cyclic(p)
    ensures !Sound(p, owned, created)
  {
    if Sound(p, owned, created) {
      var free :| Partitioned(p, free, owned, created);
      WalkAlongList(p, p.head, free, |free|);
      assert false;
    }
  }

  /** Links that lead from the last buffer of a list back to its first one never end. */
  lemma {:induction false} ClosedListIsCyclic(p: Pool, list: seq<nat>, n: nat)
    requires list != [] && p.head == list[0]
    requires forall k :: 0 <= k < |list| ==> list[k] < |p.links| && list[k] != END
    requires forall k :: 0 <= k < |list| ==> p.links[list[k]] == list[if k == |list| - 1 then 0 else k + 1]
    ensures Walk(p, p.head, n) in list && Walk(p, p.head, n) != END
  {
    if n > 0 {
      ClosedListIsCyclic(p, list, n - 1);
      var k :| 0 <= k < |list| && list[k] == Walk(p, p.head, n - 1);
      assert Walk(p, p.head, n) == list[if k == |list| - 1 then 0 else k + 1];
    }
  }

  // the links once the last free buffer has been released again
  lemma LoopLink(p: Pool, free: seq<nat>, owned: set<nat>, created: nat, k: nat)
    requires Partitioned(p, free, owned, created) && k < |free|
    ensures var last := free[|free| - 1];
            var loop, p' := [last] + free[..|free| - 1], Release(p, last);
            && loop[k] < |p'.links| && loop[k] != END && p'.head == last
            && p'.links[loop[k]] == loop[if k == |free| - 1 then 0 else k + 1]
  {
    AcceptsIff(p, free, owned, created, free[|free| - 1]);
    ListIsDistinct(p.links, p.head, free);
    ListSuffix(p.links, p.head, free, if k == 0 then |free| - 1 else k - 1);
  }

  /** Releasing the last free buffer again turns the free list into a cycle through all of it. */
  lemma ReleaseLastCloses(p: Pool, free: seq<nat>, owned: set<nat>, created: nat)
    requires Partitioned(p, free, owned, created) && free != []
    ensures Cyclic(Release(p, free[|free| - 1]))
    ensures forall i :: i in free ==> !Accepts(Release(p, free[|free| - 1]), i)
  {
    var last, p' := free[|free| - 1], Release(p, free[|free| - 1]);
    var loop := [last] + free[..|free| - 1];
    hide *;
    forall k | 0 <= k < |loop|
      ensures loop[k] < |p'.links| && loop[k] != END
      ensures p'.links[loop[k]] == loop[if k == |loop| - 1 then 0 else k + 1]
    {
      LoopLink(p, free, owned, created, k);
    }
    LoopLink(p, free, owned, created, 0);
    ClosedIsCyclic(p', loop);
    forall i | i in free ensures !Accepts(p', i) {
      var k :| 0 <= k < |free| && free[k] == i;
      var at := if k == |free| - 1 then 0 else k + 1;
      assert i == loop[at];
      LinkedIsRefused(p', i, loop[if at == |loop| - 1 then 0 else at + 1]);
    }
  }

  lemma ClosedIsCyclic(p: Pool, list: seq<nat>)
    requires list != [] && p.head == list[0]
    requires forall k :: 0 <= k < |list| ==> list[k] < |p.links| && list[k] != END
    requires forall k :: 0 <= k < |list| ==> p.links[list[k]] == list[if k == |list| - 1 then 0 else k + 1]
    ensures Cyclic(p)
  {
    forall n: nat ensures Walk(p, p.head, n) != END {
      ClosedListIsCyclic(p, list, n);
    }
  }

  lemma LinkedIsRefused(p: Pool, i: nat, link: nat)
    requires i < |p.links| && p.links[i] == link && link != END
    ensures !Accepts(p, i)
  {
  }

  lemma HeadWasCreated(p: Pool, owned: set<nat>, created: nat)
    requires Sound(p, owned, created) && p.head != END
    ensures p.head < created
  {
    var free :| Partitioned(p, free, owned, created);
    assert free[0] in free;
  }

  /** A release request keeps the pool in order exactly if it names neither the last free buffer
      nor a buffer that was never created. */
  lemma ReleaseIsSafeIff(p: Pool, free: seq<nat>, owned: set<nat>, created: nat, index: nat)
    requires Partitioned(p, free, owned, created)
    ensures Sound(Release(p, index), owned - {index}, created)
            <==> !(created <= index < BUFFERS) && !(free != [] && index == free[|free| - 1])
  {
    AcceptsIff(p, free, owned, created, index);
    if index in owned {
      ReleaseKeeps(p, free, owned, created, index);
      if free != [] {
        assert free[|free| - 1] in free;
      }
    } else if free != [] && index == free[|free| - 1] {
      ReleaseLastCloses(p, free, owned, created);
      CyclicIsUnsound(Release(p, index), owned - {index}, created);
    } else if created <= index < BUFFERS {
      if Sound(Release(p, index), owned - {index}, created) {
        HeadWasCreated(Release(p, index), owned - {index}, created);
        assert false;
      }
    } else {
      assert Partitioned(p, free, owned - {index}, created) by {
        assert owned - {index} == owned;
      }
    }
  }

  /** An acquire reads the head and its link and only then swaps the head. If the swap finds the head unchanged,
      it hands the buffer out correctly exactly if the link it installs is still the current one. */
  lemma CasIsSafeIff(p: Pool, free: seq<nat>, owned: set<nat>, created: nat, link: nat)
    requires Partitioned(p, free, owned, created) && free != []
    ensures Sound(Pool(p.links[p.head := END], link), owned + {p.head}, created) <==> link == p.links[p.head]
  {
    AcquireKeeps(p, free, owned, created);
    var p' := Pool(p.links[p.head := END], link);
    if Sound(p', owned + {p.head}, created) {
      var free' :| Partitioned(p', free', owned + {p.head}, created);
      SameMembers(p'.links, p.links[p.head], free[1..], link, free');
    }
  }

  /** Two lists over the same links with the same members are the same list. */
  lemma SameMembers(links: seq<nat>, a: nat, listA: seq<nat>, b: nat, listB: seq<nat>)
    requires ListFrom(links, a, listA) && ListFrom(links, b, listB)
    requires forall i: nat :: i in listA <==> i in listB
    ensures a == b
  {
    assert (listA == [] || listA[0] in listA) && (listB == [] || listB[0] in listB);
    if listA != [] && listB != [] {
      var i :| 0 <= i < |listA| && listA[i] == listB[0];
      var j :| 0 <= j < |listB| && listB[j] == listA[0];
      ListSuffix(links, a, listA, i);
      ListSuffix(links, b, listB, j);
      ListIsUnique(links, listB[0], listA[i..], listB);
      ListIsUnique(links, listA[0], listB[j..], listA);
    }
  }

  // ---------------------------------------------------------------- what other threads can do in between

  /** What the other threads do to the pool: take a buffer, or give back one that is owned. */
  datatype Request = Take | Give(index: nat)

  predicate Proper(p: Pool, owned: set<nat>, r: Request) {
    match r
    case Take => p.head == END || p.head < |p.links|
    case Give(index) => index in owned
  }

  function Served(p: Pool, owned: set<nat>, r: Request): (Pool, set<nat>)
    requires Proper(p, owned, r)
  {
    match r
    case Take => var (p', index) := Acquire(p); (p', if index == END then owned else owned + {index})
    case Give(index) => (Release(p, index), owned - {index})
  }

  predicate AllProper(p: Pool, owned: set<nat>, requests: seq<Request>)
    decreases |requests|
  {
    requests == [] ||
    (Proper(p, owned, requests[0]) && AllProper(Served(p, owned, requests[0]).0, Served(p, owned, requests[0]).1, requests[1..]))
  }

  function AllServed(p: Pool, owned: set<nat>, requests: seq<Request>): Pool
    requires AllProper(p, owned, requests)
    decreases |requests|
  {
    if requests == [] then p
    else AllServed(Served(p, owned, requests[0]).0, Served(p, owned, requests[0]).1, requests[1..])
  }

  lemma {:induction false} AllServedKeeps(p: Pool, free: seq<nat>, owned: set<nat>, created: nat, requests: seq<Request>)
    returns (free': seq<nat>, owned': set<nat>)
    requires Partitioned(p, free, owned, created) && AllProper(p, owned, requests)
    ensures Partitioned(AllServed(p, owned, requests), free', owned', created)
    decreases |requests|
  {
    if requests == [] {
      return free, owned;
    }
    hide Partitioned;
    AcquireKeeps(p, free, owned, created);
    var (p', next) := Served(p, owned, requests[0]);
    match requests[0]
    case Take =>
      if free == [] {
        free', owned' := AllServedKeeps(p', free, owned, created, requests[1..]);
      } else {
        NotEnd(p, free, owned, created);
        free', owned' := AllServedKeeps(p', free[1..], next, created, requests[1..]);
      }
    case Give(index) =>
      ReleaseKeeps(p, free, owned, created, index);
      free', owned' := AllServedKeeps(p', [index] + free, next, created, requests[1..]);
  }

  lemma NotEnd(p: Pool, free: seq<nat>, owned: set<nat>, created: nat)
    requires Partitioned(p, free, owned, created) && free != []
    ensures p.head == free[0] && p.head != END
  {
  }

  /** The head is back, but the link behind it is another one: a compare-and-swap would install the stale link. */
  ghost predicate ComesBack(p: Pool, owned: set<nat>, requests: seq<Request>) {
    && AllProper(p, owned, requests)
    && var p' := AllServed(p, owned, requests);
       p.head < |p.links| && p.head < |p'.links| && p'.head == p.head && p'.links[p.head] != p.links[p.head]
  }

  // a single buffer has only one possible link
  lemma OnlyBuffer(p: Pool, free: seq<nat>, owned: set<nat>)
    requires Partitioned(p, free, owned, 1) && p.head != END
    ensures p.head == 0 && p.links[0] == END
  {
    assert free[0] in free;
    ListIsDistinct(p.links, p.head, free);
    DistinctFits(free, 1);
    assert |free| == 1 && free[0] in free && ListFrom(p.links, p.links[p.head], free[1..]);
  }

  lemma ThreeServed(p: Pool, owned: set<nat>, a: Request, b: Request, c: Request)
    requires Proper(p, owned, a)
    requires var (p1, o1) := Served(p, owned, a);
             && Proper(p1, o1, b)
             && var (p2, o2) := Served(p1, o1, b);
                Proper(p2, o2, c)
    ensures AllProper(p, owned, [a, b, c])
    ensures var (p1, o1) := Served(p, owned, a);
            var (p2, o2) := Served(p1, o1, b);
            AllServed(p, owned, [a, b, c]) == Served(p2, o2, c).0
  {
    var (p1, o1) := Served(p, owned, a);
    var (p2, o2) := Served(p1, o1, b);
    hide Served;
    hide Proper;
    assert [a, b, c][1..] == [b, c] && [b, c][1..] == [c] && [c][1..] == [];
    var (p3, o3) := Served(p2, o2, c);
    assert AllProper(p3, o3, []) && AllServed(p3, o3, []) == p3;
    assert AllProper(p2, o2, [c]) && AllServed(p2, o2, [c]) == p3;
    assert AllProper(p1, o1, [b, c]) && AllServed(p1, o1, [b, c]) == p3;
  }

  // with two free buffers: take both, give back the first
  lemma BackAmongFree(p: Pool, free: seq<nat>, owned: set<nat>, created: nat)
    requires Partitioned(p, free, owned, created) && |free| >= 2
    ensures ComesBack(p, owned, [Take, Take, Give(free[0])])
  {
    AcquireKeeps(p, free, owned, created);
    var p1 := Acquire(p).0;
    AcquireKeeps(p1, free[1..], owned + {free[0]}, created);
    var p2 := Acquire(p1).0;
    ReleaseKeeps(p2, free[1..][1..], owned + {free[0]} + {free[1]}, created, free[0]);
    ListIsDistinct(p.links, p.head, free);
    if |free| > 2 {
      assert free[1] != free[2];
    }
    ThreeServed(p, owned, Take, Take, Give(free[0]));
  }

  // with one free and one owned buffer: take the one, give back the other, give back the first
  lemma BackOverOwned(p: Pool, free: seq<nat>, owned: set<nat>, created: nat, y: nat)
    requires Partitioned(p, free, owned, created) && |free| == 1 && y in owned
    ensures ComesBack(p, owned, [Take, Give(y), Give(free[0])])
  {
    AcquireKeeps(p, free, owned, created);
    var p1 := Acquire(p).0;
    ReleaseKeeps(p1, free[1..], owned + {free[0]}, created, y);
    var p2 := Release(p1, y);
    ReleaseKeeps(p2, [y] + free[1..], owned + {free[0]} - {y}, created, free[0]);
    ThreeServed(p, owned, Take, Give(y), Give(free[0]));
  }

  /** With a free buffer, other threads can bring the head back with another link exactly if there are two buffers at all. */
  lemma HeadComesBackIff(p: Pool, free: seq<nat>, owned: set<nat>, created: nat)
    requires Partitioned(p, free, owned, created) && free != []
    ensures (exists requests :: ComesBack(p, owned, requests)) <==> created >= 2
  {
    assert free[0] in free;
    if created == 1 {
      forall requests ensures !ComesBack(p, owned, requests) {
        if AllProper(p, owned, requests) {
          var free', owned' := AllServedKeeps(p, free, owned, created, requests);
          OnlyBuffer(p, free, owned);
          if AllServed(p, owned, requests).head != END {
            OnlyBuffer(AllServed(p, owned, requests), free', owned');
          }
        }
      }
    } else if |free| >= 2 {
      BackAmongFree(p, free, owned, created);
    } else {
      var y: nat := if free[0] == 0 then 1 else 0;
      assert y in free || y in owned;
      BackOverOwned(p, free, owned, created, y);
    }
  }

  // ---------------------------------------------------------------- releasing a whole array of indices

  function ReleaseAll(p: Pool, list: seq<nat>): Pool
    decreases |list|
  {
    if list == [] then p else ReleaseAll(Release(p, list[0]), list[1..])
  }

  function Reverse(list: seq<nat>): (r: seq<nat>)
    ensures |r| == |list| && forall i :: i in r <==> i in list
    ensures list != [] ==> r[|r| - 1] == list[0]
  {
    if list == [] then [] else Reverse(list[1..]) + [list[0]]
  }

  function Members(list: seq<nat>): set<nat> {
    set i | i in list
  }

  /** Owned buffers released in turn end up in front of the free list, the last one first. */
  lemma {:induction false} ReleaseAllKeeps(p: Pool, free: seq<nat>, owned: set<nat>, created: nat, list: seq<nat>)
    requires Partitioned(p, free, owned, created) && Distinct(list) && forall i :: i in list ==> i in owned
    ensures Partitioned(ReleaseAll(p, list), Reverse(list) + free, owned - Members(list), created)
    decreases |list|
  {
    if list == [] {
      assert Reverse(list) + free == free && owned - Members(list) == owned;
    } else {
      ReleaseKeeps(p, free, owned, created, list[0]);
      ReleaseAllKeeps(Release(p, list[0]), [list[0]] + free, owned - {list[0]}, created, list[1..]);
      assert Reverse(list[1..]) + ([list[0]] + free) == Reverse(list) + free;
      assert owned - {list[0]} - Members(list[1..]) == owned - Members(list);
    }
  }

  lemma {:induction false} ReleaseAllRefused(p: Pool, list: seq<nat>)
    requires forall i :: i in list ==> !Accepts(p, i)
    ensures ReleaseAll(p, list) == p
  {
    if list != [] {
      ReleaseAllRefused(p, list[1..]);
    }
  }

  // ---------------------------------------------------------------- releasing an array that was released before

  lemma {:induction false} WalkFromNewHead(p: Pool, index: nat, n: nat)
    requires Cyclic(p) && Accepts(p, index)
    ensures Walk(Release(p, index), index, n + 1) == Walk(p, p.head, n)
  {
    var p' := Release(p, index);
    if n == 0 {
      assert Walk(p', index, 1) == p'.links[Walk(p', index, 0)];
    } else {
      WalkFromNewHead(p, index, n - 1);
      assert Walk(p, p.head, n) != END;
    }
  }

  lemma {:induction false} ReleaseAllCyclic(p: Pool, list: seq<nat>)
    requires Cyclic(p)
    ensures Cyclic(ReleaseAll(p, list))
    decreases |list|
  {
    if list != [] {
      var p' := Release(p, list[0]);
      if Accepts(p, list[0]) {
        forall n: nat ensures Walk(p', p'.head, n) != END {
          if n > 0 {
            WalkFromNewHead(p, list[0], n - 1);
          }
        }
      }
      ReleaseAllCyclic(p', list[1..]);
    }
  }

  lemma OwnedHeadIsUnsound(p: Pool, owned: set<nat>, created: nat)
    requires p.head in owned && p.head != END
    ensures !Sound(p, owned, created)
  {
    forall free ensures !Partitioned(p, free, owned, created) {
    }
  }

  /** Once a release of the array has been accepted, no later one repairs the pool. */
  lemma {:induction false} AcceptedSpoils(p: Pool, free: seq<nat>, owned: set<nat>, created: nat, list: seq<nat>, owners: set<nat>)
    requires Partitioned(p, free, owned, created) && owned <= owners && END !in owners
    requires forall i :: i in list ==> i < created
    requires p.head in owners || exists i :: i in list && Accepts(p, i)
    ensures !Sound(ReleaseAll(p, list), owners, created)
    decreases |list|
  {
    if list == [] {
      OwnedHeadIsUnsound(p, owners, created);
    } else {
      assert forall i :: i in list <==> i == list[0] || i in list[1..];
      assert list[0] in list;
      if !Accepts(p, list[0]) {
        AcceptedSpoils(p, free, owned, created, list[1..], owners);
      } else {
        AcceptsIff(p, free, owned, created, list[0]);
        if list[0] in owned {
          ReleaseKeeps(p, free, owned, created, list[0]);
          AcceptedSpoils(Release(p, list[0]), [list[0]] + free, owned - {list[0]}, created, list[1..], owners);
        } else {
          ReleaseLastCloses(p, free, owned, created);
          ReleaseAllCyclic(Release(p, list[0]), list[1..]);
          CyclicIsUnsound(ReleaseAll(p, list), owners, created);
        }
      }
    }
  }

  predicate SafelyFree(free: seq<nat>, index: nat) {
    index in free && index != free[|free| - 1]
  }

  /** Releasing an array whose buffers have been released before, whatever other threads did to the pool since then: it leaves
      pool and owners alone exactly if each of its buffers is still free and none of them is the last free one. */
  lemma SecondReleaseIsSafeIff(p: Pool, free: seq<nat>, owned: set<nat>, created: nat, list: seq<nat>)
    requires Partitioned(p, free, owned, created) && forall i :: i in list ==> i < created
    ensures Sound(ReleaseAll(p, list), owned, created) <==> forall i :: i in list ==> SafelyFree(free, i)
    ensures (forall i :: i in list ==> SafelyFree(free, i)) ==> ReleaseAll(p, list) == p
  {
    forall i | i in list ensures Accepts(p, i) <==> !SafelyFree(free, i) {
      AcceptsIff(p, free, owned, created, i);
    }
    if i :| i in list && !SafelyFree(free, i) {
      AcceptedSpoils(p, free, owned, created, list, owned);
    } else {
      ReleaseAllRefused(p, list);
    }
  }

  /** If nothing happens in between, that means: the array was empty, or other free buffers lie behind its own. */
  lemma SecondReleaseAtOnce(list: seq<nat>, rest: seq<nat>)
    requires Distinct(Reverse(list) + rest)
    ensures (forall i :: i in list ==> SafelyFree(Reverse(list) + rest, i)) <==> list == [] || rest != []
  {
    var free := Reverse(list) + rest;
    forall i | i in list && rest != [] ensures SafelyFree(free, i) {
      var k :| 0 <= k < |list| && Reverse(list)[k] == i;
      assert free[k] == i;
    }
    if list != [] && rest == [] {
      assert list[0] in list && free[|free| - 1] == list[0];
    }
  }
}

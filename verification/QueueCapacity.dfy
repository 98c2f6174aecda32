/** How full the notification ring can get, and when it refuses. */
module QueueCapacity {
  import opened Bytes
  import opened DataQueue

  /** An empty ring takes an entry from every head position exactly if two such entries fit into the area. */
  lemma EmptyRingAcceptsIff(queueSize: nat, entrySize: nat)
    requires entrySize >= HEADER
    ensures (forall p :: 0 <= p <= queueSize ==> Place(queueSize, p, p, entrySize) != Full) <==> 2 * entrySize <= queueSize
  {
    var p := if entrySize <= queueSize then entrySize else queueSize;
    assert 2 * entrySize > queueSize ==> Place(queueSize, p, p, entrySize) == Full;
  }

  /** Where slot k starts. */
  function Start(size: nat, k: nat): nat {
    if k == 0 then 0 else Start(size, k - 1) + size
  }

  /** With one entry size, the offsets count slots: head is a slots in, tail b slots in, k slots fit. */
  ghost predicate Slots(r: Ring, size: nat, k: nat, a: nat, b: nat, count: nat) {
    && r.head == Start(size, a) && r.tail == Start(size, b)
    && a <= k && b <= k && Start(size, k) <= |r.mem| < Start(size, k) + size
    && count == if a <= b then b - a else k - a + b
  }

  ghost predicate Uniform(items: seq<Message>, size: nat) {
    forall m :: m in items ==> EntrySize(m) == size
  }

  lemma {:induction false} StartGrows(size: nat, x: nat, y: nat)
    requires size > 0 && x < y
    ensures Start(size, x) < Start(size, y)
    decreases y
  {
    if x < y - 1 {
      StartGrows(size, x, y - 1);
    }
  }

  lemma {:induction false} StartIsProduct(size: nat, k: nat)
    ensures Start(size, k) == size * k
  {
    if k > 0 {
      StartIsProduct(size, k - 1);
    }
  }

  lemma Scale(size: nat, x: nat, y: nat)
    requires size > 0
    ensures Start(size, x) <= Start(size, y) <==> x <= y
    ensures Start(size, x + 1) == Start(size, x) + size
    ensures Start(size, 0) == 0 && Start(size, 1) == size
  {
    if x < y {
      StartGrows(size, x, y);
    } else if y < x {
      StartGrows(size, y, x);
    }
    assert Start(size, 1) == Start(size, 0) + size;
  }

  lemma PutKeepsSlots(r: Ring, r': Ring, data: Message, k: nat, a: nat, b: nat, count: nat) returns (b': nat)
    requires Slots(r, EntrySize(data), k, a, b, count) && Enqueued(r, r', data)
    ensures Slots(r', EntrySize(data), k, a, b', count + 1)
  {
    var size := EntrySize(data);
    Scale(size, b, a);
    Scale(size, a, b);
    Scale(size, b + 1, k);
    Scale(size, k, b + 1);
    Scale(size, b + 1, a);
    Scale(size, a, b + 1);
    Scale(size, a, 1);
    b' := if Place(|r.mem|, r.head, r.tail, size) == AtStart then 1 else b + 1;
  }

  lemma GetKeepsSlots(r: Ring, items: seq<Message>, size: nat, k: nat, a: nat, b: nat) returns (a': nat)
    requires Holds(r, items) && items != [] && EntrySize(items[0]) == size && Slots(r, size, k, a, b, |items|)
    ensures Slots(r.(head := EntryAt(r) + size), size, k, a', b, |items| - 1)
  {
    hide Layout;
    hide LoadUInt32;
    OldestIsFirst(r, items);
    Scale(size, a + 1, k);
    Scale(size, k, a + 1);
    Scale(size, a, b);
    a' := if r.head + size > |r.mem| then 1 else a + 1;
  }

  /** One call keeps the slots, whatever it does. */
  lemma StepKeepsSlots(r: Ring, call: Call, r': Ring, items: seq<Message>, size: nat, k: nat, a: nat, b: nat)
    returns (left: seq<Message>, a': nat, b': nat)
    requires size >= HEADER && Holds(r, items) && Step(r, call, r') && Uniform(items, size)
    requires Slots(r, size, k, a, b, |items|) && (call.Put? ==> EntrySize(call.data) == size)
    ensures Holds(r', left) && Uniform(left, size) && Slots(r', size, k, a', b', |left|)
  {
    hide Holds;
    hide LoadUInt32;
    hide Enqueued;
    hide Slots;
    left, a', b' := items, a, b;
    match call
    case Put(data) =>
      if Place(|r.mem|, r.head, r.tail, size) != Full {
        EnqueueAppends(r, r', data, items);
        left := items + [data];
        b' := PutKeepsSlots(r, r', data, k, a, b, |items|);
      }
    case Get(out) =>
      EmptyIff(r, items);
      DequeueRefines(r, items, out);
      if items != [] && Dequeue(r, out).status == Success {
        OldestIsFirst(r, items);
        left := items[1..];
        assert r' == r.(head := EntryAt(r) + size);
        a' := GetKeepsSlots(r, items, size, k, a, b);
      }
  }

  /** What the slots say about the number of entries and about a refusal. */
  lemma SlotsBound(r: Ring, size: nat, k: nat, a: nat, b: nat, count: nat)
    requires size >= HEADER && Slots(r, size, k, a, b, count)
    ensures Place(|r.mem|, r.head, r.tail, size) == Full ==> count >= k - 1
  {
    Scale(size, a, b);
    Scale(size, b, b);
    if a <= b {
      Scale(size, b + 1, k);
      Scale(size, a, 1);
    } else {
      Scale(size, a, b + 1);
    }
  }

  /** In every run from the fresh ring whose entries all have one size, at most queueSize / size entries are
      held, and an enqueue is refused only when at least queueSize / size - 1 are. */
  lemma UniformRun(rings: seq<Ring>, calls: seq<Call>, size: nat) returns (held: seq<Message>)
    requires IsRun(rings, calls) && rings[0].head == rings[0].tail == 0
    requires HEADER <= size <= |rings[0].mem|
    requires forall c :: c in calls && c.Put? ==> EntrySize(c.data) == size
    ensures var r, k := rings[|calls|], |rings[0].mem| / size;
            && Holds(r, held) && |held| <= k
            && (Place(|r.mem|, r.head, r.tail, size) == Full ==> |held| >= k - 1)
  {
    hide Holds;
    hide Uniform;
    hide Place;
    hide EntrySize;
    var a, b, k;
    held, a, b, k := UniformSlots(rings, calls, size);
    SlotsBound(rings[|calls|], size, k, a, b, |held|);
  }

  lemma FreshSlots(r: Ring, size: nat) returns (k: nat)
    requires r.head == r.tail == 0 && HEADER <= size
    ensures Holds(r, []) && Slots(r, size, k, 0, 0, 0) && k == |r.mem| / size
  {
    k := |r.mem| / size;
    StartIsProduct(size, k);
    assert Layout(r, [], [], 0);
  }

  lemma {:induction false} UniformSlots(rings: seq<Ring>, calls: seq<Call>, size: nat)
    returns (held: seq<Message>, a: nat, b: nat, k: nat)
    requires IsRun(rings, calls) && rings[0].head == rings[0].tail == 0 && HEADER <= size
    requires forall c :: c in calls && c.Put? ==> EntrySize(c.data) == size
    ensures Holds(rings[|calls|], held) && Uniform(held, size) && Slots(rings[|calls|], size, k, a, b, |held|)
    ensures k == |rings[0].mem| / size
    decreases |calls|
  {
    hide Holds;
    hide Step;
    hide Slots;
    if calls == [] {
      k := FreshSlots(rings[0], size);
      held, a, b := [], 0, 0;
    } else {
      var n := |calls| - 1;
      held, a, b, k := UniformSlots(rings[..|calls|], calls[..n], size);
      assert calls[n] in calls;
      held, a, b := StepKeepsSlots(rings[n], calls[n], rings[n + 1], held, size, k, a, b);
    }
  }
}

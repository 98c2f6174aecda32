/**
 The variable-length ring that carries notifications to the user client:
 the producer IODataQueueWrapper::enqueueWithBarrier and the consumer IODataQueueDequeue.
 Only the producer decides where to wrap; the consumer has to work it out from the bytes.
 */
module DataQueue {
  import opened Bytes

  // DATA_QUEUE_ENTRY_HEADER_SIZE: the UInt32 size in front of the data of an entry
  const HEADER: nat := 4

  type Message = seq<byte>

  /** The shared memory: mem is the queue area, head and tail are offsets into it. */
  datatype Ring = Ring(mem: seq<byte>, head: nat, tail: nat)

  function EntrySize(data: Message): (size: nat) {
    HEADER + |data|
  }

  datatype Placement = AtTail | AtStart | Full

  /** The producer's decision, taken from the offsets it has read (the head may already be out of date). */
  function Place(queueSize: nat, head: nat, tail: nat, entrySize: nat): Placement {
    if tail >= head then
      if tail + entrySize <= queueSize then AtTail else if head > entrySize then AtStart else Full
    else
      if head - tail > entrySize then AtTail else Full
  }

  /** The caller's sizes do not make the producer's UInt32 sums wrap. */
  predicate Fits32(queueSize: nat, data: Message) {
    queueSize + EntrySize(data) < UINT32_LIMIT
  }

  /** The same decision in the producer's UInt32 arithmetic. */
  function Place32(queueSize: nat, head: nat, tail: nat, dataSize: nat): Placement {
    var entrySize := (dataSize + HEADER) % UINT32_LIMIT;
    if tail >= head then
      if (tail + entrySize) % UINT32_LIMIT <= queueSize then AtTail else if head > entrySize then AtStart else Full
    else
      if head - tail > entrySize then AtTail else Full
  }

  /** It is the intended one for all offsets exactly if queue and entry together stay below 2^32. */
  lemma Place32AgreesIff(queueSize: nat, dataSize: nat)
    requires HEADER <= queueSize < UINT32_LIMIT && dataSize < UINT32_LIMIT
    ensures (forall head, tail :: 0 <= head <= queueSize && 0 <= tail <= queueSize ==>
                Place32(queueSize, head, tail, dataSize) == Place(queueSize, head, tail, dataSize + HEADER))
            <==> queueSize + dataSize + HEADER < UINT32_LIMIT
  {
    if queueSize + dataSize + HEADER >= UINT32_LIMIT {
      if dataSize + HEADER >= UINT32_LIMIT {
        assert (dataSize + HEADER) % UINT32_LIMIT == dataSize + HEADER - UINT32_LIMIT;
        assert Place32(queueSize, 0, 0, dataSize) == AtTail != Place(queueSize, 0, 0, dataSize + HEADER);
      } else {
        assert (queueSize + dataSize + HEADER) % UINT32_LIMIT == queueSize + dataSize + HEADER - UINT32_LIMIT;
        assert Place32(queueSize, 0, queueSize, dataSize) == AtTail != Place(queueSize, 0, queueSize, dataSize + HEADER);
      }
    }
  }

  /** Offsets inside the queue area. */
  predicate InBounds(r: Ring) {
    r.head <= |r.mem| && r.tail <= |r.mem|
  }

  /** The consumer's test for a producer that has wrapped: no room for a header, or none for the data. */
  predicate WrapsHere(r: Ring) {
    r.head + HEADER > |r.mem| || r.head + LoadUInt32(r.mem, r.head) + HEADER > |r.mem|
  }

  /** Where the consumer looks for the next entry. */
  function EntryAt(r: Ring): nat {
    if WrapsHere(r) then 0 else r.head
  }

  // ---------------------------------------------------------------- what the bytes mean

  /** One entry holding data occupies mem[at..at + EntrySize(data)]. */
  ghost predicate HasEntry(mem: seq<byte>, at: nat, data: Message) {
    && at + EntrySize(data) <= |mem|
    && LoadUInt32(mem, at) == |data|
    && mem[at + HEADER..at + EntrySize(data)] == data
  }

  /** Entries lie end to end between two offsets. */
  ghost predicate Chain(mem: seq<byte>, from: nat, to: nat, items: seq<Message>)
    decreases items
  {
    if items == [] then from == to
    else
      && from + EntrySize(items[0]) <= to
      && HasEntry(mem, from, items[0])
      && Chain(mem, from + EntrySize(items[0]), to, items[1..])
  }

  /** At wrap the consumer will see that an entry of this length did not fit. */
  ghost predicate Mark(mem: seq<byte>, wrap: nat, length: nat) {
    wrap + HEADER <= |mem| ==> wrap + LoadUInt32(mem, wrap) + HEADER > |mem| && LoadUInt32(mem, wrap) == length
  }

  /** hi is stored from head up to wrap, lo from the start of the area up to tail. */
  ghost predicate Layout(r: Ring, hi: seq<Message>, lo: seq<Message>, wrap: nat) {
    && InBounds(r)
    && wrap <= |r.mem|
    && r.head <= wrap
    && Chain(r.mem, r.head, wrap, hi)
    && if lo == [] then r.tail == wrap
       else r.tail < r.head && Chain(r.mem, 0, r.tail, lo) && Mark(r.mem, wrap, |lo[0]|)
  }

  /** The ring holds exactly these messages, oldest first. */
  ghost predicate Holds(r: Ring, items: seq<Message>) {
    exists hi, lo, wrap :: Layout(r, hi, lo, wrap) && items == hi + lo
  }

  lemma ChainBounds(mem: seq<byte>, from: nat, to: nat, items: seq<Message>)
    requires Chain(mem, from, to, items)
    ensures from <= to
    ensures items != [] ==> from + HEADER <= to
    decreases items
  {
    if items != [] {
      ChainBounds(mem, from + EntrySize(items[0]), to, items[1..]);
    }
  }

  /** A chain depends only on the bytes it covers. */
  lemma {:induction false} ChainFrame(mem: seq<byte>, mem': seq<byte>, from: nat, to: nat, items: seq<Message>)
    requires Chain(mem, from, to, items) && to <= |mem| == |mem'|
    requires forall i :: from <= i < to ==> mem'[i] == mem[i]
    ensures Chain(mem', from, to, items)
    decreases items
  {
    if items != [] {
      var next := from + EntrySize(items[0]);
      ChainBounds(mem, next, to, items[1..]);
      assert mem'[from + HEADER..next] == mem[from + HEADER..next];
      ChainFrame(mem, mem', next, to, items[1..]);
    }
  }

  lemma {:induction false} ChainExtend(mem: seq<byte>, from: nat, to: nat, items: seq<Message>, data: Message)
    requires Chain(mem, from, to, items) && HasEntry(mem, to, data)
    ensures Chain(mem, from, to + EntrySize(data), items + [data])
    decreases items
  {
    if items == [] {
      assert (items + [data])[1..] == [];
    } else {
      ChainBounds(mem, from + EntrySize(items[0]), to, items[1..]);
      ChainExtend(mem, from + EntrySize(items[0]), to, items[1..], data);
      assert (items + [data])[1..] == items[1..] + [data];
    }
  }

  // ---------------------------------------------------------------- the producer and the consumer refine a FIFO

  /** Storing an entry at the tail, with every other byte left alone, appends it. */
  lemma AppendAtTail(r: Ring, mem': seq<byte>, data: Message, hi: seq<Message>, lo: seq<Message>, wrap: nat)
    requires Layout(r, hi, lo, wrap) && |mem'| == |r.mem|
    requires if lo == [] then r.tail + EntrySize(data) <= |r.mem| else r.tail + EntrySize(data) < r.head
    requires HasEntry(mem', r.tail, data)
    requires forall i :: 0 <= i < |mem'| && !(r.tail <= i < r.tail + EntrySize(data)) ==> mem'[i] == r.mem[i]
    ensures var r' := Ring(mem', r.head, r.tail + EntrySize(data));
            if lo == [] then Layout(r', hi + [data], [], r'.tail) else Layout(r', hi, lo + [data], wrap)
  {
    hide LoadUInt32;
    ChainFrame(r.mem, mem', r.head, wrap, hi);
    if lo == [] {
      ChainExtend(mem', r.head, r.tail, hi, data);
    } else {
      ChainFrame(r.mem, mem', 0, r.tail, lo);
      ChainExtend(mem', 0, r.tail, lo, data);
      assert (lo + [data])[0] == lo[0];
      if wrap + HEADER <= |mem'| {
        LoadSameBytes(r.mem, mem', wrap);
      }
    }
  }

  /** Storing an entry at the start, below the head, and leaving a mark at the tail, appends it too. */
  lemma AppendAtStart(r: Ring, mem': seq<byte>, data: Message, hi: seq<Message>, wrap: nat)
    requires Layout(r, hi, [], wrap) && |mem'| == |r.mem| && EntrySize(data) < r.head
    requires HasEntry(mem', 0, data) && Mark(mem', r.tail, |data|)
    requires forall i :: EntrySize(data) <= i < r.tail ==> mem'[i] == r.mem[i]
    ensures Layout(Ring(mem', r.head, EntrySize(data)), hi, [data], wrap)
  {
    ChainFrame(r.mem, mem', r.head, wrap, hi);
    assert [data][1..] == [];
  }

  /** Header and data written at an offset form an entry. */
  lemma WrittenEntry(mem: seq<byte>, mem': seq<byte>, at: nat, data: Message)
    requires at + EntrySize(data) <= |mem| == |mem'| && |data| < UINT32_LIMIT
    requires mem'[at..at + HEADER] == StoreUInt32(|data|) && mem'[at + HEADER..at + EntrySize(data)] == data
    ensures HasEntry(mem', at, data)
  {
    LoadStoredUInt32(mem', at, |data|);
  }

  /** r' is r after the producer has stored data and moved the tail: an entry at the tail, or an entry at the
      start with its size repeated at the old tail if a header fits there; no other byte and no head is touched. */
  ghost predicate Enqueued(r: Ring, r': Ring, data: Message) {
    && |r'.mem| == |r.mem| && r'.head == r.head
    && match Place(|r.mem|, r.head, r.tail, EntrySize(data))
       case AtTail =>
         && r'.tail == r.tail + EntrySize(data) <= |r.mem|
         && HasEntry(r'.mem, r.tail, data)
         && forall i :: 0 <= i < |r.mem| && !(r.tail <= i < r.tail + EntrySize(data)) ==> r'.mem[i] == r.mem[i]
       case AtStart =>
         && r'.tail == EntrySize(data) < r.head <= r.tail <= |r.mem|
         && HasEntry(r'.mem, 0, data)
         && (r.tail + HEADER <= |r.mem| ==> LoadUInt32(r'.mem, r.tail) == |data|)
         && forall i :: EntrySize(data) <= i < |r.mem| && !(r.tail <= i < r.tail + HEADER <= |r.mem|) ==> r'.mem[i] == r.mem[i]
       case Full => false
  }

  lemma EnqueuedLayout(r: Ring, r': Ring, data: Message, hi: seq<Message>, lo: seq<Message>, wrap: nat)
    requires Layout(r, hi, lo, wrap) && Enqueued(r, r', data)
    ensures if Place(|r.mem|, r.head, r.tail, EntrySize(data)) == AtStart then lo == [] && Layout(r', hi, [data], wrap)
            else if lo == [] then Layout(r', hi + [data], [], r'.tail)
            else Layout(r', hi, lo + [data], wrap)
  {
    hide LoadUInt32;
    hide Chain;
    if Place(|r.mem|, r.head, r.tail, EntrySize(data)) == AtStart {
      AppendAtStart(r, r'.mem, data, hi, wrap);
    } else {
      AppendAtTail(r, r'.mem, data, hi, lo, wrap);
    }
  }

  /** A successful enqueue appends one message to whatever the ring holds. */
  lemma EnqueueAppends(r: Ring, r': Ring, data: Message, items: seq<Message>)
    requires Holds(r, items) && Enqueued(r, r', data)
    ensures Holds(r', items + [data])
  {
    hide LoadUInt32;
    hide Layout;
    hide Enqueued;
    var hi, lo, wrap :| Layout(r, hi, lo, wrap) && items == hi + lo;
    EnqueuedLayout(r, r', data, hi, lo, wrap);
    if Place(|r.mem|, r.head, r.tail, EntrySize(data)) == AtStart {
      assert items + [data] == hi + [data];
    } else if lo == [] {
      assert items + [data] == (hi + [data]) + [];
    } else {
      assert items + [data] == hi + (lo + [data]);
    }
  }

  /** head == tail says the ring is empty, and nothing else does. */
  lemma EmptyIff(r: Ring, items: seq<Message>)
    requires Holds(r, items)
    ensures r.head == r.tail <==> items == []
  {
    var hi, lo, wrap :| Layout(r, hi, lo, wrap) && items == hi + lo;
    ChainBounds(r.mem, r.head, wrap, hi);
  }

  /** The consumer starts from the beginning exactly when the producer wrapped in front of the oldest message. */
  lemma ConsumerFindsWrap(r: Ring, hi: seq<Message>, lo: seq<Message>, wrap: nat)
    requires Layout(r, hi, lo, wrap) && hi + lo != []
    ensures WrapsHere(r) <==> hi == []
    ensures WrapsHere(r) <==> r.head + EntrySize((hi + lo)[0]) > |r.mem|
    ensures HasEntry(r.mem, EntryAt(r), (hi + lo)[0])
  {
    if hi != [] {
      ChainBounds(r.mem, r.head + EntrySize(hi[0]), wrap, hi[1..]);
    }
  }

  lemma Advance(r: Ring, hi: seq<Message>, lo: seq<Message>, wrap: nat)
    requires Layout(r, hi, lo, wrap) && hi + lo != []
    ensures var r' := r.(head := EntryAt(r) + EntrySize((hi + lo)[0]));
            if hi != [] then Layout(r', hi[1..], lo, wrap) else Layout(r', lo[1..], [], r.tail)
  {
    hide LoadUInt32;
    ConsumerFindsWrap(r, hi, lo, wrap);
    if hi != [] {
      ChainBounds(r.mem, r.head + EntrySize(hi[0]), wrap, hi[1..]);
    } else {
      ChainBounds(r.mem, EntrySize(lo[0]), r.tail, lo[1..]);
    }
  }

  /** What IODataQueueDequeue answers. */
  datatype Status = Success | Underrun | NoSpace | BadArgument

  /** The caller's buffer: no data pointer, no size pointer, or room for a number of bytes. */
  datatype Output = Discard | NoSizePointer | Room(capacity: nat)

  /** Status, the reported size, the copied bytes and the new ring. */
  datatype Dequeued = Dequeued(status: Status, size: nat, data: Message, ring: Ring)

  function Dequeue(r: Ring, out: Output): Dequeued
    requires Readable(r)
  {
    if r.head == r.tail then Dequeued(Underrun, 0, [], r)
    else
      var at := EntryAt(r);
      var size := LoadUInt32(r.mem, at);
      var data := r.mem[at + HEADER..at + HEADER + size];
      var moved := r.(head := at + size + HEADER);
      match out
      case Discard => Dequeued(Success, 0, [], moved)
      case NoSizePointer => Dequeued(BadArgument, 0, [], r)
      case Room(capacity) =>
        if size <= capacity then Dequeued(Success, size, data, moved) else Dequeued(NoSpace, size, [], r)
  }

  /** The reference: the same call on a plain FIFO of messages. */
  function FifoDequeue(items: seq<Message>, out: Output): (Status, nat, Message, seq<Message>) {
    if items == [] then (Underrun, 0, [], items)
    else match out
      case Discard => (Success, 0, [], items[1..])
      case NoSizePointer => (BadArgument, 0, [], items)
      case Room(capacity) =>
        if |items[0]| <= capacity then (Success, |items[0]|, items[0], items[1..]) else (NoSpace, |items[0]|, [], items)
  }

  /** The consumer only ever reads inside the queue area. */
  ghost predicate Readable(r: Ring) {
    InBounds(r)
    && (r.head != r.tail ==> EntryAt(r) + HEADER <= |r.mem| && EntryAt(r) + HEADER + LoadUInt32(r.mem, EntryAt(r)) <= |r.mem|)
  }

  lemma LayoutHolds(r: Ring, items: seq<Message>, hi: seq<Message>, lo: seq<Message>, wrap: nat)
    requires Layout(r, hi, lo, wrap) && items == hi + lo
    ensures Holds(r, items)
  {
  }

  lemma OldestIsFirst(r: Ring, items: seq<Message>)
    requires Holds(r, items) && items != []
    ensures r.head != r.tail && HasEntry(r.mem, EntryAt(r), items[0])
    ensures EntryAt(r) == if r.head + EntrySize(items[0]) > |r.mem| then 0 else r.head
    ensures Holds(r.(head := EntryAt(r) + EntrySize(items[0])), items[1..])
  {
    hide LoadUInt32;
    EmptyIff(r, items);
    var hi, lo, wrap :| Layout(r, hi, lo, wrap) && items == hi + lo;
    ConsumerFindsWrap(r, hi, lo, wrap);
    Advance(r, hi, lo, wrap);
    var r' := r.(head := EntryAt(r) + EntrySize(items[0]));
    if hi != [] {
      LayoutHolds(r', items[1..], hi[1..], lo, wrap);
    } else {
      LayoutHolds(r', items[1..], lo[1..], [], r.tail);
    }
  }

  lemma HeldIsReadable(r: Ring, items: seq<Message>)
    requires Holds(r, items)
    ensures Readable(r)
  {
    EmptyIff(r, items);
    if items != [] {
      OldestIsFirst(r, items);
    }
  }

  /** A dequeue answers what the FIFO answers; when it refuses, the ring stays as it is. */
  lemma DequeueRefines(r: Ring, items: seq<Message>, out: Output)
    requires Holds(r, items) && Readable(r)
    ensures var d := Dequeue(r, out);
            var (status, size, data, rest) := FifoDequeue(items, out);
            d.status == status && d.size == size && d.data == data && Holds(d.ring, rest)
            && (status != Success ==> d.ring == r)
  {
    hide LoadUInt32;
    hide Layout;
    EmptyIff(r, items);
    if items != [] {
      OldestIsFirst(r, items);
    }
  }

  /** The bytes determine the messages: a ring cannot be read in two ways. */
  lemma {:induction false} HoldsIsUnique(r: Ring, a: seq<Message>, b: seq<Message>)
    requires Holds(r, a) && Holds(r, b)
    ensures a == b
    decreases |a|
  {
    hide LoadUInt32;
    hide Layout;
    EmptyIff(r, a);
    EmptyIff(r, b);
    if a != [] {
      OldestIsFirst(r, a);
      OldestIsFirst(r, b);
      assert a[0] == b[0];
      HoldsIsUnique(r.(head := EntryAt(r) + EntrySize(a[0])), a[1..], b[1..]);
      assert a == [a[0]] + a[1..] && b == [b[0]] + b[1..];
    }
  }

  // ---------------------------------------------------------------- whole runs

  datatype Call = Put(data: Message) | Get(out: Output)

  /** One call takes ring r to ring r'. */
  ghost predicate Step(r: Ring, call: Call, r': Ring) {
    match call
    case Put(data) =>
      if Place(|r.mem|, r.head, r.tail, EntrySize(data)) == Full then r' == r else Enqueued(r, r', data)
    case Get(out) => Readable(r) && r' == Dequeue(r, out).ring
  }

  /** The rings a run goes through: one before the first call and one after each. */
  ghost predicate IsRun(rings: seq<Ring>, calls: seq<Call>) {
    |rings| == |calls| + 1 && forall i :: 0 <= i < |calls| ==> Step(rings[i], calls[i], rings[i + 1])
  }

  /** What one call puts into the ring: the message, if the enqueue returns true. */
  ghost function Taken(r: Ring, call: Call): seq<Message> {
    if call.Put? && Place(|r.mem|, r.head, r.tail, EntrySize(call.data)) != Full then [call.data] else []
  }

  /** What one call takes out of the ring; a discarded message is read as the consumer would have read it. */
  ghost function Given(r: Ring, call: Call): seq<Message> {
    if call.Get? && Readable(r) && Dequeue(r, call.out).status == Success
    then [Dequeue(r, Room(UINT32_LIMIT)).data] else []
  }

  ghost function Accepted(rings: seq<Ring>, calls: seq<Call>): seq<Message>
    requires |rings| == |calls| + 1
  {
    if calls == [] then []
    else Accepted(rings[..|calls|], calls[..|calls| - 1]) + Taken(rings[|calls| - 1], calls[|calls| - 1])
  }

  ghost function Delivered(rings: seq<Ring>, calls: seq<Call>): seq<Message>
    requires |rings| == |calls| + 1
  {
    if calls == [] then []
    else Delivered(rings[..|calls|], calls[..|calls| - 1]) + Given(rings[|calls| - 1], calls[|calls| - 1])
  }

  /** Over any run nothing is lost, duplicated or reordered: the old contents and the accepted messages
      are exactly the delivered messages followed by the final contents. */
  lemma {:induction false} RunIsFifo(rings: seq<Ring>, calls: seq<Call>, items: seq<Message>) returns (left: seq<Message>)
    requires IsRun(rings, calls) && Holds(rings[0], items)
    ensures Holds(rings[|calls|], left)
    ensures items + Accepted(rings, calls) == Delivered(rings, calls) + left
    decreases |calls|
  {
    hide Holds;
    hide Step;
    hide Taken;
    hide Given;
    if calls == [] {
      return items;
    }
    var n := |calls| - 1;
    var before := RunIsFifo(rings[..|calls|], calls[..n], items);
    var r, call := rings[n], calls[n];
    left := StepIsFifo(r, call, rings[n + 1], before);
    var accepted, delivered := Accepted(rings[..|calls|], calls[..n]), Delivered(rings[..|calls|], calls[..n]);
    calc {
      items + (accepted + Taken(r, call));
      (items + accepted) + Taken(r, call);
      delivered + (before + Taken(r, call));
      (delivered + Given(r, call)) + left;
    }
  }

  /** One step of that run. */
  lemma StepIsFifo(r: Ring, call: Call, r': Ring, before: seq<Message>) returns (left: seq<Message>)
    requires Holds(r, before) && Step(r, call, r')
    ensures Holds(r', left)
    ensures before + Taken(r, call) == Given(r, call) + left
  {
    hide LoadUInt32;
    hide Chain;
    HeldIsReadable(r, before);
    match call
    case Put(data) =>
      left := before + Taken(r, call);
      if Place(|r.mem|, r.head, r.tail, EntrySize(data)) != Full {
        EnqueueAppends(r, r', data, before);
      }
    case Get(out) =>
      DequeueRefines(r, before, out);
      DequeueRefines(r, before, Room(UINT32_LIMIT));
      left := FifoDequeue(before, out).3;
  }
}

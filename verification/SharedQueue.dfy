/** The queue object itself: bytes written in place, offsets moved. */
module SharedQueue {
  import opened Bytes
  import opened DataQueue

  // what the plain FIFO answers
  lemma FifoAnswers(items: seq<Message>, out: Output)
    ensures var (status, size, data, rest) := FifoDequeue(items, out);
            && (status == Underrun <==> items == [])
            && (status == Success <==> items != [] && (out.Discard? || (out.Room? && |items[0]| <= out.capacity)))
            && (status == Success ==> items == [items[0]] + rest && (out.Room? ==> data == items[0]))
            && (status == NoSpace ==> items != [] && size == |items[0]|)
            && (status != Success ==> rest == items)
  {
  }

  class IODataQueue {
    const queue: array<byte>
    var head: nat
    var tail: nat
    // the messages the bytes stand for, oldest first
    ghost var messages: seq<Message>

    ghost function Snapshot(): Ring
      reads this, queue
    {
      Ring(queue[..], head, tail)
    }

    ghost predicate Valid()
      reads this, queue
    {
      Holds(Snapshot(), messages)
    }

    constructor (queueSize: nat)
      ensures Valid() && messages == [] && fresh(queue) && queue.Length == queueSize
    {
      queue := new byte[queueSize](_ => 0);
      head, tail, messages := 0, 0, [];
      new;
      assert Layout(Snapshot(), [], [], 0);
    }

    // memcpy into the queue area
    method Copy(at: nat, bytes: seq<byte>)
      requires at + |bytes| <= queue.Length
      modifies queue
      ensures queue[..] == Write(old(queue[..]), at, bytes)
    {
      forall i | 0 <= i < |bytes| {
        queue[at + i] := bytes[i];
      }
    }

    /** Appends the message and reports whether the reader is signalled, or refuses and changes nothing. */
    method EnqueueWithBarrier(data: Message) returns (enqueued: bool, signalled: bool)
      requires Valid() && Fits32(queue.Length, data)
      modifies this`tail, this`messages, queue
      ensures Valid()
      ensures enqueued == (Place(queue.Length, head, old(tail), EntrySize(data)) != Full)
      ensures enqueued ==> Enqueued(old(Snapshot()), Snapshot(), data) && messages == old(messages) + [data]
      ensures !enqueued ==> Snapshot() == old(Snapshot()) && messages == old(messages)
      ensures signalled <==> enqueued && old(messages) == []
    {
      hide LoadUInt32;
      hide Holds;
      hide Write;
      ghost var r := Snapshot();
      HeldIsReadable(r, messages);
      EmptyIff(r, messages);
      var first, last, entrySize := head, tail, (|data| + HEADER) % UINT32_LIMIT;
      if last >= first {
        if (last + entrySize) % UINT32_LIMIT <= queue.Length {
          StoreEntry(last, data);
          tail := tail + entrySize;
        } else if first > entrySize {
          StoreWrapped(last, data);
          tail := entrySize;
        } else {
          return false, false;
        }
      } else {
        if first - last > entrySize {
          StoreEntry(last, data);
          tail := tail + entrySize;
        } else {
          return false, false;
        }
      }
      EnqueueAppends(r, Snapshot(), data, messages);
      messages := messages + [data];
      return true, first == last || head == last;
    }

    // header and data at one place
    method StoreEntry(at: nat, data: Message)
      requires at + EntrySize(data) <= queue.Length && |data| < UINT32_LIMIT
      modifies queue
      ensures HasEntry(queue[..], at, data)
      ensures forall i :: 0 <= i < queue.Length && !(at <= i < at + EntrySize(data)) ==> queue[i] == old(queue[i])
    {
      Copy(at, StoreUInt32(|data|));
      Copy(at + HEADER, data);
      assert queue[..][at..at + HEADER] == StoreUInt32(|data|);
      assert queue[..][at + HEADER..at + EntrySize(data)] == data;
      WrittenEntry(old(queue[..]), queue[..], at, data);
    }

    // the entry at the start of the area, its size repeated at the old tail if a header fits there
    method StoreWrapped(last: nat, data: Message)
      requires EntrySize(data) < last <= queue.Length && |data| < UINT32_LIMIT
      modifies queue
      ensures HasEntry(queue[..], 0, data)
      ensures last + HEADER <= queue.Length ==> LoadUInt32(queue[..], last) == |data|
      ensures forall i :: EntrySize(data) <= i < queue.Length && !(last <= i < last + HEADER <= queue.Length) ==> queue[i] == old(queue[i])
    {
      Copy(0, StoreUInt32(|data|));
      if queue.Length - last >= HEADER {
        Copy(last, StoreUInt32(|data|));
      }
      Copy(HEADER, data);
      assert queue[..][0..HEADER] == StoreUInt32(|data|);
      assert queue[..][HEADER..EntrySize(data)] == data;
      WrittenEntry(old(queue[..]), queue[..], 0, data);
      if last + HEADER <= queue.Length {
        assert queue[..][last..last + HEADER] == StoreUInt32(|data|);
        LoadStoredUInt32(queue[..], last, |data|);
      }
    }

    /** The consumer: what it answers and leaves behind is what the plain FIFO answers and leaves behind. */
    method DequeueEntry(out: Output) returns (status: Status, size: nat, data: Message)
      requires Valid()
      modifies this`head, this`messages
      ensures Valid()
      ensures (status, size, data, messages) == FifoDequeue(old(messages), out)
      ensures status == Underrun <==> old(messages) == []
      ensures status == Success <==>
                old(messages) != [] && (out.Discard? || (out.Room? && |old(messages)[0]| <= out.capacity))
      ensures status == Success ==> old(messages) == [old(messages)[0]] + messages && (out.Room? ==> data == old(messages)[0])
      ensures status == NoSpace ==> size == |old(messages)[0]|
      ensures status != Success ==> Snapshot() == old(Snapshot())
      ensures tail == old(tail) && queue[..] == old(queue[..])
    {
      hide LoadUInt32;
      hide Holds;
      hide FifoDequeue;
      ghost var r := Snapshot();
      FifoAnswers(messages, out);
      HeldIsReadable(r, messages);
      DequeueRefines(r, messages, out);
      status, size, data := Underrun, 0, [];
      if head != tail {
        var at, newHead := 0, 0;
        if head + HEADER > queue.Length || head + LoadUInt32(queue[..], head) + HEADER > queue.Length {
          newHead := LoadUInt32(queue[..], 0) + HEADER;
        } else {
          at := head;
          newHead := head + LoadUInt32(queue[..], head) + HEADER;
        }
        var entrySize := LoadUInt32(queue[..], at);
        match out {
          case Discard =>
            status, head := Success, newHead;
          case NoSizePointer =>
            status := BadArgument;
          case Room(capacity) =>
            size := entrySize;
            if entrySize <= capacity {
              data := queue[at + HEADER..at + HEADER + entrySize];
              status, head := Success, newHead;
            } else {
              status := NoSpace;
            }
        }
      }
      messages := FifoDequeue(messages, out).3;
    }
  }
}

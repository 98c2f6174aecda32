/**
 The buffers NkeSocketFilter shares with the user client, and the scatter loop
 that spreads one packet over as many of them as it needs.
 */
module SocketFilterBuffers {
  import opened Bytes
  import opened FreeBuffers
  import opened IndexLists

  /** A packet: its bytes, and the length its header claims (mbuf_pkthdr_len). */
  datatype Mbuf = Mbuf(bytes: seq<byte>, headerLength: nat)

  // KERN_SUCCESS, ENOMEM, and the error mbuf_copydata gives when the chain is too short
  datatype Errno = Ok | NoMemory | Invalid

  /** What a client reads: n bytes out of the buffers, filling up each before the next. */
  function Gather(contents: seq<seq<byte>>, size: nat, indices: seq<nat>, n: nat): seq<byte>
    decreases |indices|
  {
    if indices == [] || indices[0] >= |contents| then []
    else
      var first := contents[indices[0]];
      var take := if n < size then n else size;
      (if take <= |first| then first[..take] else first) + Gather(contents, size, indices[1..], n - take)
  }

  // the bytes in k full buffers
  function Capacity(size: nat, k: nat): nat {
    if k == 0 then 0 else size + Capacity(size, k - 1)
  }

  lemma {:induction false} GatherAppend(contents: seq<seq<byte>>, size: nat, indices: seq<nat>, last: nat, t: nat)
    requires forall i :: i in indices ==> i < |contents| && |contents[i]| == size
    requires last < |contents| && |contents[last]| == size && t <= size
    ensures Gather(contents, size, indices + [last], Capacity(size, |indices|) + t)
            == Gather(contents, size, indices, Capacity(size, |indices|)) + contents[last][..t]
    decreases |indices|
  {
    hide Gather;
    if indices == [] {
      GatherOne(contents, size, last, t);
      assert indices + [last] == [last];
    } else {
      var all, rest, m := indices + [last], indices[1..], Capacity(size, |indices| - 1);
      assert indices[0] in indices && all[1..] == rest + [last];
      assert forall i :: i in rest ==> i in indices;
      GatherAppend(contents, size, rest, last, t);
      GatherFirst(contents, size, all, m + t);
      GatherFirst(contents, size, indices, m);
      assert Capacity(size, |indices|) == size + m;
    }
  }

  lemma GatherOne(contents: seq<seq<byte>>, size: nat, last: nat, t: nat)
    requires last < |contents| && |contents[last]| == size && t <= size
    ensures Gather(contents, size, [], 0) == [] && Gather(contents, size, [last], t) == contents[last][..t]
  {
  }

  lemma GatherFirst(contents: seq<seq<byte>>, size: nat, indices: seq<nat>, n: nat)
    requires indices != [] && indices[0] < |contents| && |contents[indices[0]]| == size
    ensures Gather(contents, size, indices, size + n) == contents[indices[0]] + Gather(contents, size, indices[1..], n)
  {
  }

  lemma {:induction false} GatherFrame(contents: seq<seq<byte>>, contents': seq<seq<byte>>, size: nat, indices: seq<nat>, n: nat)
    requires |contents'| == |contents|
    requires forall i :: i in indices && i < |contents| ==> contents'[i] == contents[i]
    ensures Gather(contents', size, indices, n) == Gather(contents, size, indices, n)
    decreases |indices|
  {
    if indices != [] && indices[0] < |contents| {
      GatherFrame(contents, contents', size, indices[1..], n - if n < size then n else size);
    }
  }

  /** The buffers so far hold the packet up to an offset; all are full unless the packet ends there. */
  ghost predicate Scattered(contents: seq<seq<byte>>, size: nat, indices: seq<nat>, mbuf: Mbuf, offset: nat) {
    && offset <= |mbuf.bytes| && offset <= mbuf.headerLength
    && (forall i :: i in indices ==> i < |contents|)
    && (forall i :: 0 <= i < |contents| ==> |contents[i]| == size)
    && Covers(|indices|, size, offset)
    && (offset < mbuf.headerLength ==> offset == Capacity(size, |indices|))
    && Gather(contents, size, indices, offset) == mbuf.bytes[..offset]
  }

  lemma {:induction false} CapacityIsProduct(size: nat, k: nat)
    ensures Capacity(size, k) == size * k
  {
    if k > 0 {
      CapacityIsProduct(size, k - 1);
    }
  }

  /** One more buffer, filled as far as the packet reaches. */
  lemma ScatterMore(contents: seq<seq<byte>>, contents': seq<seq<byte>>, size: nat, indices: seq<nat>, last: nat,
                    mbuf: Mbuf, offset: nat, t: nat)
    requires Scattered(contents, size, indices, mbuf, offset) && offset < mbuf.headerLength
    requires |contents'| == |contents| && last < |contents| && last !in indices && size > 0
    requires t == (if mbuf.headerLength - offset > size then size else mbuf.headerLength - offset)
    requires offset + t <= |mbuf.bytes|
    requires forall i :: 0 <= i < |contents| ==> |contents'[i]| == size && (i != last ==> contents'[i] == contents[i])
    requires contents'[last][..t] == mbuf.bytes[offset..offset + t]
    ensures Scattered(contents', size, indices + [last], mbuf, offset + t)
  {
    hide Gather;
    hide Capacity;
    GatherFrame(contents, contents', size, indices, offset);
    GatherAppend(contents', size, indices, last, t);
    CapacityIsProduct(size, |indices|);
    CapacityIsProduct(size, |indices| + 1);
    assert mbuf.bytes[..offset] + mbuf.bytes[offset..offset + t] == mbuf.bytes[..offset + t];
  }

  /** Exactly as many buffers of this size as n bytes need: the last one is not empty and no byte is left over. */
  predicate Covers(count: nat, size: nat, n: nat) {
    n <= size * count && (count > 0 ==> size * (count - 1) < n)
  }

  /** What copyDataToBuffers answers, given the number of free buffers: whichever shortage it meets first. */
  function CopyResult(mbuf: Mbuf, size: nat, free: nat): Errno
    requires size > 0
  {
    if |mbuf.bytes| < mbuf.headerLength && |mbuf.bytes| / size < free then Invalid
    else if size * free < mbuf.headerLength then NoMemory
    else Ok
  }

  lemma TimesGrows(size: nat, a: nat, b: nat)
    requires a <= b
    ensures size * a <= size * b
  {
    assert size * b == size * a + size * (b - a);
  }

  lemma QuotientAtLeast(n: nat, size: nat, k: nat)
    requires size > 0
    ensures n / size >= k <==> n >= size * k
  {
    var q := n / size;
    assert n == size * q + n % size;
    if q >= k {
      TimesGrows(size, k, q);
    } else {
      TimesGrows(size, q + 1, k);
      assert size * (q + 1) == size * q + size;
    }
  }

  /** The answer is known in advance from how the loop ends. */
  lemma ResultIsForeseen(mbuf: Mbuf, size: nat, free: nat, used: nat, error: Errno)
    requires size > 0 && used <= free
    requires error == Ok ==> Covers(used, size, mbuf.headerLength) && mbuf.headerLength <= |mbuf.bytes|
    requires error == NoMemory ==> used == free && size * used < mbuf.headerLength && size * used <= |mbuf.bytes|
    requires error == Invalid ==> used < free && |mbuf.bytes| < mbuf.headerLength && |mbuf.bytes| < size * (used + 1)
    ensures error == CopyResult(mbuf, size, free)
  {
    QuotientAtLeast(|mbuf.bytes|, size, free);
    QuotientAtLeast(|mbuf.bytes|, size, used + 1);
    TimesGrows(size, used, free);
  }

  class NkeSocketFilter {
    const freeBuffers: array<nat>
    var freeBuffersHead: nat
    // the memory of every data buffer, all of the same size
    const dataBuffers: array<seq<byte>>
    const bufferSize: nat
    // the free list, the acquired buffers and the number of buffers that exist
    ghost var free: seq<nat>
    ghost var owned: set<nat>
    ghost const created: nat

    ghost predicate Shaped()
      reads this, freeBuffers, dataBuffers
    {
      && freeBuffers.Length == BUFFERS && dataBuffers.Length == BUFFERS && bufferSize > 0
      && (forall i :: 0 <= i < BUFFERS ==> |dataBuffers[i]| == bufferSize)
    }

    ghost predicate Valid()
      reads this, freeBuffers, dataBuffers
    {
      Shaped() && Partitioned(Snapshot(), free, owned, created)
    }

    ghost function Snapshot(): Pool
      reads this, freeBuffers
    {
      Pool(freeBuffers[..], freeBuffersHead)
    }

    /** withDefault: creates the buffers and pushes each one on the free list, stopping at the first failure. */
    constructor (size: nat, available: nat)
      requires size > 0
      ensures Valid() && owned == {} && fresh(freeBuffers) && fresh(dataBuffers) && bufferSize == size
      ensures created == (if available < BUFFERS then available else BUFFERS) && free == Countdown(created)
    {
      var links := new nat[BUFFERS](_ => END);
      var buffers := new seq<byte>[BUFFERS](_ => seq(size, _ => 0));
      var head: nat := END;
      var i := 0;
      assert links[..] == Initial(0).links;
      while i < BUFFERS
        invariant 0 <= i <= BUFFERS && i <= available
        invariant Pool(links[..], head) == Initial(i)
        invariant forall k :: 0 <= k < BUFFERS ==> |buffers[k]| == size
      {
        if i == available {
          break;
        }
        links[i] := head;
        head := i;
        i := i + 1;
      }
      InitialIsSound(i);
      freeBuffers, freeBuffersHead, dataBuffers, bufferSize := links, head, buffers, size;
      free, owned, created := Countdown(i), {}, i;
    }

    /** Hands out a buffer nobody owns, or END when none is free. */
    method AcquireSocketDataBufferForIO() returns (index: nat)
      requires Valid()
      modifies this`freeBuffersHead, this`free, this`owned, freeBuffers
      ensures Valid()
      ensures (Snapshot(), index) == Acquire(old(Snapshot()))
      ensures old(free) == [] ==> index == END && free == [] && owned == old(owned)
      ensures old(free) != [] ==>
                index == old(free[0]) && index < created && index !in old(owned) && free == old(free[1..]) && owned == old(owned) + {index}
    {
      AcquireKeeps(Snapshot(), free, owned, created);
      index := freeBuffersHead;
      if index == END {
        return;
      }
      freeBuffersHead := freeBuffers[index];
      freeBuffers[index] := END;
      free, owned := free[1..], owned + {index};
    }

    /** Gives a buffer back; the index may be anything the user client sends. */
    method ReleaseSocketDataBufferFromIO(index: nat)
      requires Shaped()
      modifies this`freeBuffersHead, this`free, this`owned, freeBuffers
      ensures Shaped() && Snapshot() == Release(old(Snapshot()), index)
      ensures old(Valid()) && index in old(owned) ==> Valid() && free == [index] + old(free) && owned == old(owned) - {index}
      ensures index !in old(owned) ==> free == old(free) && owned == old(owned)
    {
      if old(Valid()) && index in owned {
        ReleaseKeeps(Snapshot(), free, owned, created, index);
      }
      if index in owned {
        free, owned := [index] + free, owned - {index};
      }
      if index >= BUFFERS || freeBuffers[index] != END {
        return;
      }
      freeBuffers[index] := freeBuffersHead;
      freeBuffersHead := index;
    }

    /** Copies as much of the packet as fits, from the given offset on. */
    method CopyDataMbuf(index: nat, bytesToCopy: nat, offsetInMbuf: nat, mbuf: Mbuf) returns (error: Errno, bytesCopied: nat)
      requires Shaped() && index < BUFFERS
      modifies dataBuffers
      ensures Shaped()
      ensures bytesCopied == if bytesToCopy > bufferSize then bufferSize else bytesToCopy
      ensures error == if offsetInMbuf + bytesCopied > |mbuf.bytes| then Invalid else Ok
      ensures error == Ok ==> dataBuffers[index][..bytesCopied] == mbuf.bytes[offsetInMbuf..offsetInMbuf + bytesCopied]
      ensures error != Ok ==> dataBuffers[..] == old(dataBuffers[..])
      ensures forall i :: 0 <= i < BUFFERS && i != index ==> dataBuffers[i] == old(dataBuffers[i])
    {
      bytesCopied := if bytesToCopy > bufferSize then bufferSize else bytesToCopy;
      if offsetInMbuf + bytesCopied > |mbuf.bytes| {
        return Invalid, bytesCopied;
      }
      dataBuffers[index] := mbuf.bytes[offsetInMbuf..offsetInMbuf + bytesCopied] + dataBuffers[index][bytesCopied..];
      return Ok, bytesCopied;
    }

    // one round of the scatter loop: acquires a buffer and fills it, or leaves the pool as it is
    method FillOne(mbuf: Mbuf, residual: nat, offsetInMbuf: nat, ghost taken: seq<nat>)
      returns (error: Errno, buffer: nat, bytesCopied: nat)
      requires Valid() && residual > 0 && residual + offsetInMbuf == mbuf.headerLength && Members(taken) <= owned
      requires Scattered(dataBuffers[..], bufferSize, taken, mbuf, offsetInMbuf)
      modifies this`freeBuffersHead, this`free, this`owned, freeBuffers, dataBuffers
      ensures Valid()
      ensures error == Ok ==>
                && old(free) != [] && buffer == old(free[0]) && 0 < bytesCopied <= residual
                && free == old(free[1..]) && owned == old(owned) + {buffer}
                && Scattered(dataBuffers[..], bufferSize, taken + [buffer], mbuf, offsetInMbuf + bytesCopied)
      ensures error != Ok ==> free == old(free) && owned == old(owned) && dataBuffers[..] == old(dataBuffers[..])
      ensures error == NoMemory <==> old(free) == []
      ensures error == Invalid ==> |mbuf.bytes| < mbuf.headerLength && |mbuf.bytes| < offsetInMbuf + bufferSize
      ensures forall i :: i in old(owned) && i < BUFFERS ==> dataBuffers[i] == old(dataBuffers[i])
    {
      hide Partitioned;
      hide Scattered;
      hide Acquire;
      hide Release;
      ghost var before := dataBuffers[..];
      FreeListFits(Snapshot(), free, owned, created);
      buffer := AcquireSocketDataBufferForIO();
      if buffer == END {
        return NoMemory, buffer, 0;
      }
      error, bytesCopied := CopyDataMbuf(buffer, residual, offsetInMbuf, mbuf);
      if error != Ok {
        ReleaseSocketDataBufferFromIO(buffer);
        assert old(free) == [buffer] + old(free[1..]);
        return;
      }
      assert buffer !in taken;
      ScatterMore(before, dataBuffers[..], bufferSize, taken, buffer, mbuf, offsetInMbuf, bytesCopied);
    }

    // the scatter loop: stops when the packet is covered, when no buffer is left or when the copy fails
    method FillBuffers(mbuf: Mbuf, bufferIndices: array<nat>) returns (error: Errno, used: nat)
      requires Valid() && bufferIndices.Length == BUFFERS && bufferIndices != freeBuffers
      modifies this`freeBuffersHead, this`free, this`owned, freeBuffers, dataBuffers, bufferIndices
      ensures Valid() && used <= old(|free|) && used <= BUFFERS
      ensures bufferIndices[..used] == old(free)[..used]
      ensures free == old(free)[used..] && owned == old(owned) + Members(old(free)[..used])
      ensures error == Ok ==>
                && Covers(used, bufferSize, mbuf.headerLength) && mbuf.headerLength <= |mbuf.bytes|
                && Gather(dataBuffers[..], bufferSize, old(free)[..used], mbuf.headerLength) == mbuf.bytes[..mbuf.headerLength]
      ensures error == NoMemory ==> used == old(|free|) && bufferSize * used < mbuf.headerLength
      ensures error == Invalid ==> used < old(|free|)
      ensures error == CopyResult(mbuf, bufferSize, old(|free|))
      ensures forall i :: i in old(owned) && i < BUFFERS ==> dataBuffers[i] == old(dataBuffers[i])
    {
      hide Partitioned;
      hide Scattered;
      hide Gather;
      hide Members;
      hide Covers;
      ghost var free0, owned0 := free, owned;
      FreeListFits(Snapshot(), free, owned, created);
      var residual, offsetInMbuf := mbuf.headerLength, 0;
      error, used := Ok, 0;
      NothingScattered(dataBuffers[..], bufferSize, mbuf);
      TakenNone(free0, owned0);
      while residual != 0
        invariant Valid()
        invariant used <= |free0| && residual + offsetInMbuf == mbuf.headerLength
        invariant bufferIndices[..used] == free0[..used] && free == free0[used..] && owned == owned0 + Members(free0[..used])
        invariant Scattered(dataBuffers[..], bufferSize, free0[..used], mbuf, offsetInMbuf)
        invariant forall k :: k in owned0 ==> dataBuffers[k] == old(dataBuffers[k])
        invariant error == Ok
        decreases residual
      {
        var buffer, bytesCopied;
        error, buffer, bytesCopied := FillOne(mbuf, residual, offsetInMbuf, free0[..used]);
        if error != Ok {
          break;
        }
        offsetInMbuf := offsetInMbuf + bytesCopied;
        residual := residual - bytesCopied;
        bufferIndices[used] := buffer;
        TakenOne(free0, used);
        used := used + 1;
      }
      ScatteredSoFar(dataBuffers[..], bufferSize, free0[..used], mbuf, offsetInMbuf);
      ResultIsForeseen(mbuf, bufferSize, |free0|, used, error);
    }

    /** Spreads the packet over free buffers, or gives back every buffer it has taken. */
    method CopyDataToBuffers(mbuf: Mbuf, bufferIndices: array<nat>) returns (error: Errno, ghost used: nat)
      requires Valid() && bufferIndices.Length == BUFFERS && bufferIndices != freeBuffers
      modifies this`freeBuffersHead, this`free, this`owned, freeBuffers, dataBuffers, bufferIndices
      ensures Valid() && used <= old(|free|) && used <= BUFFERS
      ensures bufferIndices[..used] == old(free)[..used] && Listed(bufferIndices[..]) == old(free)[..used]
      ensures error == Ok ==>
                && Covers(used, bufferSize, mbuf.headerLength) && mbuf.headerLength <= |mbuf.bytes|
                && free == old(free)[used..] && owned == old(owned) + Members(old(free)[..used])
                && Gather(dataBuffers[..], bufferSize, old(free)[..used], mbuf.headerLength) == mbuf.bytes[..mbuf.headerLength]
      ensures error != Ok ==> owned == old(owned) && free == Reverse(old(free)[..used]) + old(free)[used..]
      ensures error == NoMemory ==> used == old(|free|) && bufferSize * used < mbuf.headerLength
      ensures error == Invalid ==> used < old(|free|)
      ensures error == CopyResult(mbuf, bufferSize, old(|free|))
      ensures forall i :: i in old(owned) && i < BUFFERS ==> dataBuffers[i] == old(dataBuffers[i])
    {
      hide Partitioned;
      hide Gather;
      hide Covers;
      ghost var free0, owned0 := free, owned;
      FreeListFits(Snapshot(), free, owned, created);
      bufferIndices[0] := END;
      var i;
      error, i := FillBuffers(mbuf, bufferIndices);
      used := i;
      if i < BUFFERS {
        bufferIndices[i] := END;
      }
      assert bufferIndices[..][..i] == bufferIndices[..i] == free0[..i];
      ListedTaken(bufferIndices[..], free0, i);
      if error != Ok {
        ReleaseDataBuffers(bufferIndices);
        assert owned0 + Members(free0[..i]) - Members(free0[..i]) == owned0;
      }
    }

    /** FltData when the copy fails and nobody else uses the pool: it keeps the array and releases it once more. The pool
        survives that exactly if no buffer was free to begin with, or if the packet is shorter than its header says and
        ends before the buffers do. */
    method CopyAndReleaseOnError(mbuf: Mbuf, bufferIndices: array<nat>) returns (error: Errno)
      requires Valid() && bufferIndices.Length == BUFFERS && bufferIndices != freeBuffers
      modifies this`freeBuffersHead, this`free, this`owned, freeBuffers, dataBuffers, bufferIndices
      ensures error == CopyResult(mbuf, bufferSize, |old(free)|)
      ensures error == Ok ==> Valid()
      ensures error != Ok ==>
                (Sound(Snapshot(), old(owned), created) <==>
                   old(free) == [] || (|mbuf.bytes| < mbuf.headerLength && |mbuf.bytes| / bufferSize < |old(free)|))
    {
      hide Partitioned;
      hide Gather;
      ghost var free0 := free;
      ghost var used;
      error, used := CopyDataToBuffers(mbuf, bufferIndices);
      if error != Ok {
        FreeListFits(Snapshot(), free, owned, created);
        FreeWereCreated(Snapshot(), free, owned, created);
        assert forall i :: i in free0[..used] ==> i in free;
        SecondReleaseIsSafeIff(Snapshot(), free, owned, created, free0[..used]);
        SecondReleaseAtOnce(free0[..used], free0[used..]);
        ReleaseDataBuffers(bufferIndices);
      }
    }

    /** Releases the indices in front of the terminator, whatever they are. */
    method ReleaseDataBuffers(bufferIndices: array<nat>)
      requires Shaped() && bufferIndices.Length == BUFFERS && bufferIndices != freeBuffers
      modifies this`freeBuffersHead, this`free, this`owned, freeBuffers
      ensures Shaped() && Snapshot() == ReleaseAll(old(Snapshot()), Listed(bufferIndices[..]))
      ensures var list := Listed(bufferIndices[..]);
              old(Valid()) && Distinct(list) && Members(list) <= old(owned) ==>
                Valid() && free == Reverse(list) + old(free) && owned == old(owned) - Members(list)
    {
      hide Partitioned;
      ghost var p, free0, owned0, wasValid := Snapshot(), free, owned, Valid();
      for i := 0 to BUFFERS
        invariant Shaped()
        invariant ReleaseAll(p, Listed(bufferIndices[..])) == ReleaseAll(Snapshot(), Listed(bufferIndices[i..]))
      {
        if bufferIndices[i] == END {
          break;
        }
        ReleaseSocketDataBufferFromIO(bufferIndices[i]);
      }
      ghost var list := Listed(bufferIndices[..]);
      if wasValid && Distinct(list) && Members(list) <= owned0 {
        assert forall i :: i in list ==> i in Members(list);
        ReleaseAllKeeps(p, free0, owned0, created, list);
        free, owned := Reverse(list) + free0, owned0 - Members(list);
      }
    }
  }

  // the indices in front of the terminator
  ghost function Listed(bufferIndices: seq<nat>): seq<nat> {
    if bufferIndices == [] || bufferIndices[0] == END then [] else [bufferIndices[0]] + Listed(bufferIndices[1..])
  }

  lemma {:induction false} ListedPrefix(bufferIndices: seq<nat>, n: nat)
    requires n <= |bufferIndices| && (n < |bufferIndices| ==> bufferIndices[n] == END)
    requires forall k :: 0 <= k < n ==> bufferIndices[k] != END
    ensures Listed(bufferIndices) == bufferIndices[..n]
  {
    if n > 0 {
      ListedPrefix(bufferIndices[1..], n - 1);
      assert bufferIndices[..n] == [bufferIndices[0]] + bufferIndices[1..][..n - 1];
    }
  }

  // the terminated array lists the buffers taken from the free list
  lemma ListedTaken(bufferIndices: seq<nat>, free: seq<nat>, n: nat)
    requires n <= |bufferIndices| && n <= |free| && bufferIndices[..n] == free[..n]
    requires n < |bufferIndices| ==> bufferIndices[n] == END
    requires forall x :: x in free ==> x < BUFFERS
    ensures Listed(bufferIndices) == free[..n] && forall x :: x in free[..n] ==> x in free
  {
    forall k | 0 <= k < n ensures bufferIndices[k] != END {
      assert bufferIndices[k] == bufferIndices[..n][k] == free[k] && free[k] in free;
    }
    ListedPrefix(bufferIndices, n);
  }

  lemma TakenNone(free: seq<nat>, owned: set<nat>)
    ensures free[..0] == [] && free[0..] == free && owned + Members(free[..0]) == owned
  {
  }

  // the next buffer of the free list is taken
  lemma TakenOne(free: seq<nat>, k: nat)
    requires k < |free|
    ensures free[..k + 1] == free[..k] + [free[k]] && free[k..][0] == free[k] && free[k..][1..] == free[k + 1..]
    ensures Members(free[..k + 1]) == Members(free[..k]) + {free[k]}
  {
    assert free[..k + 1] == free[..k] + [free[k]];
  }

  lemma ScatteredSoFar(contents: seq<seq<byte>>, size: nat, indices: seq<nat>, mbuf: Mbuf, offset: nat)
    requires Scattered(contents, size, indices, mbuf, offset)
    ensures offset == mbuf.headerLength ==>
              && Covers(|indices|, size, offset) && offset <= |mbuf.bytes|
              && Gather(contents, size, indices, offset) == mbuf.bytes[..offset]
    ensures offset < mbuf.headerLength ==> offset == size * |indices| <= |mbuf.bytes| && size * (|indices| + 1) == offset + size
  {
    CapacityIsProduct(size, |indices|);
    CapacityIsProduct(size, |indices| + 1);
  }

  lemma NothingScattered(contents: seq<seq<byte>>, size: nat, mbuf: Mbuf)
    requires forall i :: 0 <= i < |contents| ==> |contents[i]| == size
    ensures Scattered(contents, size, [], mbuf, 0)
  {
  }
}

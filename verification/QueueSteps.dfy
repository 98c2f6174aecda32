/**
 The notification ring under concurrency: one producer (the queue lock serializes producers) that reads
 the head once and then works with that stale value, and one consumer that may move the head at any moment.
 Every memory byte is written and read in a step of its own, memory being sequentially consistent.
 */
module QueueSteps {
  import opened Bytes
  import opened DataQueue

  datatype Producer =
    | Idle
    | Loaded(head0: nat, data: Message)
    | Writing(head0: nat, data: Message, done: nat)
    | Stored(head0: nat, tail0: nat)

  datatype Consumer =
    | Awake
    | Seen
    | Sizing(at: nat, atHead: bool, loaded: seq<byte>)
    | Copying(at: nat, size: nat, buffer: seq<byte>)
    | Asleep

  /** accepted and delivered record every message enqueued and dequeued so far. */
  datatype State = State(ring: Ring, producer: Producer, consumer: Consumer, message: bool,
                         accepted: seq<Message>, delivered: seq<Message>)

  datatype Event =
    | ReadOffsets(data: Message) | Refuse | Begin | WriteByte | StoreTail | Notify
    | Look | Locate | LoadByte | Measure | CopyByte | StoreHead | Wake

  // ---------------------------------------------------------------- the producer's byte stores, in program order

  function Block(at: nat, bytes: seq<byte>): (stores: seq<(nat, byte)>)
    ensures |stores| == |bytes|
    ensures forall i :: 0 <= i < |bytes| ==> stores[i] == (at + i, bytes[i])
  {
    seq(|bytes|, i requires 0 <= i < |bytes| => (at + i, bytes[i]))
  }

  function Stores(queueSize: nat, tail: nat, place: Placement, data: Message): seq<(nat, byte)>
    requires |data| < UINT32_LIMIT
  {
    var size := StoreUInt32(|data|);
    match place
    case AtTail => Block(tail, size) + Block(tail + HEADER, data)
    case AtStart => Block(0, size) + (if tail + HEADER <= queueSize then Block(tail, size) else []) + Block(HEADER, data)
    case Full => []
  }

  function PlaceOf(s: State): Placement
    requires s.producer.Loaded? || s.producer.Writing?
  {
    Place(|s.ring.mem|, s.producer.head0, s.ring.tail, EntrySize(s.producer.data))
  }

  function StoresOf(s: State): seq<(nat, byte)>
    requires (s.producer.Loaded? || s.producer.Writing?) && |s.producer.data| < UINT32_LIMIT
  {
    Stores(|s.ring.mem|, s.ring.tail, PlaceOf(s), s.producer.data)
  }

  // ---------------------------------------------------------------- steps

  predicate Enabled(s: State, e: Event) {
    match e
    case ReadOffsets(data) => s.producer.Idle? && Fits32(|s.ring.mem|, data)
    case Refuse => s.producer.Loaded? && PlaceOf(s) == Full
    case Begin => s.producer.Loaded? && PlaceOf(s) != Full
    case WriteByte =>
      && s.producer.Writing? && |s.producer.data| < UINT32_LIMIT && s.producer.done < |StoresOf(s)|
      && StoresOf(s)[s.producer.done].0 < |s.ring.mem|
    case StoreTail => s.producer.Writing? && |s.producer.data| < UINT32_LIMIT && s.producer.done == |StoresOf(s)|
    case Notify => s.producer.Stored?
    case Look => s.consumer.Awake?
    case Locate => s.consumer.Seen?
    case LoadByte => s.consumer.Sizing? && |s.consumer.loaded| < HEADER && s.consumer.at + |s.consumer.loaded| < |s.ring.mem|
    case Measure => s.consumer.Sizing? && |s.consumer.loaded| == HEADER
    case CopyByte =>
      && s.consumer.Copying? && |s.consumer.buffer| < s.consumer.size
      && s.consumer.at + HEADER + |s.consumer.buffer| < |s.ring.mem|
    case StoreHead => s.consumer.Copying? && |s.consumer.buffer| == s.consumer.size
    case Wake => s.consumer.Asleep? && s.message
  }

  function Apply(s: State, e: Event): State
    requires Enabled(s, e)
  {
    var r := s.ring;
    match e
    case ReadOffsets(data) => s.(producer := Loaded(r.head, data))
    case Refuse => s.(producer := Idle)
    case Begin => s.(producer := Writing(s.producer.head0, s.producer.data, 0))
    case WriteByte =>
      var (at, b) := StoresOf(s)[s.producer.done];
      s.(ring := r.(mem := r.mem[at := b]), producer := s.producer.(done := s.producer.done + 1))
    case StoreTail =>
      var size := EntrySize(s.producer.data);
      s.(ring := r.(tail := if PlaceOf(s) == AtStart then size else r.tail + size),
         producer := Stored(s.producer.head0, r.tail), accepted := s.accepted + [s.producer.data])
    case Notify =>
      s.(message := s.message || s.producer.head0 == s.producer.tail0 || r.head == s.producer.tail0, producer := Idle)
    case Look => s.(consumer := if r.head == r.tail then Asleep else Seen)
    case Locate => s.(consumer := if r.head + HEADER > |r.mem| then Sizing(0, false, []) else Sizing(r.head, true, []))
    case LoadByte =>
      s.(consumer := s.consumer.(loaded := s.consumer.loaded + [r.mem[s.consumer.at + |s.consumer.loaded|]]))
    case Measure =>
      var size := LoadUInt32(s.consumer.loaded, 0);
      s.(consumer := if s.consumer.atHead && r.head + size + HEADER > |r.mem| then Sizing(0, false, [])
                     else Copying(s.consumer.at, size, []))
    case CopyByte =>
      s.(consumer := s.consumer.(buffer := s.consumer.buffer + [r.mem[s.consumer.at + HEADER + |s.consumer.buffer|]]))
    case StoreHead =>
      s.(ring := r.(head := s.consumer.at + s.consumer.size + HEADER), consumer := Awake,
         delivered := s.delivered + [s.consumer.buffer])
    case Wake => s.(consumer := Awake, message := false)
  }

  // ---------------------------------------------------------------- the invariant

  /** What an out-of-date head still says about the layout. */
  ghost predicate Stale(head0: nat, r: Ring, lo: seq<Message>) {
    && head0 <= |r.mem|
    && (head0 <= r.tail ==> lo == [] && head0 <= r.head)
    && (head0 > r.tail && lo != [] ==> head0 <= r.head)
  }

  /** The message just published is the newest one in the ring, and it lies behind offset tail0, or at the start of the area if the
      producer has wrapped at tail0; or it has been consumed already. */
  ghost predicate Newest(r: Ring, hi: seq<Message>, lo: seq<Message>, wrap: nat, tail0: nat, data: Message) {
    || (hi + lo == [] && r.tail != tail0)
    || (lo == [] && hi != [] && hi[|hi| - 1] == data && r.tail == tail0 + EntrySize(data))
    || (|lo| > 1 && lo[|lo| - 1] == data && r.tail == tail0 + EntrySize(data))
    || (lo == [data] && wrap == tail0)
  }

  ghost predicate ProducerInv(s: State, hi: seq<Message>, lo: seq<Message>, wrap: nat) {
    match s.producer
    case Idle => true
    case Loaded(head0, data) => Fits32(|s.ring.mem|, data) && Stale(head0, s.ring, lo)
    case Writing(head0, data, done) =>
      && Fits32(|s.ring.mem|, data) && Stale(head0, s.ring, lo) && PlaceOf(s) != Full
      && done <= |StoresOf(s)|
      && forall j :: 0 <= j < done ==> StoresOf(s)[j].0 < |s.ring.mem| && s.ring.mem[StoresOf(s)[j].0] == StoresOf(s)[j].1
    case Stored(head0, tail0) => s.accepted != [] && Newest(s.ring, hi, lo, wrap, tail0, s.accepted[|s.accepted| - 1])
  }

  ghost predicate ConsumerInv(s: State, hi: seq<Message>, lo: seq<Message>) {
    match s.consumer
    case Awake => true
    case Seen => hi + lo != []
    case Sizing(at, atHead, loaded) =>
      && hi + lo != [] && at == (if atHead then s.ring.head else 0) && at + HEADER <= |s.ring.mem|
      && (!atHead ==> hi == []) && |(hi + lo)[0]| < UINT32_LIMIT && loaded <= StoreUInt32(|(hi + lo)[0]|)
    case Copying(at, size, buffer) =>
      && hi + lo != [] && at == (if hi == [] then 0 else s.ring.head)
      && size == |(hi + lo)[0]| && buffer <= (hi + lo)[0]
    case Asleep => hi + lo == [] || s.message || (s.producer.Stored? && s.ring.head == s.producer.tail0)
  }

  ghost predicate Inv(s: State, hi: seq<Message>, lo: seq<Message>, wrap: nat) {
    && Layout(s.ring, hi, lo, wrap)
    && ProducerInv(s, hi, lo, wrap) && ConsumerInv(s, hi, lo)
    && s.accepted == s.delivered + (hi + lo)
  }

  // ---------------------------------------------------------------- the free region

  /** Where the producer may write, given the layout as it is now. */
  predicate Free(s: State, i: nat)
    requires s.producer.Loaded? || s.producer.Writing?
  {
    var tail, size := s.ring.tail, EntrySize(s.producer.data);
    match PlaceOf(s)
    case AtTail => tail <= i < tail + size
    case AtStart => 0 <= i < size || tail <= i < tail + HEADER <= |s.ring.mem|
    case Full => false
  }

  /** However far the consumer has moved on, the region chosen from the stale head holds no live byte. */
  lemma StalePlaceIsFree(s: State, hi: seq<Message>, lo: seq<Message>, wrap: nat)
    requires Layout(s.ring, hi, lo, wrap)
    requires (s.producer.Loaded? || s.producer.Writing?) && Stale(s.producer.head0, s.ring, lo)
    ensures PlaceOf(s) == AtTail ==> if lo == [] then s.ring.tail + EntrySize(s.producer.data) <= |s.ring.mem|
                                     else s.ring.tail + EntrySize(s.producer.data) < s.ring.head
    ensures PlaceOf(s) == AtStart ==> lo == [] && EntrySize(s.producer.data) < s.ring.head <= s.ring.tail
  {
    hide LoadUInt32;
    ChainBounds(s.ring.mem, s.ring.head, wrap, hi);
  }

  lemma StoresAreFree(s: State, hi: seq<Message>, lo: seq<Message>, wrap: nat, j: nat)
    requires Inv(s, hi, lo, wrap) && s.producer.Writing? && j < |StoresOf(s)|
    ensures Free(s, StoresOf(s)[j].0) && StoresOf(s)[j].0 < |s.ring.mem|
  {
    hide LoadUInt32;
    hide StoreUInt32;
    StalePlaceIsFree(s, hi, lo, wrap);
  }

  /** No address is stored to twice. */
  lemma StoresAreDistinct(s: State, hi: seq<Message>, lo: seq<Message>, wrap: nat, i: nat, j: nat)
    requires Inv(s, hi, lo, wrap) && s.producer.Writing? && i < j < |StoresOf(s)|
    ensures StoresOf(s)[i].0 != StoresOf(s)[j].0
  {
    hide LoadUInt32;
    hide StoreUInt32;
    StalePlaceIsFree(s, hi, lo, wrap);
  }

  /** The layout does not depend on a free byte. */
  lemma FreeByteKeepsLayout(s: State, hi: seq<Message>, lo: seq<Message>, wrap: nat, at: nat, b: byte)
    requires Inv(s, hi, lo, wrap) && s.producer.Writing? && Free(s, at) && at < |s.ring.mem|
    ensures Layout(s.ring.(mem := s.ring.mem[at := b]), hi, lo, wrap)
  {
    hide LoadUInt32;
    var r := s.ring;
    var mem' := r.mem[at := b];
    StalePlaceIsFree(s, hi, lo, wrap);
    ChainFrame(r.mem, mem', r.head, wrap, hi);
    if lo != [] {
      ChainFrame(r.mem, mem', 0, r.tail, lo);
      if wrap + HEADER <= |r.mem| {
        LoadSameBytes(r.mem, mem', wrap);
      }
    }
  }

  lemma WriteByteKeeps(s: State, hi: seq<Message>, lo: seq<Message>, wrap: nat)
    requires Inv(s, hi, lo, wrap) && Enabled(s, WriteByte)
    ensures Inv(Apply(s, WriteByte), hi, lo, wrap)
  {
    hide Layout;
    hide Stores;
    hide Place;
    hide Stale;
    var done := s.producer.done;
    var (at, b) := StoresOf(s)[done];
    StoresAreFree(s, hi, lo, wrap, done);
    FreeByteKeepsLayout(s, hi, lo, wrap, at, b);
    var s' := Apply(s, WriteByte);
    assert Stale(s.producer.head0, s'.ring, lo) by {
      assert Stale(s.producer.head0, s.ring, lo);
      StaleIgnoresBytes(s.producer.head0, s.ring, s'.ring, lo);
    }
    assert StoresOf(s') == StoresOf(s);
    forall j | 0 <= j < done + 1
      ensures StoresOf(s)[j].0 < |s'.ring.mem| && s'.ring.mem[StoresOf(s)[j].0] == StoresOf(s)[j].1
    {
      if j < done {
        StoresAreDistinct(s, hi, lo, wrap, j, done);
      }
    }
  }

  lemma StaleIgnoresBytes(head0: nat, r: Ring, r': Ring, lo: seq<Message>)
    requires Stale(head0, r, lo) && r'.head == r.head && r'.tail == r.tail && |r'.mem| == |r.mem|
    ensures Stale(head0, r', lo)
  {
  }

  /** Every store of the producer has reached the memory. */
  ghost predicate Reached(mem: seq<byte>, stores: seq<(nat, byte)>) {
    forall j :: 0 <= j < |stores| ==> stores[j].0 < |mem| && mem[stores[j].0] == stores[j].1
  }

  lemma EntryStored(mem: seq<byte>, tail: nat, data: Message)
    requires tail + EntrySize(data) <= |mem| && |data| < UINT32_LIMIT
    requires Reached(mem, Stores(|mem|, tail, AtTail, data))
    ensures HasEntry(mem, tail, data)
  {
    hide LoadUInt32;
    hide StoreUInt32;
    var size, stores := StoreUInt32(|data|), Stores(|mem|, tail, AtTail, data);
    BlockStored(mem, stores, 0, tail, size);
    BlockStored(mem, stores, HEADER, tail + HEADER, data);
    WrittenEntry(mem, mem, tail, data);
  }

  lemma WrappedStored(mem: seq<byte>, tail: nat, data: Message)
    requires EntrySize(data) <= |mem| && tail <= |mem| && |data| < UINT32_LIMIT
    requires Reached(mem, Stores(|mem|, tail, AtStart, data))
    ensures HasEntry(mem, 0, data) && (tail + HEADER <= |mem| ==> LoadUInt32(mem, tail) == |data|)
  {
    hide LoadUInt32;
    hide StoreUInt32;
    var size, stores := StoreUInt32(|data|), Stores(|mem|, tail, AtStart, data);
    BlockStored(mem, stores, 0, 0, size);
    if tail + HEADER <= |mem| {
      BlockStored(mem, stores, HEADER, tail, size);
      LoadStoredUInt32(mem, tail, |data|);
    }
    BlockStored(mem, stores, |stores| - |data|, HEADER, data);
    WrittenEntry(mem, mem, 0, data);
  }

  /** Once every byte is stored, the entry (and the mark) can be read back. */
  lemma AllStored(s: State, hi: seq<Message>, lo: seq<Message>, wrap: nat)
    requires Inv(s, hi, lo, wrap) && Enabled(s, StoreTail)
    ensures PlaceOf(s) == AtTail ==> HasEntry(s.ring.mem, s.ring.tail, s.producer.data)
    ensures PlaceOf(s) == AtStart ==> HasEntry(s.ring.mem, 0, s.producer.data) && Mark(s.ring.mem, s.ring.tail, |s.producer.data|)
  {
    StalePlaceIsFree(s, hi, lo, wrap);
    hide LoadUInt32;
    hide StoreUInt32;
    hide Stores;
    hide Layout;
    assert Reached(s.ring.mem, StoresOf(s));
    if PlaceOf(s) == AtTail {
      EntryStored(s.ring.mem, s.ring.tail, s.producer.data);
    } else {
      WrappedStored(s.ring.mem, s.ring.tail, s.producer.data);
    }
  }

  lemma BlockStored(mem: seq<byte>, stores: seq<(nat, byte)>, from: nat, at: nat, bytes: seq<byte>)
    requires at + |bytes| <= |mem| && from + |bytes| <= |stores|
    requires stores[from..from + |bytes|] == Block(at, bytes)
    requires Reached(mem, stores)
    ensures mem[at..at + |bytes|] == bytes
  {
    forall i | 0 <= i < |bytes| ensures mem[at + i] == bytes[i] {
      assert stores[from + i] == stores[from..from + |bytes|][i] == Block(at, bytes)[i];
    }
  }

  // the new layout
  lemma StoreTailLayout(s: State, hi: seq<Message>, lo: seq<Message>, wrap: nat)
    returns (hi': seq<Message>, lo': seq<Message>, wrap': nat)
    requires Inv(s, hi, lo, wrap) && Enabled(s, StoreTail)
    ensures var r', data := Apply(s, StoreTail).ring, s.producer.data;
            Layout(r', hi', lo', wrap') && hi' + lo' == (hi + lo) + [data] && Newest(r', hi', lo', wrap', s.ring.tail, data)
    ensures hi + lo != [] ==> (hi' == [] <==> hi == []) && (hi' + lo')[0] == (hi + lo)[0]
  {
    hide LoadUInt32;
    hide Stores;
    hide Chain;
    var r, data := s.ring, s.producer.data;
    AllStored(s, hi, lo, wrap);
    StalePlaceIsFree(s, hi, lo, wrap);
    hide HasEntry;
    if PlaceOf(s) == AtStart {
      AppendAtStart(r, r.mem, data, hi, wrap);
      hi', lo', wrap' := hi, [data], wrap;
    } else {
      AppendAtTail(r, r.mem, data, hi, lo, wrap);
      if lo == [] {
        hi', lo', wrap' := hi + [data], [], r.tail + EntrySize(data);
      } else {
        hi', lo', wrap' := hi, lo + [data], wrap;
      }
    }
    assert hi' + lo' == (hi + lo) + [data];
  }

  // what the consumer relies on
  lemma StoreTailConsumer(s: State, hi: seq<Message>, lo: seq<Message>, hi': seq<Message>, lo': seq<Message>)
    requires Enabled(s, StoreTail) && ConsumerInv(s, hi, lo) && hi' + lo' == (hi + lo) + [s.producer.data]
    requires hi + lo == [] <==> s.ring.head == s.ring.tail
    requires hi + lo != [] ==> (hi' == [] <==> hi == []) && (hi' + lo')[0] == (hi + lo)[0]
    ensures ConsumerInv(Apply(s, StoreTail), hi', lo')
  {
    hide LoadUInt32;
    hide StoreUInt32;
    hide Stores;
  }

  /** The tail store publishes the message; a sleeping consumer is owed a notification from here on. */
  lemma StoreTailKeeps(s: State, hi: seq<Message>, lo: seq<Message>, wrap: nat)
    returns (hi': seq<Message>, lo': seq<Message>, wrap': nat)
    requires Inv(s, hi, lo, wrap) && Enabled(s, StoreTail)
    ensures Inv(Apply(s, StoreTail), hi', lo', wrap')
  {
    hi', lo', wrap' := StoreTailLayout(s, hi, lo, wrap);
    LayoutHolds(s.ring, hi + lo, hi, lo, wrap);
    EmptyIff(s.ring, hi + lo);
    StoreTailConsumer(s, hi, lo, hi', lo');
    hide LoadUInt32;
    hide Stores;
    hide Layout;
    hide Newest;
    hide ConsumerInv;
    hide Holds;
  }

  // ---------------------------------------------------------------- the consumer

  lemma LookKeeps(s: State, hi: seq<Message>, lo: seq<Message>, wrap: nat)
    requires Inv(s, hi, lo, wrap) && Enabled(s, Look)
    ensures Inv(Apply(s, Look), hi, lo, wrap)
  {
    hide LoadUInt32;
    hide Chain;
    LayoutHolds(s.ring, hi + lo, hi, lo, wrap);
    EmptyIff(s.ring, hi + lo);
  }

  /** The size in front of an entry, or in the mark of a wrap, is the size of the oldest message. */
  lemma SizeIsStored(r: Ring, hi: seq<Message>, lo: seq<Message>, wrap: nat, atHead: bool)
    requires Layout(r, hi, lo, wrap) && hi + lo != [] && (!atHead ==> hi == [])
    ensures var at := if atHead then r.head else 0;
            at + HEADER <= |r.mem| ==> |(hi + lo)[0]| < UINT32_LIMIT && r.mem[at..at + HEADER] == StoreUInt32(|(hi + lo)[0]|)
    ensures !atHead ==> HEADER <= |r.mem|
    ensures r.head + HEADER > |r.mem| ==> hi == []
  {
    hide StoreUInt32;
    hide LoadUInt32;
    var at := if atHead then r.head else 0;
    if hi != [] {
      ChainBounds(r.mem, r.head + EntrySize(hi[0]), wrap, hi[1..]);
    }
    if at + HEADER <= |r.mem| {
      StoreLoaded(r.mem, at);
    }
  }

  lemma LocateKeeps(s: State, hi: seq<Message>, lo: seq<Message>, wrap: nat)
    requires Inv(s, hi, lo, wrap) && s.consumer.Seen?
    ensures Enabled(s, Locate) && Inv(Apply(s, Locate), hi, lo, wrap)
  {
    hide LoadUInt32;
    hide Layout;
    SizeIsStored(s.ring, hi, lo, wrap, true);
    if s.ring.head + HEADER > |s.ring.mem| {
      SizeIsStored(s.ring, hi, lo, wrap, false);
    }
  }

  lemma LoadByteKeeps(s: State, hi: seq<Message>, lo: seq<Message>, wrap: nat)
    requires Inv(s, hi, lo, wrap) && Enabled(s, LoadByte)
    ensures Inv(Apply(s, LoadByte), hi, lo, wrap)
  {
    hide LoadUInt32;
    hide StoreUInt32;
    hide Layout;
    var at, loaded, k := s.consumer.at, s.consumer.loaded, |s.consumer.loaded|;
    SizeIsStored(s.ring, hi, lo, wrap, s.consumer.atHead);
    assert s.ring.mem[at..at + HEADER][k] == s.ring.mem[at + k];
    assert loaded + [s.ring.mem[at + k]] <= StoreUInt32(|(hi + lo)[0]|);
  }

  lemma MeasureKeeps(s: State, hi: seq<Message>, lo: seq<Message>, wrap: nat)
    requires Inv(s, hi, lo, wrap) && Enabled(s, Measure)
    ensures Inv(Apply(s, Measure), hi, lo, wrap)
  {
    hide LoadUInt32;
    hide StoreUInt32;
    hide Layout;
    var first := (hi + lo)[0];
    assert s.consumer.loaded == StoreUInt32(|first|) && s.consumer.loaded[0..HEADER] == s.consumer.loaded;
    LoadStoredUInt32(s.consumer.loaded, 0, |first|);
    ConsumerFindsWrap(s.ring, hi, lo, wrap);
    if s.consumer.atHead && s.ring.head + |first| + HEADER > |s.ring.mem| {
      SizeIsStored(s.ring, hi, lo, wrap, false);
    }
  }

  lemma CopyByteKeeps(s: State, hi: seq<Message>, lo: seq<Message>, wrap: nat)
    requires Inv(s, hi, lo, wrap) && Enabled(s, CopyByte)
    ensures Inv(Apply(s, CopyByte), hi, lo, wrap)
  {
    hide LoadUInt32;
    hide Layout;
    ConsumerFindsWrap(s.ring, hi, lo, wrap);
    var first, at, n := (hi + lo)[0], s.consumer.at, |s.consumer.buffer|;
    assert s.ring.mem[at + HEADER..at + EntrySize(first)][n] == s.ring.mem[at + HEADER + n];
  }

  // the new layout
  lemma StoreHeadLayout(s: State, hi: seq<Message>, lo: seq<Message>, wrap: nat)
    returns (hi': seq<Message>, lo': seq<Message>, wrap': nat)
    requires Inv(s, hi, lo, wrap) && Enabled(s, StoreHead)
    ensures var r' := Apply(s, StoreHead).ring;
            && Layout(r', hi', lo', wrap') && hi + lo == [s.consumer.buffer] + (hi' + lo')
            && r' == s.ring.(head := r'.head)
            && (if hi != [] then hi' == hi[1..] && lo' == lo && wrap' == wrap && r'.head >= s.ring.head
                else hi' == lo[1..] && lo' == [] && wrap' == s.ring.tail && lo != [])
  {
    hide LoadUInt32;
    hide Chain;
    hide Stores;
    ConsumerFindsWrap(s.ring, hi, lo, wrap);
    Advance(s.ring, hi, lo, wrap);
    hide HasEntry;
    hi', lo', wrap' := if hi != [] then hi[1..] else lo[1..], if hi != [] then lo else [], if hi != [] then wrap else s.ring.tail;
    assert hi + lo == [(hi + lo)[0]] + (hi' + lo');
    assert s.consumer.buffer == (hi + lo)[0];
  }

  // what the producer relies on survives
  lemma HeadMoved(r: Ring, hi: seq<Message>, lo: seq<Message>, wrap: nat, r': Ring, hi': seq<Message>, lo': seq<Message>, wrap': nat,
                  offset: nat, data: Message)
    requires r' == r.(head := r'.head) && Layout(r, hi, lo, wrap)
    requires if hi != [] then hi' == hi[1..] && lo' == lo && wrap' == wrap && r'.head >= r.head
             else lo != [] && hi' == lo[1..] && lo' == [] && wrap' == r.tail
    ensures Stale(offset, r, lo) ==> Stale(offset, r', lo')
    ensures Newest(r, hi, lo, wrap, offset, data) ==> Newest(r', hi', lo', wrap', offset, data)
  {
    hide Chain;
    hide LoadUInt32;
  }

  lemma ProducerGoesOn(s: State, hi: seq<Message>, lo: seq<Message>, wrap: nat, hi': seq<Message>, lo': seq<Message>, wrap': nat)
    requires Inv(s, hi, lo, wrap) && Enabled(s, StoreHead)
    requires if hi != [] then hi' == hi[1..] && lo' == lo && wrap' == wrap && Apply(s, StoreHead).ring.head >= s.ring.head
             else lo != [] && hi' == lo[1..] && lo' == [] && wrap' == s.ring.tail
    ensures ProducerInv(Apply(s, StoreHead), hi', lo', wrap')
  {
    var r' := Apply(s, StoreHead).ring;
    match s.producer {
      case Loaded(head0, data) => HeadMoved(s.ring, hi, lo, wrap, r', hi', lo', wrap', head0, data);
      case Writing(head0, data, _) => HeadMoved(s.ring, hi, lo, wrap, r', hi', lo', wrap', head0, data);
      case Stored(_, tail0) => HeadMoved(s.ring, hi, lo, wrap, r', hi', lo', wrap', tail0, s.accepted[|s.accepted| - 1]);
      case _ =>
    }
    hide LoadUInt32;
    hide Layout;
    hide Stores;
    hide Stale;
    hide Newest;
  }

  lemma StoreHeadKeeps(s: State, hi: seq<Message>, lo: seq<Message>, wrap: nat)
    returns (hi': seq<Message>, lo': seq<Message>, wrap': nat)
    requires Inv(s, hi, lo, wrap) && Enabled(s, StoreHead)
    ensures Inv(Apply(s, StoreHead), hi', lo', wrap')
  {
    hi', lo', wrap' := StoreHeadLayout(s, hi, lo, wrap);
    ProducerGoesOn(s, hi, lo, wrap, hi', lo', wrap');
    hide LoadUInt32;
    hide Layout;
    hide Stores;
    hide ProducerInv;
    assert s.delivered + ([s.consumer.buffer] + (hi' + lo')) == (s.delivered + [s.consumer.buffer]) + (hi' + lo');
  }

  /** Every step of either side keeps the invariant. */
  lemma StepKeeps(s: State, e: Event, hi: seq<Message>, lo: seq<Message>, wrap: nat)
    returns (hi': seq<Message>, lo': seq<Message>, wrap': nat)
    requires Inv(s, hi, lo, wrap) && Enabled(s, e)
    ensures Inv(Apply(s, e), hi', lo', wrap')
  {
    hide LoadUInt32;
    hide Chain;
    hide Stores;
    hi', lo', wrap' := hi, lo, wrap;
    match e
    case WriteByte => WriteByteKeeps(s, hi, lo, wrap);
    case StoreTail => hi', lo', wrap' := StoreTailKeeps(s, hi, lo, wrap);
    case Look => LookKeeps(s, hi, lo, wrap);
    case Locate => LocateKeeps(s, hi, lo, wrap);
    case LoadByte => LoadByteKeeps(s, hi, lo, wrap);
    case Measure => MeasureKeeps(s, hi, lo, wrap);
    case CopyByte => CopyByteKeeps(s, hi, lo, wrap);
    case StoreHead => hi', lo', wrap' := StoreHeadKeeps(s, hi, lo, wrap);
    case ReadOffsets(data) => ChainBounds(s.ring.mem, s.ring.head, wrap, hi);
    case _ =>
  }

  // ---------------------------------------------------------------- whole runs

  ghost predicate IsRun(states: seq<State>, events: seq<Event>) {
    && |states| == |events| + 1
    && forall i :: 0 <= i < |events| ==> Enabled(states[i], events[i]) && states[i + 1] == Apply(states[i], events[i])
  }

  predicate Fresh(s: State) {
    s.ring.head == s.ring.tail == 0 && s.producer.Idle? && s.consumer.Awake? && !s.message && s.accepted == s.delivered == []
  }

  lemma {:induction false} RunKeeps(states: seq<State>, events: seq<Event>)
    returns (hi: seq<Message>, lo: seq<Message>, wrap: nat)
    requires IsRun(states, events) && Fresh(states[0])
    ensures Inv(states[|events|], hi, lo, wrap)
    decreases |events|
  {
    hide Enabled;
    hide Apply;
    if events == [] {
      hi, lo, wrap := [], [], 0;
    } else {
      var n := |events| - 1;
      hi, lo, wrap := RunKeeps(states[..|events|], events[..n]);
      hi, lo, wrap := StepKeeps(states[n], events[n], hi, lo, wrap);
    }
  }

  /** Whatever the interleaving, accepted messages are exactly the delivered ones followed by those in the ring. */
  lemma ConcurrentRunIsFifo(states: seq<State>, events: seq<Event>) returns (held: seq<Message>)
    requires IsRun(states, events) && Fresh(states[0])
    ensures var s := states[|events|]; Holds(s.ring, held) && s.accepted == s.delivered + held
  {
    hide Layout;
    var hi, lo, wrap := RunKeeps(states, events);
    LayoutHolds(states[|events|].ring, hi + lo, hi, lo, wrap);
    held := hi + lo;
  }

  /** A consumer that saw the ring empty and went to sleep is never left sleeping over a message:
      a notification is pending, or the producer is about to send one. */
  lemma NoLostWakeup(states: seq<State>, events: seq<Event>)
    requires IsRun(states, events) && Fresh(states[0])
    ensures var s := states[|events|];
            s.consumer.Asleep? && s.ring.head != s.ring.tail ==>
              s.message || (Enabled(s, Notify) && Apply(s, Notify).message)
  {
    hide LoadUInt32;
    hide Chain;
    var hi, lo, wrap := RunKeeps(states, events);
    var s := states[|events|];
    LayoutHolds(s.ring, hi + lo, hi, lo, wrap);
    EmptyIff(s.ring, hi + lo);
  }

  /** Neither side is ever stuck in the middle of an operation: no byte access leaves the queue area. */
  lemma NeverStuck(states: seq<State>, events: seq<Event>)
    requires IsRun(states, events) && Fresh(states[0])
    ensures var s := states[|events|];
            && (s.producer.Writing? ==> Enabled(s, WriteByte) || Enabled(s, StoreTail))
            && (s.consumer.Seen? ==> Enabled(s, Locate))
            && (s.consumer.Sizing? ==> Enabled(s, LoadByte) || Enabled(s, Measure))
            && (s.consumer.Copying? ==> Enabled(s, CopyByte) || Enabled(s, StoreHead))
  {
    hide LoadUInt32;
    hide Layout;
    hide Stores;
    var hi, lo, wrap := RunKeeps(states, events);
    var s := states[|events|];
    if s.producer.Writing? && s.producer.done < |StoresOf(s)| {
      StoresAreFree(s, hi, lo, wrap, s.producer.done);
    }
    if s.consumer.Seen? || s.consumer.Copying? {
      ConsumerFindsWrap(s.ring, hi, lo, wrap);
    }
  }

  // ---------------------------------------------------------------- what the producer answers

  predicate OfProducer(e: Event) {
    e.ReadOffsets? || e.Refuse? || e.Begin? || e.WriteByte? || e.StoreTail? || e.Notify?
  }

  /** Step k reads the offsets for the call that the producer is in before step n. */
  ghost predicate CallSince(states: seq<State>, events: seq<Event>, k: nat, n: nat) {
    && k < n <= |events| && |states| == |events| + 1 && events[k].ReadOffsets?
    && (forall j :: k < j < n ==> !events[j].ReadOffsets?)
    && |states[n].ring.mem| == |states[k].ring.mem|
    && match states[n].producer
       case Idle => false
       case Loaded(head0, data) =>
         && data == events[k].data && head0 == states[k].ring.head && states[n].ring.tail == states[k].ring.tail
         && states[n].accepted == states[k].accepted
       case Writing(head0, data, _) =>
         && data == events[k].data && head0 == states[k].ring.head && states[n].ring.tail == states[k].ring.tail
         && states[n].accepted == states[k].accepted
       case Stored(head0, tail0) =>
         && head0 == states[k].ring.head && tail0 == states[k].ring.tail && states[n].accepted == states[k].accepted + [events[k].data]
  }

  // what one step does to the call
  lemma CallStep(s: State, e: Event)
    requires Enabled(s, e)
    ensures var s' := Apply(s, e);
            && |s'.ring.mem| == |s.ring.mem|
            && (!OfProducer(e) ==> s'.producer == s.producer && s'.ring.tail == s.ring.tail && s'.accepted == s.accepted)
            && (e.ReadOffsets? ==> s.producer.Idle? && s'.producer == Loaded(s.ring.head, e.data) && s'.ring == s.ring && s'.accepted == s.accepted)
            && (e.Begin? ==> s.producer.Loaded? && s'.producer == Writing(s.producer.head0, s.producer.data, 0)
                             && s'.ring == s.ring && s'.accepted == s.accepted)
            && (e.WriteByte? ==> s.producer.Writing? && s'.producer.Writing? && s'.producer.head0 == s.producer.head0
                                 && s'.producer.data == s.producer.data && s'.ring.tail == s.ring.tail && s'.accepted == s.accepted)
            && (e.StoreTail? ==> s.producer.Writing? && s'.producer == Stored(s.producer.head0, s.ring.tail)
                                 && s'.accepted == s.accepted + [s.producer.data])
            && (e.Refuse? || e.Notify? ==> s'.producer.Idle?)
  {
    hide Stores;
    hide LoadUInt32;
  }

  lemma {:induction false} CallBegan(states: seq<State>, events: seq<Event>, n: nat) returns (k: nat)
    requires IsRun(states, events) && Fresh(states[0]) && n <= |events| && !states[n].producer.Idle?
    ensures CallSince(states, events, k, n)
    decreases n
  {
    CallStep(states[n - 1], events[n - 1]);
    hide Apply;
    hide Enabled;
    k := n - 1;
    if !events[n - 1].ReadOffsets? {
      k := CallBegan(states, events, n - 1);
    }
  }

  lemma RunKeepsUntil(states: seq<State>, events: seq<Event>, n: nat)
    returns (hi: seq<Message>, lo: seq<Message>, wrap: nat)
    requires IsRun(states, events) && Fresh(states[0]) && n <= |events|
    ensures Inv(states[n], hi, lo, wrap)
  {
    hide Inv;
    hide Enabled;
    hide Apply;
    hi, lo, wrap := RunKeeps(states[..n + 1], events[..n]);
  }

  /** In every interleaving an enqueue is refused exactly if there was no room for the entry when the producer read the offsets:
      neither behind the tail nor, unless the ring has wrapped, in front of the head. */
  lemma RefusedIff(states: seq<State>, events: seq<Event>, n: nat) returns (k: nat)
    requires IsRun(states, events) && Fresh(states[0]) && n < |events| && (events[n].Refuse? || events[n].Begin?)
    ensures CallSince(states, events, k, n)
    ensures var r, size := states[k].ring, HEADER + |events[k].data|;
            events[n].Refuse? <==>
              if r.tail < r.head then size >= r.head - r.tail else r.tail + size > |r.mem| && size >= r.head
  {
    CallStep(states[n], events[n]);
    k := CallBegan(states, events, n);
  }

  /** At the notification: the ring holds nothing but the message just published exactly if the head stands where the tail did. */
  lemma OnlyNewest(r: Ring, hi: seq<Message>, lo: seq<Message>, wrap: nat, tail0: nat, data: Message)
    requires Layout(r, hi, lo, wrap) && Newest(r, hi, lo, wrap, tail0, data)
    ensures r.head == tail0 <==> hi + lo == [data]
  {
    hide LoadUInt32;
    if lo == [] && hi != [] {
      var n := |hi| - 1;
      assert hi[..n] + [data] == hi;
      ChainDropLast(r.mem, r.head, wrap, hi[..n], data);
      ChainBounds(r.mem, r.head, wrap - EntrySize(data), hi[..n]);
    } else {
      ChainBounds(r.mem, r.head, wrap, hi);
    }
  }

  lemma {:induction false} ChainDropLast(mem: seq<byte>, from: nat, to: nat, items: seq<Message>, last: Message)
    requires Chain(mem, from, to, items + [last])
    ensures to >= EntrySize(last) && Chain(mem, from, to - EntrySize(last), items)
    decreases |items|
  {
    hide HasEntry;
    var all := items + [last];
    if items == [] {
      assert all[1..] == [];
    } else {
      assert all[0] == items[0] && all[1..] == items[1..] + [last];
      ChainDropLast(mem, from + EntrySize(items[0]), to, items[1..], last);
      ChainBounds(mem, from + EntrySize(items[0]), to - EntrySize(last), items[1..]);
    }
  }

  /** In every interleaving an enqueue signals the reader exactly if every earlier message had been delivered when it read the
      offsets, or if just its own message is left when it looks again; a signal that is still pending stays. */
  lemma NotifiesIff(states: seq<State>, events: seq<Event>, n: nat) returns (k: nat)
    requires IsRun(states, events) && Fresh(states[0]) && n < |events| && events[n].Notify?
    ensures CallSince(states, events, k, n)
    ensures states[n + 1].message <==>
              || states[n].message
              || states[k].accepted == states[k].delivered
              || states[n].accepted == states[n].delivered + [events[k].data]
  {
    k := CallBegan(states, events, n);
    var hi, lo, wrap := RunKeepsUntil(states, events, k);
    var hi', lo', wrap' := RunKeepsUntil(states, events, n);
    var s, s' := states[k], states[n];
    EmptyRing(s, hi, lo, wrap);
    assert Enabled(s', Notify) && states[n + 1] == Apply(s', Notify);
    OnlyNewest(s'.ring, hi', lo', wrap', s'.producer.tail0, events[k].data);
    hide Layout;
    hide Newest;
    hide IsRun;
  }

  lemma EmptyRing(s: State, hi: seq<Message>, lo: seq<Message>, wrap: nat)
    requires Inv(s, hi, lo, wrap)
    ensures s.ring.head == s.ring.tail <==> s.accepted == s.delivered
  {
    hide Layout;
    LayoutHolds(s.ring, hi + lo, hi, lo, wrap);
    EmptyIff(s.ring, hi + lo);
  }

  /** A sleeper is woken by a notification of its own: one that was sent since the last wake-up. */
  lemma {:induction false} WokenByNotice(states: seq<State>, events: seq<Event>, n: nat) returns (k: nat)
    requires IsRun(states, events) && Fresh(states[0]) && n <= |events| && states[n].message
    ensures k < n && events[k].Notify? && forall j :: k < j < n ==> !events[j].Wake?
    decreases n
  {
    MessageStep(states[n - 1], events[n - 1]);
    hide Apply;
    hide Enabled;
    k := n - 1;
    if !events[n - 1].Notify? {
      k := WokenByNotice(states, events, n - 1);
    }
  }

  lemma MessageStep(s: State, e: Event)
    requires Enabled(s, e)
    ensures e.Wake? ==> !Apply(s, e).message
    ensures !e.Wake? && !e.Notify? ==> Apply(s, e).message == s.message
  {
    hide Stores;
    hide LoadUInt32;
  }

  // ---------------------------------------------------------------- nothing is stuck

  /** These events can happen one after the other. */
  predicate Possible(s: State, more: seq<Event>)
    decreases |more|
  {
    more == [] || (Enabled(s, more[0]) && Possible(Apply(s, more[0]), more[1..]))
  }

  function After(s: State, more: seq<Event>): State
    requires Possible(s, more)
    decreases |more|
  {
    if more == [] then s else After(Apply(s, more[0]), more[1..])
  }

  lemma FirstThen(s: State, e: Event, rest: seq<Event>)
    requires Enabled(s, e) && Possible(Apply(s, e), rest)
    ensures Possible(s, [e] + rest) && After(s, [e] + rest) == After(Apply(s, e), rest)
  {
    hide Enabled;
    hide Apply;
    assert ([e] + rest)[1..] == rest;
  }

  /** What the consumer does next; a sleeper needs the notification the producer still owes it. */
  function Turn(s: State): Event {
    match s.consumer
    case Awake => Look
    case Seen => Locate
    case Sizing(_, _, loaded) => if |loaded| < HEADER then LoadByte else Measure
    case Copying(_, size, buffer) => if |buffer| < size then CopyByte else StoreHead
    case Asleep => if s.message then Wake else Notify
  }

  /** How many steps it has to go at most until it has taken the first message, which has n bytes. */
  function ToGo(s: State, n: nat): nat {
    match s.consumer
    case Copying(_, _, buffer) => if |buffer| < n then n - |buffer| + 1 else 1
    case Sizing(_, atHead, loaded) => n + 2 + (if |loaded| < HEADER then HEADER - |loaded| else 0) + if atHead then HEADER + 1 else 0
    case Seen => n + 2 * HEADER + 4
    case Awake => n + 2 * HEADER + 5
    case Asleep => n + 2 * HEADER + if s.message then 6 else 7
  }

  lemma TurnIsOpen(s: State, hi: seq<Message>, lo: seq<Message>, wrap: nat)
    requires Inv(s, hi, lo, wrap) && hi + lo != []
    ensures Enabled(s, Turn(s))
  {
    hide LoadUInt32;
    hide Layout;
    hide ProducerInv;
    ConsumerFindsWrap(s.ring, hi, lo, wrap);
  }

  lemma QuietKeeps(s: State, e: Event, hi: seq<Message>, lo: seq<Message>, wrap: nat)
    requires Inv(s, hi, lo, wrap) && Enabled(s, e) && (e.Wake? || e.Notify?)
    ensures Inv(Apply(s, e), hi, lo, wrap)
  {
    hide LoadUInt32;
    hide Layout;
    hide Stores;
  }

  // the consumer comes closer to the end of the message
  lemma TurnHelps(s: State, hi: seq<Message>, lo: seq<Message>, wrap: nat)
    requires Inv(s, hi, lo, wrap) && hi + lo != [] && Enabled(s, Turn(s)) && Turn(s) != StoreHead
    ensures Inv(Apply(s, Turn(s)), hi, lo, wrap) && Apply(s, Turn(s)).accepted == s.accepted
    ensures ToGo(Apply(s, Turn(s)), |(hi + lo)[0]|) < ToGo(s, |(hi + lo)[0]|)
  {
    var e := Turn(s);
    hide *;
    TurnIsConsumers(s);
    match e {
      case Look => LookKeeps(s, hi, lo, wrap);
      case Locate => LocateKeeps(s, hi, lo, wrap);
      case LoadByte => LoadByteKeeps(s, hi, lo, wrap);
      case Measure => MeasureKeeps(s, hi, lo, wrap);
      case CopyByte => CopyByteKeeps(s, hi, lo, wrap);
      case _ => QuietKeeps(s, e, hi, lo, wrap);
    }
    NotEmpty(s, hi, lo, wrap);
    InvConsumer(Apply(s, e), hi, lo, wrap);
    CloserBy(s, hi, lo);
  }

  lemma InvConsumer(s: State, hi: seq<Message>, lo: seq<Message>, wrap: nat)
    requires Inv(s, hi, lo, wrap)
    ensures ConsumerInv(s, hi, lo)
  {
  }

  lemma CloserBy(s: State, hi: seq<Message>, lo: seq<Message>)
    requires Enabled(s, Turn(s)) && Turn(s) != StoreHead && hi + lo != [] && s.ring.head != s.ring.tail
    requires ConsumerInv(s, hi, lo) && ConsumerInv(Apply(s, Turn(s)), hi, lo)
    ensures Apply(s, Turn(s)).accepted == s.accepted
    ensures ToGo(Apply(s, Turn(s)), |(hi + lo)[0]|) < ToGo(s, |(hi + lo)[0]|)
  {
    hide LoadUInt32;
    hide StoreUInt32;
    hide Stores;
  }

  lemma NotEmpty(s: State, hi: seq<Message>, lo: seq<Message>, wrap: nat)
    requires Inv(s, hi, lo, wrap) && hi + lo != []
    ensures s.ring.head != s.ring.tail && ConsumerInv(s, hi, lo)
  {
    hide Layout;
    LayoutHolds(s.ring, hi + lo, hi, lo, wrap);
    EmptyIff(s.ring, hi + lo);
  }

  lemma {:induction false} Deliverable(s: State, hi: seq<Message>, lo: seq<Message>, wrap: nat) returns (more: seq<Event>)
    requires Inv(s, hi, lo, wrap)
    ensures Possible(s, more) && After(s, more).delivered == After(s, more).accepted == s.accepted
    ensures forall e :: e in more ==> !OfProducer(e) || e == Notify
    decreases |hi + lo|, if hi + lo == [] then 0 else ToGo(s, |(hi + lo)[0]|)
  {
    if hi + lo == [] {
      more := [];
    } else {
      var e := Turn(s);
      TurnIsOpen(s, hi, lo, wrap);
      var s' := Apply(s, e);
      if e == StoreHead {
        var hi', lo', wrap' := StoreHeadKeeps(s, hi, lo, wrap);
        TakesOne(s, hi, lo, wrap, hi', lo', wrap');
        hide *;
        more := Deliverable(s', hi', lo', wrap');
        FirstThen(s, e, more);
        TurnIsConsumers(s);
      } else {
        TurnHelps(s, hi, lo, wrap);
        hide *;
        more := Deliverable(s', hi, lo, wrap);
        FirstThen(s, e, more);
        TurnIsConsumers(s);
      }
      more := [e] + more;
    }
  }

  lemma TurnIsConsumers(s: State)
    ensures !OfProducer(Turn(s)) || Turn(s) == Notify
    ensures Turn(s).Look? || Turn(s).Locate? || Turn(s).LoadByte? || Turn(s).Measure? || Turn(s).CopyByte? || Turn(s).StoreHead?
            || Turn(s).Wake? || Turn(s).Notify?
    ensures Turn(s).Locate? ==> s.consumer.Seen?
  {
  }

  lemma TakesOne(s: State, hi: seq<Message>, lo: seq<Message>, wrap: nat, hi': seq<Message>, lo': seq<Message>, wrap': nat)
    requires Inv(s, hi, lo, wrap) && Enabled(s, StoreHead) && Inv(Apply(s, StoreHead), hi', lo', wrap')
    ensures |hi' + lo'| < |hi + lo| && Apply(s, StoreHead).accepted == s.accepted
  {
    hide LoadUInt32;
    hide Layout;
    hide ProducerInv;
    hide ConsumerInv;
    assert |s.accepted| == |s.delivered| + |hi + lo|;
  }

  /** From every reachable state the consumer can take everything the ring holds, however the two are interleaved just then: it
      needs nothing from the producer but a notification that is due. */
  lemma EverythingIsDelivered(states: seq<State>, events: seq<Event>) returns (more: seq<Event>)
    requires IsRun(states, events) && Fresh(states[0])
    ensures var s := states[|events|];
            && Possible(s, more) && After(s, more).delivered == After(s, more).accepted == s.accepted
            && forall e :: e in more ==> !OfProducer(e) || e == Notify
  {
    var hi, lo, wrap := RunKeeps(states, events);
    hide *;
    more := Deliverable(states[|events|], hi, lo, wrap);
  }
}

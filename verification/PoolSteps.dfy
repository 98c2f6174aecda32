/**
 The buffer pool shared by all sockets: any number of threads run copyDataToBuffers and releaseDataBuffers at the same
 time, without a lock, and the client gives buffers back whenever it likes. Acquire and release are single steps.
 */
module PoolSteps {
  import opened Bytes
  import opened FreeBuffers
  import opened IndexLists
  import opened SocketFilterBuffers

  datatype Thread =
    | Idle
    | Scattering(mbuf: Mbuf, taken: seq<nat>, offset: nat)               // at the top of the loop
    | Acquired(mbuf: Mbuf, taken: seq<nat>, offset: nat, buffer: nat)    // about to copy
    | Returning(taken: seq<nat>, buffer: nat)                            // the copy has failed
    | Backing(taken: seq<nat>, next: nat)                                // releaseDataBuffers has come to next
    | Filled(mbuf: Mbuf, taken: seq<nat>)                                // the array is complete

  /** owners says who holds each acquired buffer: a thread, or the client. */
  datatype Owner = Of(t: nat) | Client

  datatype State = State(pool: Pool, contents: seq<seq<byte>>, threads: seq<Thread>, owners: map<nat, Owner>, size: nat, created: nat)

  datatype Action =
    | Begin(mbuf: Mbuf) | AcquireNext | Copy | Finish | ReturnBuffer | Discard | GiveBack | EndBack | HandOver
    | ClientRelease(buffer: nat)

  function Length(mbuf: Mbuf, offset: nat, size: nat): nat
    requires offset <= mbuf.headerLength
  {
    if mbuf.headerLength - offset > size then size else mbuf.headerLength - offset
  }

  predicate Enabled(s: State, t: nat, a: Action) {
    && t < |s.threads| && (s.pool.head == END || s.pool.head < |s.pool.links|)
    && var th := s.threads[t];
       match a
       case Begin(_) => th.Idle?
       case AcquireNext => th.Scattering? && th.offset < th.mbuf.headerLength
       case Copy => th.Acquired? && th.offset <= th.mbuf.headerLength && th.buffer < |s.contents| && |s.contents[th.buffer]| == s.size
       case Finish => th.Scattering? && th.offset == th.mbuf.headerLength
       case ReturnBuffer => th.Returning?
       case Discard => th.Filled?
       case GiveBack => th.Backing? && th.next < |th.taken|
       case EndBack => th.Backing? && th.next == |th.taken|
       case HandOver => th.Filled?
       case ClientRelease(buffer) => buffer in s.owners && s.owners[buffer] == Client
  }

  function Goto(s: State, t: nat, th: Thread): State
    requires t < |s.threads|
  {
    s.(threads := s.threads[t := th])
  }

  function Free(s: State, buffer: nat): State {
    s.(pool := Release(s.pool, buffer), owners := s.owners - {buffer})
  }

  function Apply(s: State, t: nat, a: Action): State
    requires Enabled(s, t, a)
  {
    var th := s.threads[t];
    match a
    case Begin(mbuf) => Goto(s, t, Scattering(mbuf, [], 0))
    case AcquireNext =>
      var (pool, buffer) := Acquire(s.pool);
      if buffer == END then Goto(s, t, Backing(th.taken, 0))
      else Goto(s, t, Acquired(th.mbuf, th.taken, th.offset, buffer)).(pool := pool, owners := s.owners[buffer := Of(t)])
    case Copy =>
      var n := Length(th.mbuf, th.offset, s.size);
      if th.offset + n > |th.mbuf.bytes| then Goto(s, t, Returning(th.taken, th.buffer))
      else
        Goto(s, t, Scattering(th.mbuf, th.taken + [th.buffer], th.offset + n)).(
          contents := s.contents[th.buffer := th.mbuf.bytes[th.offset..th.offset + n] + s.contents[th.buffer][n..]])
    case Finish => Goto(s, t, Filled(th.mbuf, th.taken))
    case ReturnBuffer => Free(Goto(s, t, Backing(th.taken, 0)), th.buffer)
    case Discard => Goto(s, t, Backing(th.taken, 0))
    case GiveBack => Free(Goto(s, t, Backing(th.taken, th.next + 1)), th.taken[th.next])
    case EndBack => Goto(s, t, Idle)
    case HandOver => Goto(s, t, Idle).(owners := map i | i in s.owners :: if i in th.taken then Client else s.owners[i])
    case ClientRelease(buffer) => Free(s, buffer)
  }

  // ---------------------------------------------------------------- the invariant

  /** The buffers a thread holds. */
  function Buffers(th: Thread): seq<nat> {
    match th
    case Idle => []
    case Scattering(_, taken, _) => taken
    case Acquired(_, taken, _, buffer) => taken + [buffer]
    case Returning(taken, buffer) => taken + [buffer]
    case Backing(taken, next) => if next <= |taken| then taken[next..] else []
    case Filled(_, taken) => taken
  }

  /** Each thread holds each of its buffers once, and nobody else does. */
  ghost predicate Owns(owners: map<nat, Owner>, t: nat, th: Thread) {
    && Distinct(Buffers(th))
    && forall i :: i in Buffers(th) <==> i in owners && owners[i] == Of(t)
  }

  /** What the buffers of a thread contain. */
  ghost predicate Fits(contents: seq<seq<byte>>, size: nat, th: Thread) {
    match th
    case Scattering(mbuf, taken, offset) => Scattered(contents, size, taken, mbuf, offset)
    case Acquired(mbuf, taken, offset, buffer) => Scattered(contents, size, taken, mbuf, offset) && offset < mbuf.headerLength
    case Filled(mbuf, taken) => Scattered(contents, size, taken, mbuf, mbuf.headerLength)
    case Backing(taken, next) => next <= |taken|
    case _ => true
  }

  ghost predicate Sized(contents: seq<seq<byte>>, size: nat) {
    |contents| == BUFFERS && size > 0 && forall i :: 0 <= i < BUFFERS ==> |contents[i]| == size
  }

  ghost predicate Inv(s: State) {
    && Sound(s.pool, s.owners.Keys, s.created)
    && Sized(s.contents, s.size)
    && (forall t :: 0 <= t < |s.threads| ==> Owns(s.owners, t, s.threads[t]))
    && (forall t :: 0 <= t < |s.threads| ==> Fits(s.contents, s.size, s.threads[t]))
    && (forall i :: i in s.owners && s.owners[i].Of? ==> s.owners[i].t < |s.threads|)
  }

  predicate Initial(s: State) {
    && s.created <= BUFFERS && s.pool == FreeBuffers.Initial(s.created) && s.owners == map[]
    && |s.contents| == BUFFERS && s.size > 0 && (forall i :: 0 <= i < |s.contents| ==> |s.contents[i]| == s.size)
    && forall t :: 0 <= t < |s.threads| ==> s.threads[t] == Idle
  }

  lemma InitialInv(s: State)
    requires Initial(s)
    ensures Inv(s)
  {
    InitialIsSound(s.created);
    assert s.owners.Keys == {};
    assert Partitioned(s.pool, Countdown(s.created), s.owners.Keys, s.created);
  }

  // ---------------------------------------------------------------- the pool

  lemma SoundAcquire(p: Pool, owned: set<nat>, created: nat)
    requires Sound(p, owned, created)
    ensures p.head == END || p.head < |p.links|
    ensures var (p', buffer) := Acquire(p);
            if buffer == END then p' == p else buffer < BUFFERS && buffer !in owned && Sound(p', owned + {buffer}, created)
  {
    var free :| Partitioned(p, free, owned, created);
    AcquireKeeps(p, free, owned, created);
    if free != [] {
      NotEnd(p, free, owned, created);
    }
  }

  lemma SoundRelease(p: Pool, owned: set<nat>, created: nat, buffer: nat)
    requires Sound(p, owned, created) && buffer in owned
    ensures Sound(Release(p, buffer), owned - {buffer}, created)
  {
    var free :| Partitioned(p, free, owned, created);
    ReleaseKeeps(p, free, owned, created, buffer);
  }

  lemma SoundOwned(p: Pool, owned: set<nat>, created: nat)
    requires Sound(p, owned, created)
    ensures forall i :: i in owned ==> i < created <= BUFFERS
  {
    var free :| Partitioned(p, free, owned, created);
    FreeWereCreated(p, free, owned, created);
  }

  // what the step of a thread does to the owners
  lemma PoolKeeps(s: State, t: nat, a: Action)
    requires Sound(s.pool, s.owners.Keys, s.created) && Enabled(s, t, a) && Owns(s.owners, t, s.threads[t])
    requires Fits(s.contents, s.size, s.threads[t])
    ensures var s' := Apply(s, t, a);
            && Sound(s'.pool, s'.owners.Keys, s'.created)
            && |s'.threads| == |s.threads| && s'.threads == s.threads[t := s'.threads[t]] && s'.size == s.size && s'.created == s.created
  {
    hide Sound;
    hide Acquire;
    hide Release;
    hide Distinct;
    hide Scattered;
    var th := s.threads[t];
    match a
    case AcquireNext =>
      SoundAcquire(s.pool, s.owners.Keys, s.created);
      var (pool, buffer) := Acquire(s.pool);
      assert s.owners[buffer := Of(t)].Keys == s.owners.Keys + {buffer};
    case ReturnBuffer =>
      assert th.buffer in Buffers(th);
      SoundRelease(s.pool, s.owners.Keys, s.created, th.buffer);
      assert (s.owners - {th.buffer}).Keys == s.owners.Keys - {th.buffer};
    case GiveBack =>
      var b := th.taken[th.next];
      assert b == Buffers(th)[0] && b in Buffers(th);
      SoundRelease(s.pool, s.owners.Keys, s.created, b);
      assert (s.owners - {b}).Keys == s.owners.Keys - {b};
    case ClientRelease(b) =>
      SoundRelease(s.pool, s.owners.Keys, s.created, b);
      assert (s.owners - {b}).Keys == s.owners.Keys - {b};
    case HandOver => assert Apply(s, t, a).owners.Keys == s.owners.Keys;
    case _ =>
  }

  lemma OwnsMore(owners: map<nat, Owner>, t: nat, th: Thread, buffer: nat, th': Thread)
    requires Owns(owners, t, th) && buffer !in owners && Buffers(th') == Buffers(th) + [buffer]
    ensures Owns(owners[buffer := Of(t)], t, th')
  {
    hide Buffers;
    assert buffer !in Buffers(th);
    assert forall i :: i in Buffers(th') <==> i in Buffers(th) || i == buffer;
  }

  lemma OwnsLess(owners: map<nat, Owner>, t: nat, th: Thread, buffer: nat, th': Thread)
    requires Owns(owners, t, th) && (Buffers(th) == Buffers(th') + [buffer] || Buffers(th) == [buffer] + Buffers(th'))
    ensures buffer in owners && owners[buffer] == Of(t) && Owns(owners - {buffer}, t, th')
  {
    hide Buffers;
    var all, rest := Buffers(th), Buffers(th');
    assert forall i :: i in all <==> i in rest || i == buffer;
    if all == [buffer] + rest {
      assert all[0] == buffer && forall i :: 0 <= i < |rest| ==> all[i + 1] == rest[i];
    } else {
      assert all[|rest|] == buffer && forall i :: 0 <= i < |rest| ==> all[i] == rest[i];
    }
  }

  lemma OwnsAcquire(s: State, t: nat)
    requires Sound(s.pool, s.owners.Keys, s.created) && Enabled(s, t, AcquireNext) && Owns(s.owners, t, s.threads[t])
    ensures Owns(Apply(s, t, AcquireNext).owners, t, Apply(s, t, AcquireNext).threads[t])
  {
    var th := s.threads[t];
    SoundAcquire(s.pool, s.owners.Keys, s.created);
    hide Sound;
    hide Acquire;
    hide Owns;
    var (pool, buffer) := Acquire(s.pool);
    if buffer != END {
      OwnsMore(s.owners, t, th, buffer, Acquired(th.mbuf, th.taken, th.offset, buffer));
    } else {
      OwnsLike(s.owners, t, th, Backing(th.taken, 0));
    }
  }

  lemma OwnsLike(owners: map<nat, Owner>, t: nat, th: Thread, th': Thread)
    requires Owns(owners, t, th) && Buffers(th') == Buffers(th)
    ensures Owns(owners, t, th')
  {
  }

  lemma OwnsReturn(s: State, t: nat)
    requires Enabled(s, t, ReturnBuffer) && Owns(s.owners, t, s.threads[t])
    ensures Owns(Apply(s, t, ReturnBuffer).owners, t, Apply(s, t, ReturnBuffer).threads[t])
  {
    var th := s.threads[t];
    var th' := Backing(th.taken, 0);
    assert th'.taken[0..] == th.taken;
    assert Buffers(th) == Buffers(th') + [th.buffer];
    hide Release;
    hide Owns;
    hide Buffers;
    OwnsLess(s.owners, t, th, th.buffer, th');
  }

  lemma OwnsGiveBack(s: State, t: nat)
    requires Enabled(s, t, GiveBack) && Owns(s.owners, t, s.threads[t])
    ensures Owns(Apply(s, t, GiveBack).owners, t, Apply(s, t, GiveBack).threads[t])
  {
    var th := s.threads[t];
    var th', buffer := Backing(th.taken, th.next + 1), th.taken[th.next];
    assert th.taken[th.next..] == [buffer] + th.taken[th.next + 1..];
    assert Buffers(th) == [buffer] + Buffers(th');
    hide Release;
    hide Owns;
    hide Buffers;
    OwnsLess(s.owners, t, th, buffer, th');
  }

  /** A thread still owns exactly its buffers after its own step. */
  lemma OwnsKeeps(s: State, t: nat, a: Action)
    requires Sound(s.pool, s.owners.Keys, s.created) && Enabled(s, t, a) && Owns(s.owners, t, s.threads[t])
    requires Fits(s.contents, s.size, s.threads[t])
    ensures Owns(Apply(s, t, a).owners, t, Apply(s, t, a).threads[t])
  {
    hide *;
    match a
    case AcquireNext => OwnsAcquire(s, t);
    case ReturnBuffer => OwnsReturn(s, t);
    case GiveBack => OwnsGiveBack(s, t);
    case _ => OwnsSame(s, t, a);
  }

  lemma OwnsSame(s: State, t: nat, a: Action)
    requires Enabled(s, t, a) && Owns(s.owners, t, s.threads[t]) && Fits(s.contents, s.size, s.threads[t])
    requires !a.AcquireNext? && !a.ReturnBuffer? && !a.GiveBack?
    ensures Owns(Apply(s, t, a).owners, t, Apply(s, t, a).threads[t])
  {
    hide Release;
    hide Scattered;
  }

  /** Buffers go to and from the thread that moves; the others keep theirs. */
  lemma OthersKeep(s: State, t: nat, a: Action, u: nat)
    requires Sound(s.pool, s.owners.Keys, s.created) && Enabled(s, t, a) && Owns(s.owners, t, s.threads[t])
    requires Fits(s.contents, s.size, s.threads[t]) && u != t
    ensures var owners' := Apply(s, t, a).owners;
            forall i :: (i in owners' && owners'[i] == Of(u)) <==> (i in s.owners && s.owners[i] == Of(u))
  {
    var th := s.threads[t];
    SoundAcquire(s.pool, s.owners.Keys, s.created);
    hide Sound;
    hide Release;
    hide Scattered;
    hide Acquire;
    hide Distinct;
    match a
    case ReturnBuffer => assert th.buffer in Buffers(th);
    case GiveBack => assert th.taken[th.next] == Buffers(th)[0] && Buffers(th)[0] in Buffers(th);
    case _ =>
  }

  // ---------------------------------------------------------------- the contents

  /** What a scatter has filled depends on its own buffers only. */
  lemma ScatteredFrame(contents: seq<seq<byte>>, contents': seq<seq<byte>>, size: nat, taken: seq<nat>, mbuf: Mbuf, offset: nat)
    requires Scattered(contents, size, taken, mbuf, offset)
    requires |contents'| == |contents| && forall i :: 0 <= i < |contents| ==> |contents'[i]| == size
    requires forall i :: i in taken && i < |contents| ==> contents'[i] == contents[i]
    ensures Scattered(contents', size, taken, mbuf, offset)
  {
    hide Gather;
    GatherFrame(contents, contents', size, taken, offset);
  }

  lemma SizedKeeps(s: State, t: nat, a: Action)
    requires Sized(s.contents, s.size) && Enabled(s, t, a)
    ensures Sized(Apply(s, t, a).contents, s.size)
  {
    hide Acquire;
    hide Release;
  }

  // only a copy writes, and only into the buffer just acquired
  lemma ContentsChange(s: State, t: nat, a: Action)
    requires Sized(s.contents, s.size) && Enabled(s, t, a)
    ensures var contents' := Apply(s, t, a).contents;
            |contents'| == |s.contents|
            && forall i :: 0 <= i < |contents'| && !(s.threads[t].Acquired? && s.threads[t].buffer == i) ==> contents'[i] == s.contents[i]
  {
    hide Acquire;
    hide Release;
  }

  lemma FitsFrame(contents: seq<seq<byte>>, contents': seq<seq<byte>>, size: nat, th: Thread)
    requires Fits(contents, size, th) && Sized(contents', size) && |contents| == |contents'|
    requires forall i :: i in Buffers(th) && i < |contents| ==> contents'[i] == contents[i]
    ensures Fits(contents', size, th)
  {
    hide Scattered;
    match th
    case Scattering(mbuf, taken, offset) => ScatteredFrame(contents, contents', size, taken, mbuf, offset);
    case Acquired(mbuf, taken, offset, buffer) => ScatteredFrame(contents, contents', size, taken, mbuf, offset);
    case Filled(mbuf, taken) => ScatteredFrame(contents, contents', size, taken, mbuf, mbuf.headerLength);
    case _ =>
  }

  lemma LastIsNew(taken: seq<nat>, buffer: nat)
    requires Distinct(taken + [buffer])
    ensures buffer !in taken
  {
    forall i | 0 <= i < |taken| ensures taken[i] != buffer {
      assert (taken + [buffer])[i] == taken[i] && (taken + [buffer])[|taken|] == buffer;
    }
  }

  lemma OwnFits(s: State, t: nat, a: Action)
    requires Sized(s.contents, s.size) && Enabled(s, t, a) && Fits(s.contents, s.size, s.threads[t]) && Owns(s.owners, t, s.threads[t])
    ensures Fits(Apply(s, t, a).contents, s.size, Apply(s, t, a).threads[t])
  {
    hide Acquire;
    hide Release;
    hide Scattered;
    var th, s' := s.threads[t], Apply(s, t, a);
    match a
    case Begin(mbuf) => NothingScattered(s.contents, s.size, mbuf);
    case Copy =>
      var n := Length(th.mbuf, th.offset, s.size);
      if th.offset + n <= |th.mbuf.bytes| {
        LastIsNew(th.taken, th.buffer);
        ScatterMore(s.contents, s'.contents, s.size, th.taken, th.buffer, th.mbuf, th.offset, n);
      }
    case _ =>
  }

  // ---------------------------------------------------------------- every step keeps the invariant

  lemma FitsKeeps(s: State, t: nat, a: Action, u: nat)
    requires Inv(s) && Enabled(s, t, a) && u < |s.threads| && u != t
    ensures Fits(Apply(s, t, a).contents, s.size, s.threads[u])
  {
    SizedKeeps(s, t, a);
    ContentsChange(s, t, a);
    assert Owns(s.owners, t, s.threads[t]) && Owns(s.owners, u, s.threads[u]) && Fits(s.contents, s.size, s.threads[u]);
    var th, other, contents' := s.threads[t], s.threads[u], Apply(s, t, a).contents;
    if th.Acquired? {
      assert th.buffer == Buffers(th)[|th.taken|] && Buffers(th)[|th.taken|] in Buffers(th);
    }
    forall i | i in Buffers(other) && i < |s.contents| ensures contents'[i] == s.contents[i] {
      assert s.owners[i] == Of(u);
    }
    hide Inv;
    FitsFrame(s.contents, contents', s.size, other);
  }

  lemma OwnersKnown(s: State, t: nat, a: Action)
    requires Enabled(s, t, a) && forall i :: i in s.owners && s.owners[i].Of? ==> s.owners[i].t < |s.threads|
    ensures var s' := Apply(s, t, a); forall i :: i in s'.owners && s'.owners[i].Of? ==> s'.owners[i].t < |s'.threads|
  {
    hide Acquire;
    hide Release;
  }

  lemma InvKeeps(s: State, t: nat, a: Action)
    requires Inv(s) && Enabled(s, t, a)
    ensures Inv(Apply(s, t, a))
  {
    assert Owns(s.owners, t, s.threads[t]) && Fits(s.contents, s.size, s.threads[t]);
    var s' := Apply(s, t, a);
    PoolKeeps(s, t, a);
    SizedKeeps(s, t, a);
    OwnersKnown(s, t, a);
    forall u | 0 <= u < |s'.threads| ensures Owns(s'.owners, u, s'.threads[u]) && Fits(s'.contents, s'.size, s'.threads[u]) {
      assert Owns(s.owners, u, s.threads[u]) && Fits(s.contents, s.size, s.threads[u]);
      hide Apply;
      hide Inv;
      hide Sound;
      hide Sized;
      hide Fits;
      if u == t {
        OwnsKeeps(s, t, a);
        OwnFits(s, t, a);
      } else {
        FitsKeeps(s, t, a, u);
        OthersKeep(s, t, a, u);
      }
    }
  }

  // ---------------------------------------------------------------- whole runs

  ghost predicate IsRun(states: seq<State>, steps: seq<(nat, Action)>) {
    && |states| == |steps| + 1 && Initial(states[0])
    && forall i :: 0 <= i < |steps| ==>
         Enabled(states[i], steps[i].0, steps[i].1) && states[i + 1] == Apply(states[i], steps[i].0, steps[i].1)
  }

  lemma {:induction false} RunInv(states: seq<State>, steps: seq<(nat, Action)>)
    requires IsRun(states, steps)
    ensures Inv(states[|steps|])
    decreases |steps|
  {
    if steps == [] {
      InitialInv(states[0]);
    } else {
      var n := |steps| - 1;
      RunInv(states[..|steps|], steps[..n]);
      hide Inv;
      hide Apply;
      hide Enabled;
      InvKeeps(states[n], steps[n].0, steps[n].1);
    }
  }

  /** In every interleaving the free list and the owned buffers partition the buffers. */
  lemma PoolStaysSound(states: seq<State>, steps: seq<(nat, Action)>)
    requires IsRun(states, steps)
    ensures var s := states[|steps|]; Sound(s.pool, s.owners.Keys, s.created)
  {
    hide Apply;
    hide Enabled;
    RunInv(states, steps);
  }

  /** In every interleaving the array of a thread, complete or not, names distinct buffers that no other thread and not the
      client has, and the next index to be written lies inside the array. */
  lemma ArraysAreExclusive(states: seq<State>, steps: seq<(nat, Action)>, t: nat)
    requires IsRun(states, steps) && t < |states[|steps|].threads|
    ensures var s := states[|steps|]; var mine := Buffers(s.threads[t]);
            && Distinct(mine) && Within(mine, s.created) && |mine| <= BUFFERS
            && (forall i :: i in mine ==> i in s.owners && s.owners[i] == Of(t))
            && (forall u, i :: 0 <= u < |s.threads| && u != t && i in mine ==> i !in Buffers(s.threads[u]))
            && (s.threads[t].Acquired? ==> |s.threads[t].taken| < BUFFERS)
  {
    hide Apply;
    hide Enabled;
    RunInv(states, steps);
    var s := states[|steps|];
    assert Owns(s.owners, t, s.threads[t]);
    SoundOwned(s.pool, s.owners.Keys, s.created);
    var mine := Buffers(s.threads[t]);
    forall i | 0 <= i < |mine| ensures mine[i] < s.created {
      assert mine[i] in mine && mine[i] in s.owners.Keys;
    }
    DistinctFits(mine, BUFFERS);
    forall u, i | 0 <= u < |s.threads| && u != t && i in mine ensures i !in Buffers(s.threads[u]) {
      assert Owns(s.owners, u, s.threads[u]);
    }
  }

  /** In every interleaving a complete array has as many buffers as the packet needs, and their contents concatenate to it,
      although other threads fill theirs at the same time. */
  lemma FilledIsPacket(states: seq<State>, steps: seq<(nat, Action)>, t: nat)
    requires IsRun(states, steps) && t < |states[|steps|].threads| && states[|steps|].threads[t].Filled?
    ensures var s := states[|steps|]; var th := s.threads[t];
            && Covers(|th.taken|, s.size, th.mbuf.headerLength) && th.mbuf.headerLength <= |th.mbuf.bytes|
            && Gather(s.contents, s.size, th.taken, th.mbuf.headerLength) == th.mbuf.bytes[..th.mbuf.headerLength]
  {
    hide Apply;
    hide Enabled;
    RunInv(states, steps);
    var s := states[|steps|];
    assert Fits(s.contents, s.size, s.threads[t]);
  }

  /** FltData may release the array of a failed copy again at any later moment. Pool and owners survive that exactly if every
      buffer of the array is free at that moment and none is the last free one: what another thread or the client has been
      given since then is taken from it. */
  lemma LateReleaseIsSafeIff(states: seq<State>, steps: seq<(nat, Action)>, list: seq<nat>) returns (free: seq<nat>)
    requires IsRun(states, steps) && Within(list, states[|steps|].created)
    ensures var s := states[|steps|];
            && Partitioned(s.pool, free, s.owners.Keys, s.created)
            && (Sound(ReleaseAll(s.pool, list), s.owners.Keys, s.created) <==> forall i :: i in list ==> SafelyFree(free, i))
            && ((exists i :: i in list && i in s.owners) ==> !Sound(ReleaseAll(s.pool, list), s.owners.Keys, s.created))
  {
    hide Apply;
    hide Enabled;
    RunInv(states, steps);
    var s := states[|steps|];
    free :| Partitioned(s.pool, free, s.owners.Keys, s.created);
    SecondReleaseIsSafeIff(s.pool, free, s.owners.Keys, s.created, list);
  }

  // ---------------------------------------------------------------- when a scatter backs out

  lemma NoneFree(p: Pool, owned: set<nat>, created: nat)
    requires Sound(p, owned, created)
    ensures p.head == END <==> forall i: nat :: i < created ==> i in owned
  {
    var free :| Partitioned(p, free, owned, created);
    FreeWereCreated(p, free, owned, created);
    if free != [] {
      NotEnd(p, free, owned, created);
      assert free[0] in free;
    }
  }

  /** How the scatter of a thread goes on with its next step: the acquire fails if every buffer is owned, the copy if the packet
      ends before the part of it that belongs into this buffer. */
  predicate GoesOn(s: State, th: Thread, th': Thread) {
    match th
    case Scattering(mbuf, taken, offset) =>
      if offset == mbuf.headerLength then th' == Filled(mbuf, taken)
      else if forall i: nat :: i < s.created ==> i in s.owners then th' == Backing(taken, 0)
      else th'.Acquired? && th'.mbuf == mbuf && th'.taken == taken && th'.offset == offset && th'.buffer !in s.owners
    case Acquired(mbuf, taken, offset, buffer) =>
      var reach := if mbuf.headerLength < offset + s.size then mbuf.headerLength else offset + s.size;
      if |mbuf.bytes| < reach then th' == Returning(taken, buffer) else th' == Scattering(mbuf, taken + [buffer], reach)
    case Returning(taken, _) => th' == Backing(taken, 0)
    case _ => true
  }

  /** In every interleaving a scatter backs out exactly if every buffer is owned when it acquires one, or if the packet is shorter
      than its header says and the copy comes to its end. Otherwise it goes on with one more buffer until the length is covered. */
  lemma ScatterIff(states: seq<State>, steps: seq<(nat, Action)>, n: nat, t: nat)
    requires IsRun(states, steps) && n < |steps| && steps[n].0 == t && !steps[n].1.ClientRelease?
    ensures t < |states[n].threads| && t < |states[n + 1].threads|
    ensures GoesOn(states[n], states[n].threads[t], states[n + 1].threads[t])
  {
    assert IsRun(states[..n + 1], steps[..n]) by {
      hide Apply;
      hide Enabled;
    }
    RunInv(states[..n + 1], steps[..n]);
    assert Enabled(states[n], steps[n].0, steps[n].1) && states[n + 1] == Apply(states[n], steps[n].0, steps[n].1);
    hide *;
    ScatterStep(states[n], t, steps[n].1);
  }

  lemma ScatterStep(s: State, t: nat, a: Action)
    requires Inv(s) && Enabled(s, t, a) && !a.ClientRelease?
    ensures t < |s.threads| && t < |Apply(s, t, a).threads| && GoesOn(s, s.threads[t], Apply(s, t, a).threads[t])
  {
    hide Sound;
    hide Sized;
    hide Owns;
    hide Fits;
    if a.AcquireNext? {
      SoundAcquire(s.pool, s.owners.Keys, s.created);
      NoneFree(s.pool, s.owners.Keys, s.created);
      AcquiredIsHead(s.pool);
    }
    hide Acquire;
    hide Release;
  }

  lemma AcquiredIsHead(p: Pool)
    requires p.head == END || p.head < |p.links|
    ensures Acquire(p).1 == p.head
  {
  }

  // ---------------------------------------------------------------- nothing is stuck

  /** These steps can be taken one after the other. */
  predicate Possible(s: State, more: seq<(nat, Action)>)
    decreases |more|
  {
    more == [] || (Enabled(s, more[0].0, more[0].1) && Possible(Apply(s, more[0].0, more[0].1), more[1..]))
  }

  function After(s: State, more: seq<(nat, Action)>): State
    requires Possible(s, more)
    decreases |more|
  {
    if more == [] then s else After(Apply(s, more[0].0, more[0].1), more[1..])
  }

  lemma FirstThen(s: State, t: nat, a: Action, rest: seq<(nat, Action)>)
    requires Enabled(s, t, a) && Possible(Apply(s, t, a), rest)
    ensures Possible(s, [(t, a)] + rest) && After(s, [(t, a)] + rest) == After(Apply(s, t, a), rest)
  {
    hide Enabled;
    hide Apply;
    assert ([(t, a)] + rest)[1..] == rest;
  }

  /** How many steps a thread has to go at most until it holds nothing. */
  function ToGo(th: Thread): nat {
    match th
    case Idle => 0
    case Backing(taken, next) => if next <= |taken| then |taken| - next + 1 else 0
    case Returning(taken, _) => |taken| + 2
    case Filled(_, taken) => |taken| + 2
    case Scattering(mbuf, taken, offset) => |taken| + 5 + if offset < mbuf.headerLength then 4 * (mbuf.headerLength - offset) else 0
    case Acquired(mbuf, taken, offset, _) => |taken| + 4 + if offset < mbuf.headerLength then 4 * (mbuf.headerLength - offset) else 0
  }

  function AllToGo(threads: seq<Thread>): nat {
    if threads == [] then 0 else ToGo(threads[0]) + AllToGo(threads[1..])
  }

  lemma {:induction false} AllToGoUpdate(threads: seq<Thread>, t: nat, th: Thread)
    requires t < |threads|
    ensures AllToGo(threads[t := th]) == AllToGo(threads) - ToGo(threads[t]) + ToGo(th)
  {
    if t > 0 {
      assert threads[t := th][1..] == threads[1..][t - 1 := th];
      AllToGoUpdate(threads[1..], t - 1, th);
    }
  }

  /** The next step of a thread that gives up what it has as soon as it can. */
  function WayBack(th: Thread): Action
    requires !th.Idle?
  {
    match th
    case Scattering(mbuf, _, offset) => if offset < mbuf.headerLength then AcquireNext else Finish
    case Acquired(_, _, _, _) => Copy
    case Returning(_, _) => ReturnBuffer
    case Filled(_, _) => Discard
    case Backing(taken, next) => if next < |taken| then GiveBack else EndBack
  }

  lemma WayBackIsOpen(s: State, t: nat)
    requires Inv(s) && t < |s.threads| && !s.threads[t].Idle?
    ensures Enabled(s, t, WayBack(s.threads[t])) && Fits(s.contents, s.size, s.threads[t]) && s.size > 0
  {
    assert Fits(s.contents, s.size, s.threads[t]) && Owns(s.owners, t, s.threads[t]);
    SoundAcquire(s.pool, s.owners.Keys, s.created);
    SoundOwned(s.pool, s.owners.Keys, s.created);
    if s.threads[t].Acquired? {
      assert Buffers(s.threads[t])[|s.threads[t].taken|] in s.owners.Keys;
    }
    hide Inv;
    hide Owns;
    hide Sound;
    hide Gather;
    hide Covers;
  }

  lemma GoesBack(s: State, t: nat)
    requires t < |s.threads| && !s.threads[t].Idle? && Enabled(s, t, WayBack(s.threads[t]))
    requires Fits(s.contents, s.size, s.threads[t]) && s.size > 0
    ensures var s' := Apply(s, t, WayBack(s.threads[t]));
            |s'.threads| == |s.threads| && ToGo(s'.threads[t]) < ToGo(s.threads[t]) && s'.threads == s.threads[t := s'.threads[t]]
  {
    hide Scattered;
    hide Acquire;
    hide Release;
  }

  // everybody is idle and only the client has buffers
  lemma ClientLast(s: State, t: nat) returns (more: seq<(nat, Action)>)
    requires Inv(s) && t < |s.threads| && forall u :: 0 <= u < |s.threads| ==> s.threads[u].Idle?
    ensures Possible(s, more) && After(s, more).owners == map[] && Inv(After(s, more))
    decreases |s.owners|
  {
    if s.owners == map[] {
      more := [];
    } else {
      var b :| b in s.owners;
      ClientsBuffer(s, b);
      var a := ClientRelease(b);
      SoundAcquire(s.pool, s.owners.Keys, s.created);
      assert Enabled(s, t, a);
      InvKeeps(s, t, a);
      assert (s.owners - {b}).Keys == s.owners.Keys - {b};
      hide Inv;
      more := ClientLast(Apply(s, t, a), t);
      FirstThen(s, t, a, more);
      more := [(t, a)] + more;
    }
  }

  lemma NothingHeld(s: State, b: nat)
    requires Inv(s) && b in s.owners && s.owners[b].Of?
    ensures s.owners[b].t < |s.threads| && !s.threads[s.owners[b].t].Idle?
  {
    assert Owns(s.owners, s.owners[b].t, s.threads[s.owners[b].t]);
  }

  lemma ClientsBuffer(s: State, b: nat)
    requires Inv(s) && b in s.owners && forall u :: 0 <= u < |s.threads| ==> s.threads[u].Idle?
    ensures s.owners[b] == Client
  {
    if s.owners[b].Of? {
      NothingHeld(s, b);
    }
  }

  /** From every reachable state all buffers can come back to the pool, wherever the threads are just then: each needs only steps
      of its own, and the client to give back what it has. */
  lemma {:induction false} EveryBufferComesBack(s: State) returns (more: seq<(nat, Action)>)
    requires Inv(s) && s.threads != []
    ensures Possible(s, more) && After(s, more).owners == map[] && Inv(After(s, more))
    decreases AllToGo(s.threads)
  {
    if t: nat :| t < |s.threads| && !s.threads[t].Idle? {
      var a := WayBack(s.threads[t]);
      WayBackIsOpen(s, t);
      GoesBack(s, t);
      AllToGoUpdate(s.threads, t, Apply(s, t, a).threads[t]);
      InvKeeps(s, t, a);
      hide *;
      more := EveryBufferComesBack(Apply(s, t, a));
      FirstThen(s, t, a, more);
      more := [(t, a)] + more;
    } else {
      more := ClientLast(s, 0);
    }
  }
}

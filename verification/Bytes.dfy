/** Bytes of shared memory and the 32-bit size field that heads every queue entry. */
module Bytes {
  newtype byte = x: int | 0 <= x < 0x100

  const UINT32_LIMIT: nat := 0x1_0000_0000

  /** The four bytes a UInt32 occupies, lowest byte first. */
  function StoreUInt32(n: nat): (bytes: seq<byte>)
    requires n < UINT32_LIMIT
    ensures |bytes| == 4
  {
    [(n % 0x100) as byte,
     (n / 0x100 % 0x100) as byte,
     (n / 0x1_0000 % 0x100) as byte,
     (n / 0x100_0000) as byte]
  }

  function LoadUInt32(mem: seq<byte>, at: nat): (n: nat)
    requires at + 4 <= |mem|
    ensures n < UINT32_LIMIT
  {
    mem[at] as nat + 0x100 * (mem[at + 1] as nat) + 0x1_0000 * (mem[at + 2] as nat) + 0x100_0000 * (mem[at + 3] as nat)
  }

  /** Reading the four bytes back yields the number that was stored. */
  lemma LoadStoredUInt32(mem: seq<byte>, at: nat, n: nat)
    requires n < UINT32_LIMIT && at + 4 <= |mem|
    requires mem[at..at + 4] == StoreUInt32(n)
    ensures LoadUInt32(mem, at) == n
  {
    var s := mem[at..at + 4];
    assert mem[at] == s[0] && mem[at + 1] == s[1] && mem[at + 2] == s[2] && mem[at + 3] == s[3];
    var hi := n / 0x100;
    assert n == hi * 0x100 + n % 0x100;
    assert n / 0x1_0000 == hi / 0x100 && hi == (hi / 0x100) * 0x100 + hi % 0x100;
    assert n / 0x100_0000 == (hi / 0x100) / 0x100;
  }

  /** And the bytes can be got back from the number that is read. */
  lemma StoreLoaded(mem: seq<byte>, at: nat)
    requires at + 4 <= |mem|
    ensures mem[at..at + 4] == StoreUInt32(LoadUInt32(mem, at))
  {
    var n := LoadUInt32(mem, at);
    var b0, b1, b2, b3 := mem[at] as nat, mem[at + 1] as nat, mem[at + 2] as nat, mem[at + 3] as nat;
    assert n / 0x100 == b1 + 0x100 * b2 + 0x1_0000 * b3 && n % 0x100 == b0;
    assert n / 0x1_0000 == b2 + 0x100 * b3 && n / 0x100_0000 == b3;
  }

  lemma LoadSameBytes(mem: seq<byte>, mem': seq<byte>, at: nat)
    requires at + 4 <= |mem| && at + 4 <= |mem'|
    requires forall i :: at <= i < at + 4 ==> mem'[i] == mem[i]
    ensures LoadUInt32(mem', at) == LoadUInt32(mem, at)
  {
  }

  /** Overwrites |bytes| bytes of mem from offset at. */
  function Write(mem: seq<byte>, at: nat, bytes: seq<byte>): (r: seq<byte>)
    requires at + |bytes| <= |mem|
    ensures |r| == |mem|
    ensures forall i :: 0 <= i < |mem| ==> r[i] == if at <= i < at + |bytes| then bytes[i - at] else mem[i]
  {
    mem[..at] + bytes + mem[at + |bytes|..]
  }
}

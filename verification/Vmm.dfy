/** The driver's virtual memory calls, as far as the allocator hook and the copies use them. */
module Vmm {
  import opened Layout
  import opened Ordered

  /** A mapped range: the physical allocation behind it, the bytes seen through it, and whether
      read-write access was granted. */
  datatype Mapping = Mapping(handle: nat, bytes: seq<byte>, access: bool)

  /** A physical allocation: its length, the base it is mapped at (0: not mapped), and whether its
      handle is still held. It exists as long as it is mapped or held. */
  datatype Physical = Physical(len: nat, at: nat, held: bool)

  datatype Memory = Memory(reserved: map<nat, nat>, live: map<nat, Physical>, mapped: map<nat, Mapping>) {

    /** A mapping starts at the base of its reservation and may be shorter than it. */
    ghost predicate Valid() {
      && (forall b | b in reserved :: 0 < b && b % GRANULE == 0)
      && (forall b | b in mapped ::
            && b in reserved && |mapped[b].bytes| <= reserved[b]
            && mapped[b].handle in live
            && live[mapped[b].handle].len == |mapped[b].bytes| && live[mapped[b].handle].at == b)
      && (forall h | h in live ::
            if live[h].at == 0 then live[h].held else live[h].at in mapped && mapped[live[h].at].handle == h)
    }

    predicate Readable(base: nat, len: nat) {
      base in mapped && mapped[base].access && len <= |mapped[base].bytes|
    }

    /** A free, granule-aligned range cuMemAddressReserve may hand out. */
    predicate Reservable(base: nat, len: nat) {
      && 0 < base && base % GRANULE == 0
      && base !in reserved
      && forall r | r in reserved :: r + reserved[r] <= base || base + len <= r
    }

    function Reserve(base: nat, len: nat): (m: Memory)
      requires Valid() && Reservable(base, len)
      ensures m.Valid()
    {
      this.(reserved := reserved[base := len])
    }

    function FreeRange(base: nat): (m: Memory)
      requires Valid() && base !in mapped
      ensures m.Valid()
    {
      this.(reserved := reserved - {base})
    }

    function Create(h: nat, len: nat): (m: Memory)
      requires Valid() && h !in live
      ensures m.Valid()
    {
      this.(live := live[h := Physical(len, 0, true)])
    }

    /** cuMemRelease gives up the handle; memory that is still mapped stays. */
    function Release(h: nat): (m: Memory)
      requires Valid() && h in live && live[h].held
      ensures m.Valid()
    {
      this.(live := if live[h].at == 0 then live - {h} else live[h := live[h].(held := false)])
    }

    /** cuMemMap accepts any extent that fits the reservation. A new mapping shows whatever bytes the
        physical memory happens to hold. */
    function Map(base: nat, h: nat, found: seq<byte>): (m: Memory)
      requires Valid()
      requires base in reserved && base !in mapped && |found| <= reserved[base]
      requires h in live && live[h] == Physical(|found|, 0, true)
      ensures m.Valid()
    {
      this.(mapped := mapped[base := Mapping(h, found, false)], live := live[h := live[h].(at := base)])
    }

    function Grant(base: nat): (m: Memory)
      requires Valid() && base in mapped
      ensures m.Valid()
    {
      this.(mapped := mapped[base := mapped[base].(access := true)])
    }

    /** Create, Map and Grant in one step. */
    function Back(base: nat, h: nat, found: seq<byte>): (m: Memory)
      requires Valid()
      requires base in reserved && base !in mapped && h !in live && 0 < base && |found| <= reserved[base]
      ensures m.Valid()
    {
      Memory(reserved, live[h := Physical(|found|, base, true)], mapped[base := Mapping(h, found, true)])
    }

    lemma {:induction false} BackIsThreeCalls(base: nat, h: nat, found: seq<byte>)
      requires Valid()
      requires base in reserved && base !in mapped && h !in live && 0 < base && |found| <= reserved[base]
      ensures Back(base, h, found) == Create(h, |found|).Map(base, h, found).Grant(base)
    {
      Twice(live, h, Physical(|found|, 0, true), Physical(|found|, base, true));
      Twice(mapped, base, Mapping(h, found, false), Mapping(h, found, true));
    }

    /** cuMemUnmap takes a whole mapping or nothing: a range of any other length is refused. */
    predicate Unmappable(base: nat, len: nat) {
      base in mapped && |mapped[base].bytes| == len
    }

    function Unmap(base: nat, len: nat): (m: Memory)
      requires Valid() && Unmappable(base, len)
      ensures m.Valid()
    {
      var h := mapped[base].handle;
      this.(mapped := mapped - {base}, live := if live[h].held then live[h := live[h].(at := 0)] else live - {h})
    }

    /** One byte arriving at base + idx. */
    function Write(base: nat, idx: nat, v: byte): (m: Memory)
      requires base in mapped && idx < |mapped[base].bytes|
      ensures Valid() ==> m.Valid()
      ensures m.reserved == reserved && m.live == live && m.mapped.Keys == mapped.Keys
    {
      this.(mapped := mapped[base := mapped[base].(bytes := mapped[base].bytes[idx := v])])
    }
  }

  lemma {:induction false} Twice<K, V>(m: map<K, V>, k: K, a: V, b: V)
    ensures m[k := a][k := b] == m[k := b]
  {
  }

  /** An address behind all reserved ranges. */
  function EndOf(reserved: map<nat, nat>, q: seq<nat>): (end: nat)
    requires forall k | 0 <= k < |q| :: q[k] in reserved
    ensures forall k | 0 <= k < |q| :: q[k] + reserved[q[k]] <= end
  {
    if q == [] then 0 else
      var n := |q| - 1;
      Max(EndOf(reserved, q[..n]), q[n] + reserved[q[n]])
  }

  /** Reserved ranges never overlap. */
  ghost predicate Disjoint(reserved: map<nat, nat>) {
    forall a, b | a in reserved && b in reserved && a < b :: a + reserved[a] <= b
  }

  /** The device as one process sees it. */
  class Device {
    const obliging: bool   // the driver refuses no call it is able to carry out
    var mem: Memory

    constructor (obliging: bool)
      ensures mem == Memory(map[], map[], map[]) && this.obliging == obliging
    {
      this.obliging := obliging;
      mem := Memory(map[], map[], map[]);
    }

    /** Whether the driver carries out a call it is able to carry out. */
    method Accepts() returns (yes: bool)
      ensures obliging ==> yes
    {
      yes := *;
      yes := yes || obliging;
    }

    /** cuMemAddressReserve: any free range. Addresses do not run out. */
    method FindRange(len: nat) returns (base: nat)
      ensures mem.Reservable(base, len)
    {
      base := *;
      if !mem.Reservable(base, len) {
        base := RoundUp(EndOf(mem.reserved, Ascending(mem.reserved.Keys)) + 1);
      }
    }

    /** cuMemCreate's handle: any that is not in use. */
    method NewHandle() returns (h: nat)
      ensures h !in mem.live
    {
      h := *;
      if h in mem.live {
        h := FreshOutside(mem.live.Keys);
      }
    }

    /** Whatever the new memory happens to hold. */
    method Garbage(len: nat) returns (found: seq<byte>)
      ensures |found| == len
    {
      found := *;
      if |found| != len {
        found := seq(len, i => 0);
      }
    }
  }
}

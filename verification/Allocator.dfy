/** The cudaMalloc/cudaFree hook and the release/remap steps of src/GPUs/NVIDIA/nv.cpp. */
module Allocator {
  import opened Wrappers
  import opened Layout
  import opened Vmm

  datatype Outcome = Success | Failure | Exit

  /** allocated_memory and allocated_memory_type, which share their keys (kind 1: VMM). */
  datatype Allocation = Allocation(size: nat, kind: nat)

  /** What every run of malloc, free, release and remap keeps. */
  ghost predicate Consistent(tracked: map<nat, Allocation>, handles: map<nat, nat>, mem: Memory) {
    && mem.Valid()
    // every tracked address range stays reserved, at its rounded extent
    && (forall p | p in tracked ::
          && tracked[p].kind == 1 && tracked[p].size > 0
          && p in mem.reserved && mem.reserved[p] == RoundUp(tracked[p].size))
    // a tracked pointer is mapped exactly when it has a handle entry
    && (forall p | p in handles ::
          p in tracked && p in mem.mapped && mem.mapped[p].access && mem.mapped[p].handle == handles[p])
    && (forall p | p in mem.mapped :: p in handles)
    // no physical memory is held that is not mapped, none is mapped that is not held
    && (forall h | h in mem.live :: mem.live[h].at != 0 && mem.live[h].held)
  }

  /** Pointer p is unmapped, or mapped at the rounded extent of its tracked size. */
  ghost predicate ExactAt(tracked: map<nat, Allocation>, mem: Memory, p: nat) {
    p in mem.mapped ==> p in tracked && |mem.mapped[p].bytes| == RoundUp(tracked[p].size)
  }

  ghost predicate ExactExtents(tracked: map<nat, Allocation>, mem: Memory) {
    forall p | p in mem.mapped :: ExactAt(tracked, mem, p)
  }

  /** Whether remapPhysicalMemory(ptr, size) can get through: the pointer is tracked, an existing
      mapping can be taken down, and the new extent fits the reservation. */
  ghost predicate CanRemap(tracked: map<nat, Allocation>, mem: Memory, ptr: nat, size: nat) {
    && ptr in tracked && ExactAt(tracked, mem, ptr)
    && ptr in mem.reserved && 0 < RoundUp(size) <= mem.reserved[ptr]
  }

  /** The driver holds exactly the physical memory recorded in the handle map, one handle a pointer. */
  lemma {:induction false} LiveExactlyRecorded(tracked: map<nat, Allocation>, handles: map<nat, nat>, mem: Memory)
    requires Consistent(tracked, handles, mem)
    ensures mem.live.Keys == handles.Values
    ensures forall p, q | p in handles && q in handles && handles[p] == handles[q] :: p == q
    ensures mem.mapped.Keys == handles.Keys
  {
    forall h
      ensures h in mem.live.Keys <==> h in handles.Values
    {
      if h in mem.live.Keys {
        assert mem.live[h].at in handles;
      }
      if h in handles.Values {
        var p :| p in handles && handles[p] == h;
        assert mem.mapped[p].handle in mem.live;
      }
    }
    forall p, q | p in handles && q in handles && handles[p] == handles[q]
      ensures p == q
    {
      assert mem.live[mem.mapped[p].handle].at == p;
      assert mem.live[mem.mapped[q].handle].at == q;
    }
  }

  /** Backing a tracked, unbacked address with any extent that fits keeps the tables and the driver
      in step. */
  lemma {:induction false} BackingKeeps(tracked: map<nat, Allocation>, handles: map<nat, nat>, mem: Memory, p: nat,
                                        h: nat, found: seq<byte>)
    requires Consistent(tracked, handles, mem)
    requires p in tracked && p !in handles && h !in mem.live && |found| <= mem.reserved[p]
    ensures Consistent(tracked, handles[p := h], mem.Back(p, h, found))
  {
  }

  /** All extents are the tracked ones afterwards if and only if the new extent is, and all the
      others were. */
  lemma {:induction false} BackingExact(tracked: map<nat, Allocation>, mem: Memory, p: nat, h: nat, found: seq<byte>)
    requires mem.Valid() && p in tracked && p in mem.reserved && p !in mem.mapped && h !in mem.live && 0 < p
             && |found| <= mem.reserved[p]
    ensures ExactExtents(tracked, mem.Back(p, h, found)) <==>
              ExactExtents(tracked, mem) && |found| == RoundUp(tracked[p].size)
  {
  }

  /** The input that breaks the extents: a 6 MB pointer remapped with 2 MB. Tables and driver are
      still in step, yet the driver refuses to unmap the 6 MB the table asks for. */
  lemma {:induction false} ShrinkingRemap(p: nat, h: nat, found: seq<byte>)
    requires 0 < p && p % GRANULE == 0 && |found| == GRANULE
    ensures var tracked := map[p := Allocation(3 * GRANULE, 1)];
            var mem := Memory(map[p := 3 * GRANULE], map[], map[]);
            && Consistent(tracked, map[], mem) && ExactExtents(tracked, mem)
            && Consistent(tracked, map[p := h], mem.Back(p, h, found))
            && !ExactExtents(tracked, mem.Back(p, h, found))
            && !mem.Back(p, h, found).Unmappable(p, RoundUp(tracked[p].size))
  {
    var tracked := map[p := Allocation(3 * GRANULE, 1)];
    var mem := Memory(map[p := 3 * GRANULE], map[], map[]);
    assert RoundUp(3 * GRANULE) == 3 * GRANULE;
    BackingKeeps(tracked, map[], mem, p, h, found);
    BackingExact(tracked, mem, p, h, found);
  }

  /** Tracking a newly reserved address keeps them in step. */
  lemma {:induction false} TrackingKeeps(tracked: map<nat, Allocation>, handles: map<nat, nat>, mem: Memory, p: nat,
                                         size: nat)
    requires Consistent(tracked, handles, mem) && size > 0 && mem.Reservable(p, RoundUp(size))
    ensures p !in tracked && p !in handles
    ensures Consistent(tracked[p := Allocation(size, 1)], handles, mem.Reserve(p, RoundUp(size)))
    ensures Disjoint(mem.reserved) ==> Disjoint(mem.Reserve(p, RoundUp(size)).reserved)
  {
  }

  /** Forgetting an unbacked address keeps them in step, freed or not. */
  lemma {:induction false} ForgettingKeeps(tracked: map<nat, Allocation>, handles: map<nat, nat>, mem: Memory, p: nat)
    requires Consistent(tracked, handles, mem) && p in tracked && p !in handles
    ensures Consistent(tracked - {p}, handles, mem)
    ensures Consistent(tracked - {p}, handles, mem.FreeRange(p))
    ensures Disjoint(mem.reserved) ==> Disjoint(mem.FreeRange(p).reserved)
  {
  }

  lemma {:induction false} DroppingKeeps(tracked: map<nat, Allocation>, handles: map<nat, nat>, mem: Memory, p: nat)
    requires Consistent(tracked, handles, mem) && p in handles
    ensures var unmapped := mem.Unmap(p, |mem.mapped[p].bytes|);
            && handles[p] in unmapped.live && unmapped.live[handles[p]].held && unmapped.live[handles[p]].at == 0
            && Consistent(tracked, handles - {p}, unmapped.Release(handles[p]))
  {
  }

  /** Giving up only the handle of a mapped pointer breaks the tables for good. */
  lemma {:induction false} LeavingBreaks(tracked: map<nat, Allocation>, handles: map<nat, nat>, mem: Memory, p: nat)
    requires Consistent(tracked, handles, mem) && p in handles
    ensures handles[p] in mem.live && mem.live[handles[p]].held
    ensures mem.Release(handles[p]).mapped == mem.mapped && mem.Release(handles[p]).reserved == mem.reserved
    ensures !Consistent(tracked - {p}, handles - {p}, mem.Release(handles[p]))
  {
  }

  lemma {:induction false} Undo<K, V>(m: map<K, V>, k: K, v: V)
    requires k !in m
    ensures m[k := v] - {k} == m
  {
  }

  lemma {:induction false} NotThere<K, V>(m: map<K, V>, k: K)
    ensures k !in m ==> m - {k} == m
  {
  }

  lemma {:induction false} Redo<K, V>(m: map<K, V>, k: K, v: V)
    ensures (m - {k})[k := v] == m[k := v]
  {
  }

  /** Handle h is not held any more, and every other one is as it was. */
  ghost predicate OnlyGivenUp(h: nat, mem: Memory, was: Memory) {
    && (h in mem.live ==> !mem.live[h].held)
    && (forall g | g != h :: g in mem.live <==> g in was.live)
    && (forall g | g != h && g in mem.live :: mem.live[g] == was.live[g])
  }

  class AllocatorHook {
    const dev: Device
    var tracked: map<nat, Allocation>
    var handles: map<nat, nat>   // global_handle_map

    constructor (dev: Device)
      requires dev.mem == Memory(map[], map[], map[])
      ensures this.dev == dev && Valid() && Exact() && tracked == map[]
    {
      this.dev := dev;
      tracked, handles := map[], map[];
    }

    ghost predicate Valid()
      reads this, dev
    {
      Consistent(tracked, handles, dev.mem)
    }

    /** Every mapping has the rounded extent of its tracked size. */
    ghost predicate Exact()
      reads this, dev
    {
      ExactExtents(tracked, dev.mem)
    }

    ghost predicate ExactPtr(ptr: nat)
      reads this, dev
    {
      ExactAt(tracked, dev.mem, ptr)
    }

    /** Reserve, create, map, grant access. `refused` is which of the four driver calls fail; a failing call
        unwinds the earlier ones. */
    method Malloc(size: nat, refused: Refusals) returns (r: Outcome, ptr: nat)
      requires Valid()
      modifies this, dev
      ensures Valid() && (old(Exact()) ==> Exact())
      ensures Disjoint(old(dev.mem.reserved)) ==> Disjoint(dev.mem.reserved)
      ensures r != Exit && (r == Success <==> size == 0 || !(refused(0) || refused(1) || refused(2) || refused(3)))
      ensures size == 0 ==> r == Success && ptr == 0
      ensures r == Failure || size == 0 ==>
                dev.mem == old(dev.mem) && tracked == old(tracked) && handles == old(handles)
      ensures r == Success && size > 0 ==>
                && ptr !in old(tracked) && ptr !in old(dev.mem.reserved)
                && tracked == old(tracked)[ptr := Allocation(size, 1)]
                && dev.mem.Readable(ptr, RoundUp(size))
                && dev.mem.mapped == old(dev.mem.mapped)[ptr := dev.mem.mapped[ptr]]
                && dev.mem.reserved == old(dev.mem.reserved)[ptr := RoundUp(size)]
                && ptr in handles && handles == old(handles)[ptr := handles[ptr]]
    {
      if size == 0 {
        return Success, 0;
      }
      var aligned := RoundUp(size);
      if refused(0) {
        return Failure, 0;
      }
      var va := dev.FindRange(aligned);
      r := MallocAt(va, size, aligned, refused);
      ptr := if r == Success then va else 0;
    }

    /** The same at a free range. */
    method MallocAt(va: nat, size: nat, aligned: nat, refused: Refusals) returns (r: Outcome)
      requires Valid() && size > 0 && aligned == RoundUp(size) && dev.mem.Reservable(va, aligned)
      modifies this, dev
      ensures Valid() && (old(Exact()) ==> Exact())
      ensures Disjoint(old(dev.mem.reserved)) ==> Disjoint(dev.mem.reserved)
      ensures r != Exit && (r == Success <==> !refused(1) && !refused(2) && !refused(3))
      ensures r == Failure ==> dev.mem == old(dev.mem) && tracked == old(tracked) && handles == old(handles)
      ensures r == Success ==>
                && va !in old(tracked)
                && tracked == old(tracked)[va := Allocation(size, 1)]
                && dev.mem.Readable(va, aligned)
                && dev.mem.mapped == old(dev.mem.mapped)[va := dev.mem.mapped[va]]
                && dev.mem.reserved == old(dev.mem.reserved)[va := aligned]
                && va in handles && handles == old(handles)[va := handles[va]]
    {
      TrackingKeeps(tracked, handles, dev.mem, va, size);
      dev.mem := dev.mem.Reserve(va, aligned);
      ghost var reserved := dev.mem;
      var ok, h := CreateAndMap(va, aligned, refused);
      if !ok {
        dev.mem := dev.mem.FreeRange(va);
        Undo(old(dev.mem.reserved), va, aligned);
        return Failure;
      }
      BackingKeeps(tracked[va := Allocation(size, 1)], handles, reserved, va, h, dev.mem.mapped[va].bytes);
      handles := handles[va := h];
      tracked := tracked[va := Allocation(size, 1)];
      r := Success;
    }

    /** The last three of the four calls. */
    method CreateAndMap(va: nat, aligned: nat, refused: Refusals) returns (ok: bool, h: nat)
      requires dev.mem.Valid()
      requires va in dev.mem.reserved && dev.mem.reserved[va] == aligned && va !in dev.mem.mapped
      modifies dev
      ensures !ok ==> dev.mem == old(dev.mem)
      ensures ok <==> !refused(1) && !refused(2) && !refused(3)
      ensures ok ==>
                && h !in old(dev.mem.live) && va in dev.mem.mapped
                && |dev.mem.mapped[va].bytes| == aligned
                && dev.mem == old(dev.mem).Back(va, h, dev.mem.mapped[va].bytes)
    {
      var found := dev.Garbage(aligned);
      h := dev.NewHandle();
      ok := false;
      if refused(1) {
        return;
      }
      dev.mem := dev.mem.Create(h, aligned);
      if refused(2) {
        dev.mem := dev.mem.Release(h);
        Undo(old(dev.mem.live), h, Physical(aligned, 0, true));
        return;
      }
      dev.mem := dev.mem.Map(va, h, found);
      if refused(3) {
        dev.mem := dev.mem.Unmap(va, aligned);
        dev.mem := dev.mem.Release(h);
        Undo(old(dev.mem.mapped), va, Mapping(h, found, false));
        Undo(old(dev.mem.live), h, Physical(aligned, 0, true));
        assert dev.mem.live == old(dev.mem.live);
        return;
      }
      dev.mem := dev.mem.Grant(va);
      old(dev.mem).BackIsThreeCalls(va, h, found);
      ok := true;
    }

    /** Unmap and release a mapped pointer's memory; the address stays reserved. The unmap asks for
        the rounded extent of the tracked size, and the driver refuses it if that is not the mapped
        one. */
    method DropBacking(ptr: nat) returns (ok: bool)
      requires Valid() && ptr in handles
      modifies this`handles, dev
      ensures Valid()
      ensures ok == old(ExactPtr(ptr))
      ensures dev.mem.reserved == old(dev.mem.reserved)
      ensures ok ==> handles == old(handles) - {ptr} && dev.mem.mapped == old(dev.mem.mapped) - {ptr}
      ensures !ok ==> handles == old(handles) && dev.mem == old(dev.mem)
      ensures ok ==> OnlyGivenUp(old(handles)[ptr], dev.mem, old(dev.mem))
    {
      var aligned := RoundUp(tracked[ptr].size);
      ok := dev.mem.Unmappable(ptr, aligned);
      if ok {
        DroppingKeeps(tracked, handles, dev.mem, ptr);
        dev.mem := dev.mem.Unmap(ptr, aligned);
        dev.mem := dev.mem.Release(handles[ptr]);
        handles := handles - {ptr};
      }
    }

    /** Unmap, release, free the address: the driver calls of the cudaFree hook, whose results are
        ignored. When the mapped extent is not the tracked one, the unmap and the address free are
        refused and only the handle goes. */
    method CleanUp(ptr: nat)
      requires Valid() && ptr in handles
      modifies this`handles, dev
      ensures Consistent(tracked - {ptr}, handles, dev.mem) == old(ExactPtr(ptr))
      ensures handles == old(handles) - {ptr}
      ensures old(ExactPtr(ptr)) ==>
                && dev.mem.mapped == old(dev.mem.mapped) - {ptr} && dev.mem.reserved == old(dev.mem.reserved) - {ptr}
                && (Disjoint(old(dev.mem.reserved)) ==> Disjoint(dev.mem.reserved))
      ensures !old(ExactPtr(ptr)) ==> dev.mem.mapped == old(dev.mem.mapped) && dev.mem.reserved == old(dev.mem.reserved)
      ensures OnlyGivenUp(old(handles)[ptr], dev.mem, old(dev.mem))
    {
      var ok := DropBacking(ptr);
      if ok {
        ForgettingKeeps(tracked, handles, dev.mem, ptr);
        dev.mem := dev.mem.FreeRange(ptr);
      } else {
        LeavingBreaks(tracked, handles, dev.mem, ptr);
        dev.mem := dev.mem.Release(handles[ptr]);
        handles := handles - {ptr};
      }
    }

    /** The cudaFree hook. Untracked pointers go to the real cudaFree, which owns none of this state.
        A pointer whose memory was released earlier keeps its reservation even after it is forgotten.
        A pointer whose mapped extent is not the tracked one leaves its mapping behind, with nothing
        that tracks it; this is the only way to break the tables. */
    method Free(ptr: nat)
      requires Valid()
      modifies this, dev
      ensures !Valid() <==> ptr in old(tracked) && !old(ExactPtr(ptr))
      ensures Valid() && Disjoint(old(dev.mem.reserved)) ==> Disjoint(dev.mem.reserved)
      ensures tracked == old(tracked) - {ptr} && handles == old(handles) - {ptr}
      ensures ptr !in old(tracked) ==> dev.mem == old(dev.mem)
      ensures ptr in old(tracked) ==>
                dev.mem.mapped == if old(ExactPtr(ptr)) then old(dev.mem.mapped) - {ptr} else old(dev.mem.mapped)
      ensures ptr in old(tracked) ==>
                dev.mem.reserved == if ptr in old(handles) && old(ExactPtr(ptr))
                                    then old(dev.mem.reserved) - {ptr} else old(dev.mem.reserved)
      ensures ptr in old(tracked) && ptr in old(handles) ==> OnlyGivenUp(old(handles)[ptr], dev.mem, old(dev.mem))
    {
      if ptr in tracked && tracked[ptr].kind == 1 && ptr in handles {
        CleanUp(ptr);
      } else {
        if ptr in tracked {
          ForgettingKeeps(tracked, handles, dev.mem, ptr);
        }
        NotThere(tracked, ptr);
        NotThere(handles, ptr);
        NotThere(dev.mem.mapped, ptr);
      }
      tracked := tracked - {ptr};
    }

    /** releasePhysicalMemory: give the memory back, keep the address. The driver is asked to unmap
        first, which it refuses for a pointer that is not mapped or not at its tracked extent. */
    method ReleasePhysical(ptr: nat) returns (r: Outcome)
      requires Valid()
      modifies this`handles, dev
      ensures Valid()
      ensures r == if ptr in tracked && ptr in old(handles) && old(ExactPtr(ptr)) then Success else Failure
      ensures dev.mem.reserved == old(dev.mem.reserved)
      ensures r == Success ==>
                handles == old(handles) - {ptr} && dev.mem.mapped == old(dev.mem.mapped) - {ptr}
      ensures r == Failure ==> handles == old(handles) && dev.mem == old(dev.mem)
    {
      if ptr !in tracked || ptr !in dev.mem.mapped {
        return Failure;
      }
      var ok := DropBacking(ptr);
      return if ok then Success else Failure;
    }

    /** remapPhysicalMemory: back a tracked address with fresh memory of the rounded `size`, which
        comes from the dump's file table. A driver error in the second half exits the process. All
        extents are the tracked ones afterwards if and only if this one is. */
    method RemapPhysical(ptr: nat, size: nat) returns (r: Outcome)
      requires Valid()
      modifies this`handles, dev
      ensures Valid()
      ensures dev.mem.reserved == old(dev.mem.reserved)
      ensures r == Failure <==> ptr !in tracked || !old(ExactPtr(ptr))
      ensures r == Failure ==> handles == old(handles) && dev.mem == old(dev.mem)
      ensures r == Success ==> CanRemap(tracked, old(dev.mem), ptr, size)
      ensures dev.obliging && CanRemap(tracked, old(dev.mem), ptr, size) ==> r == Success
      ensures r == Success ==>
                && dev.mem.Readable(ptr, RoundUp(size)) && |dev.mem.mapped[ptr].bytes| == RoundUp(size)
                && dev.mem.mapped == old(dev.mem.mapped)[ptr := dev.mem.mapped[ptr]]
                && ptr in handles && handles == old(handles)[ptr := handles[ptr]]
      ensures r == Success && old(Exact()) ==> (Exact() <==> RoundUp(size) == RoundUp(tracked[ptr].size))
    {
      if ptr !in tracked {
        return Failure;
      }
      if ptr in handles {
        var ok := DropBacking(ptr);
        if !ok {
          return Failure;
        }
      }
      var aligned := RoundUp(size);
      var found := dev.Garbage(aligned);
      var h := dev.NewHandle();
      var ok := dev.Accepts();
      if !ok || aligned == 0 || dev.mem.reserved[ptr] < aligned {
        return Exit;
      }
      BackingKeeps(tracked, handles, dev.mem, ptr, h, found);
      BackingExact(tracked, dev.mem, ptr, h, found);
      Redo(old(dev.mem.mapped), ptr, Mapping(h, found, true));
      Redo(old(handles), ptr, h);
      dev.mem := dev.mem.Back(ptr, h, found);
      handles := handles[ptr := h];
      return Success;
    }

    /** After a 6 MB pointer was remapped with 2 MB, its memory cannot be released any more, nor
        remapped, and freeing it leaves the mapping behind. */
    method ShrunkPointerIsStuck(ptr: nat) returns (remap: Outcome, release: Outcome, again: Outcome)
      requires Valid() && dev.obliging
      requires ptr in tracked && tracked[ptr].size == 3 * GRANULE && ptr !in handles
      modifies this, dev
      ensures remap == Success && release == Failure && again == Failure
      ensures ptr !in tracked && ptr in dev.mem.mapped && |dev.mem.mapped[ptr].bytes| == GRANULE
      ensures !Valid()
    {
      assert RoundUp(3 * GRANULE) == 3 * GRANULE && RoundUp(GRANULE) == GRANULE;
      remap := RemapPhysical(ptr, GRANULE);
      release := ReleasePhysical(ptr);
      again := RemapPhysical(ptr, 3 * GRANULE);
      Free(ptr);
    }
  }
}

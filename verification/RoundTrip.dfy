/** Checkpoint followed by restore, for one worker. */
module RoundTrip {
  import opened Layout
  import opened Ordered
  import opened Vmm
  import opened Allocator
  import opened Dump
  import opened Replay
  import opened Image
  import opened VGpu

  /** What a dump and a restore of it do to the blocks of `order`: each is mapped at its rounded
      extent and shows its dumped bytes again; every other block is untouched. */
  ghost predicate Recovered(order: seq<nat>, tracked: map<nat, Allocation>, selective: bool, mem: Memory,
                            released: map<nat, Mapping>, after: map<nat, Mapping>)
  {
    && (forall k | 0 <= k < |order| :: RecoveredOne(order[k], tracked, selective, mem, after))
    && (forall p | p in released && p !in order :: p in after && after[p] == released[p])
    && (forall p | p in after :: p in released || p in order)
  }

  ghost predicate RecoveredOne(p: nat, tracked: map<nat, Allocation>, selective: bool, mem: Memory,
                               after: map<nat, Mapping>) {
    && p in tracked && p in after
    && |after[p].bytes| == RoundUp(tracked[p].size)
    && DumpSize(tracked[p], selective) <= |after[p].bytes|
    && after[p].bytes[..DumpSize(tracked[p], selective)] == Shown(mem, p, DumpSize(tracked[p], selective))
  }

  lemma {:induction false} TableWellFormed(saved: seq<Saved>, order: seq<nat>, mem: Memory,
                                           tracked: map<nat, Allocation>, selective: bool)
    requires Captures(saved, order, mem, tracked, selective) && StrictlyAscending(order)
    ensures WellFormed(Table(saved), PAYLOAD_START, PAYLOAD_START + |Payload(saved)|)
    ensures forall k | 0 <= k < |order| :: Table(saved)[k].ptr == order[k]
  {
    TablePacked(saved);
    forall k | 0 <= k < |order|
      ensures Table(saved)[k].ptr == order[k]
    {
      TableSlicesPayload(saved, k);
      assert CapturesOne(saved[k], order[k], mem, tracked, selective);
    }
  }

  /** Rounding the dump size gives the rounded extent, on both paths. */
  lemma {:induction false} SameRound(a: Allocation, selective: bool)
    ensures RoundUp(DumpSize(a, selective)) == RoundUp(a.size)
    ensures a.size > 0 ==> 0 < RoundUp(a.size)
  {
    RoundUpIdempotent(a.size);
  }

  /** Every block of a dump can be remapped once it has been released. */
  lemma {:induction false} DumpRemappable(saved: seq<Saved>, order: seq<nat>, mem: Memory,
                                          tracked: map<nat, Allocation>, selective: bool, handles: map<nat, nat>,
                                          after: Memory)
    requires Captures(saved, order, mem, tracked, selective) && StrictlyAscending(order)
    requires Consistent(tracked, handles, after) && forall k | 0 <= k < |order| :: order[k] !in after.mapped
    ensures AllRemappable(Table(saved), tracked, after)
  {
    forall k | 0 <= k < |order|
      ensures CanRemap(tracked, after, Table(saved)[k].ptr, Table(saved)[k].size)
    {
      TableSlicesPayload(saved, k);
      assert CapturesOne(saved[k], order[k], mem, tracked, selective);
      SameRound(tracked[order[k]], selective);
    }
  }

  /** Restoring file k of the dump gives block k its bytes back. */
  lemma {:induction false} FileRecovered(saved: seq<Saved>, order: seq<nat>, mem: Memory, tracked: map<nat, Allocation>,
                                         selective: bool, mid: map<nat, Mapping>, released: map<nat, Mapping>, k: nat)
    requires Captures(saved, order, mem, tracked, selective) && StrictlyAscending(order) && k < |order|
    requires Remapped(Table(saved), released, mid)
    ensures RecoveredOne(order[k], tracked, selective, mem,
            RestoreAll(mid, Table(saved), Payload(saved), PAYLOAD_START))
  {
    var q, data := Table(saved), Payload(saved);
    AllFeasible(saved, order, mem, tracked, selective, mid, released);
    RestoreAllWorks(mid, q, data, PAYLOAD_START, k);
    RestoreAllFrame(mid, q, data, PAYLOAD_START);
    TableSlicesPayload(saved, k);
    assert CapturesOne(saved[k], order[k], mem, tracked, selective);
    assert RemappedOne(q[k], mid);
    SameRound(tracked[order[k]], selective);
    assert Resized(mid[order[k]], RestoreAll(mid, q, data, PAYLOAD_START)[order[k]]);
  }

  lemma {:induction false} AllFeasible(saved: seq<Saved>, order: seq<nat>, mem: Memory, tracked: map<nat, Allocation>,
                                       selective: bool, mid: map<nat, Mapping>, released: map<nat, Mapping>)
    requires Captures(saved, order, mem, tracked, selective) && StrictlyAscending(order)
    requires Remapped(Table(saved), released, mid)
    ensures DistinctPtrs(Table(saved))
    ensures forall k | 0 <= k < |Table(saved)| :: Feasible(mid, Table(saved)[k], Payload(saved), PAYLOAD_START)
  {
    TableWellFormed(saved, order, mem, tracked, selective);
    forall k | 0 <= k < |Table(saved)|
      ensures Feasible(mid, Table(saved)[k], Payload(saved), PAYLOAD_START)
    {
      TableSlicesPayload(saved, k);
      assert RemappedOne(Table(saved)[k], mid);
    }
  }

  /** The plain restore of a dump recovers every dumped block and nothing else. */
  lemma {:induction false} DumpRecovered(saved: seq<Saved>, order: seq<nat>, mem: Memory, tracked: map<nat, Allocation>,
                                         selective: bool, mid: map<nat, Mapping>, released: map<nat, Mapping>)
    requires Captures(saved, order, mem, tracked, selective) && StrictlyAscending(order)
    requires Remapped(Table(saved), released, mid)
    ensures Recovered(order, tracked, selective, mem, released,
            RestoreAll(mid, Table(saved), Payload(saved), PAYLOAD_START))
  {
    var q, data := Table(saved), Payload(saved);
    var after := RestoreAll(mid, q, data, PAYLOAD_START);
    AllFeasible(saved, order, mem, tracked, selective, mid, released);
    RestoreAllFrame(mid, q, data, PAYLOAD_START);
    TableWellFormed(saved, order, mem, tracked, selective);
    forall k | 0 <= k < |order|
      ensures RecoveredOne(order[k], tracked, selective, mem, after)
    {
      FileRecovered(saved, order, mem, tracked, selective, mid, released, k);
    }
    forall p | p in released && p !in order
      ensures p in after && after[p] == released[p]
    {
      assert Untargeted(p, q);
    }
    forall p | p in after
      ensures p in released || p in order
    {
      assert p in mid;
      if p !in released {
        var k :| 0 <= k < |q| && q[k].ptr == p;
        assert order[k] == p;
      }
    }
  }

  /** Restore what a dump left behind, with nothing in between: without a driver refusal it
      succeeds. */
  method RestoreDump(w: Worker, ghost saved: seq<Saved>, ghost order: seq<nat>, ghost mem: Memory, selective: bool)
    returns (ok: bool)
    requires w.Ok() && w.Holds(saved)
    requires Captures(saved, order, mem, w.alloc.tracked, selective) && StrictlyAscending(order)
    requires forall k | 0 <= k < |order| :: order[k] !in w.alloc.dev.mem.mapped
    modifies w.staging, w.alloc`handles, w.alloc.dev
    ensures ok ==> w.Ok() && w.alloc.dev.mem.reserved == old(w.alloc.dev.mem.reserved)
    ensures ok ==>
              Recovered(order, w.alloc.tracked, selective, mem, old(w.alloc.dev.mem.mapped), w.alloc.dev.mem.mapped)
    ensures w.alloc.dev.obliging ==> ok
  {
    TableWellFormed(saved, order, mem, w.alloc.tracked, selective);
    DumpRemappable(saved, order, mem, w.alloc.tracked, selective, w.alloc.handles, w.alloc.dev.mem);
    assert w.currentOffset == PAYLOAD_START + |Payload(saved)|;
    assert w.First() == PAYLOAD_START;
    ghost var released := w.alloc.dev.mem.mapped;
    ghost var mid, copies;
    ok, mid, copies := w.Restore(selective);
    assert w.First() == PAYLOAD_START;
    if ok {
      DumpRecovered(saved, order, mem, w.alloc.tracked, selective, mid, released);
    }
  }

  /** Full checkpoint and restore: every tracked allocation is mapped again at its address and shows
      the bytes it showed before, whatever the DMA engine did. Unless the driver refuses a call it
      could carry out, the cycle succeeds if and only if the dump is feasible. */
  method FullCycle(w: Worker) returns (ok: bool)
    requires w.Ok()
    modifies w`files, w`currentOffset, w.shm, w.staging, w.alloc`handles, w.alloc.dev
    ensures ok ==> w.Ok() && w.alloc.Exact() && w.alloc.dev.mem.reserved == old(w.alloc.dev.mem.reserved)
    ensures ok ==> w.alloc.dev.mem.mapped.Keys == w.alloc.tracked.Keys == old(w.alloc.dev.mem.mapped).Keys
    ensures ok ==> forall p | p in w.alloc.tracked ::
                     w.alloc.dev.mem.mapped[p].bytes == old(w.alloc.dev.mem.mapped)[p].bytes
    ensures ok ==> FullDumpable(w.alloc.tracked, old(w.alloc.dev.mem), w.shm.Length)
    ensures w.alloc.dev.obliging && FullDumpable(w.alloc.tracked, old(w.alloc.dev.mem), w.shm.Length) ==> ok
  {
    ghost var saved;
    ghost var mem := w.alloc.dev.mem;
    ghost var order := Ascending(w.alloc.tracked.Keys);
    ok, saved := w.Ckpt();
    if ok {
      ok := RestoreDump(w, saved, order, mem, false);
      if ok {
        FullBytes(order, w.alloc.tracked, mem, w.alloc.dev.mem.mapped);
      }
    }
  }

  /** A full dump of all tracked allocations is feasible. */
  ghost predicate FullDumpable(tracked: map<nat, Allocation>, mem: Memory, shmSize: nat) {
    Dumpable(Ascending(tracked.Keys), tracked, mem, false, shmSize)
  }

  lemma {:induction false} FullBytes(order: seq<nat>, tracked: map<nat, Allocation>, mem: Memory,
                                     after: map<nat, Mapping>)
    requires Recovered(order, tracked, false, mem, map[], after)
    requires forall p :: p in order <==> p in tracked
    requires forall p | p in mem.mapped :: p in tracked && mem.mapped[p].access
    requires forall k | 0 <= k < |order| :: Backed(tracked, mem, order[k])
    ensures after.Keys == tracked.Keys == mem.mapped.Keys
    ensures forall p | p in tracked ::
            after[p].bytes == mem.mapped[p].bytes && |after[p].bytes| == RoundUp(tracked[p].size)
  {
  }

  /** A selective dump of the allocations around the requested pointers is feasible. */
  ghost predicate SelectiveDumpable(tracked: map<nat, Allocation>, mem: Memory, req: seq<nat>, shmSize: nat) {
    Dumpable(Ascending(RequestedBlocks(tracked, req)), tracked, mem, true, shmSize)
  }

  /** Both show n bytes, the same ones, and neither has grown or shrunk. */
  ghost predicate SameFirst(n: nat, after: seq<byte>, before: seq<byte>) {
    n <= |after| == |before| && after[..n] == before[..n]
  }

  /** Selective checkpoint and restore: the allocations around the requested pointers get back
      their requested bytes and their mapped extent; every other allocation keeps even its handle.
      Unless the driver refuses a call it could carry out, the cycle succeeds if and only if the
      selective dump is feasible. */
  method SelectiveCycle(w: Worker, req: seq<nat>) returns (ok: bool)
    requires w.Ok() && Disjoint(w.alloc.dev.mem.reserved)
    modifies w`files, w`currentOffset, w.shm, w.staging, w.alloc`handles, w.alloc.dev
    ensures ok ==> w.Ok() && w.alloc.dev.mem.reserved == old(w.alloc.dev.mem.reserved)
    ensures ok ==> forall p | p in RequestedBlocks(w.alloc.tracked, req) ::
                     && p in old(w.alloc.dev.mem.mapped) && p in w.alloc.dev.mem.mapped
                     && SameFirst(w.alloc.tracked[p].size, w.alloc.dev.mem.mapped[p].bytes,
                                  old(w.alloc.dev.mem.mapped)[p].bytes)
    ensures ok ==> forall p | p in old(w.alloc.dev.mem.mapped) && p !in RequestedBlocks(w.alloc.tracked, req) ::
                     p in w.alloc.dev.mem.mapped && w.alloc.dev.mem.mapped[p] == old(w.alloc.dev.mem.mapped)[p]
    ensures ok ==> w.alloc.dev.mem.mapped.Keys == old(w.alloc.dev.mem.mapped).Keys
    ensures ok ==> SelectiveDumpable(w.alloc.tracked, old(w.alloc.dev.mem), req, w.shm.Length)
    ensures w.alloc.dev.obliging && SelectiveDumpable(w.alloc.tracked, old(w.alloc.dev.mem), req, w.shm.Length) ==> ok
  {
    ghost var saved, copies;
    ghost var mem := w.alloc.dev.mem;
    var blocks;
    ok, blocks, saved, copies := w.CkptSelective(req);
    if ok {
      ghost var order := Ascending(blocks);
      ok := RestoreDump(w, saved, order, mem, true);
      if ok {
        SelectiveBytes(order, blocks, w.alloc.tracked, mem, w.alloc.dev.mem.mapped);
      }
    }
  }

  lemma {:induction false} SelectiveBytes(order: seq<nat>, blocks: set<nat>, tracked: map<nat, Allocation>, mem: Memory,
                                          after: map<nat, Mapping>)
    requires Recovered(order, tracked, true, mem, mem.mapped - blocks, after)
    requires forall p :: p in order <==> p in blocks
    requires forall k | 0 <= k < |order| :: Backed(tracked, mem, order[k])
    ensures forall p | p in blocks ::
              && p in tracked && p in mem.mapped && p in after
              && SameFirst(tracked[p].size, after[p].bytes, mem.mapped[p].bytes)
    ensures forall p | p in mem.mapped && p !in blocks :: p in after && after[p] == mem.mapped[p]
    ensures after.Keys == mem.mapped.Keys
  {
  }
}

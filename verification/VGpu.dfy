/** Full and selective checkpoint and restore of one worker (src/vGPU.cpp), on top of the copy
    pipelines and the allocator hook. */
module VGpu {
  import opened Layout
  import opened Ordered
  import opened Vmm
  import opened Granule
  import opened Allocator
  import opened Dump
  import opened Refill
  import opened Replay
  import opened Image
  import opened Stream

  /** Bytes dumped for one allocation: its rounded extent, or on the selective path just what the
      application asked for. */
  function DumpSize(a: Allocation, selective: bool): nat {
    if selective then a.size else RoundUp(a.size)
  }

  /** What is saved is the blocks of `order`, each at its dump size, as device memory held them. */
  ghost predicate Captures(saved: seq<Saved>, order: seq<nat>, mem: Memory, tracked: map<nat, Allocation>,
                           selective: bool) {
    && |saved| == |order|
    && forall k | 0 <= k < |order| :: CapturesOne(saved[k], order[k], mem, tracked, selective)
  }

  ghost predicate CapturesOne(b: Saved, p: nat, mem: Memory, tracked: map<nat, Allocation>, selective: bool) {
    && p in tracked && b.ptr == p
    && |b.bytes| == DumpSize(tracked[p], selective)
    && b.bytes == Shown(mem, p, DumpSize(tracked[p], selective))
  }

  lemma {:induction false} CapturesNext(saved: seq<Saved>, order: seq<nat>, i: nat, b: Saved, mem: Memory,
                                        tracked: map<nat, Allocation>, selective: bool)
    requires i < |order| && Captures(saved, order[..i], mem, tracked, selective)
    requires CapturesOne(b, order[i], mem, tracked, selective)
    ensures Captures(saved + [b], order[..i + 1], mem, tracked, selective)
  {
  }

  /** Bytes dumped for all the blocks of `order`. */
  ghost function DumpTotal(order: seq<nat>, tracked: map<nat, Allocation>, selective: bool): nat {
    if order == [] then 0 else
      var p := order[|order| - 1];
      DumpTotal(order[..|order| - 1], tracked, selective)
        + (if p in tracked then DumpSize(tracked[p], selective) else 0)
  }

  lemma {:induction false} DumpTotalGrows(order: seq<nat>, i: nat, tracked: map<nat, Allocation>, selective: bool)
    requires i <= |order|
    ensures DumpTotal(order[..i], tracked, selective) <= DumpTotal(order, tracked, selective)
  {
    if i == |order| {
      assert order[..i] == order;
    } else {
      var rest := order[..|order| - 1];
      assert rest[..i] == order[..i];
      DumpTotalGrows(rest, i, tracked, selective);
    }
  }

  lemma {:induction false} DumpTotalNext(order: seq<nat>, i: nat, tracked: map<nat, Allocation>, selective: bool)
    requires i < |order| && order[i] in tracked
    ensures DumpTotal(order[..i + 1], tracked, selective)
            == DumpTotal(order[..i], tracked, selective) + DumpSize(tracked[order[i]], selective)
  {
    assert order[..i + 1][..i] == order[..i];
  }

  /** Block p is mapped, at the rounded extent of its tracked size. */
  ghost predicate Backed(tracked: map<nat, Allocation>, mem: Memory, p: nat) {
    p in mem.mapped && ExactAt(tracked, mem, p)
  }

  /** What a dump of `order` into a file of shmSize bytes needs: fewer than MAX_FILE_NUM blocks, room
      for their bytes, and every block mapped at its extent. */
  ghost predicate Dumpable(order: seq<nat>, tracked: map<nat, Allocation>, mem: Memory, selective: bool, shmSize: nat) {
    && |order| < MAX_FILE_NUM
    && PAYLOAD_START + DumpTotal(order, tracked, selective) <= shmSize
    && forall k | 0 <= k < |order| :: Backed(tracked, mem, order[k])
  }

  /** Block p is saved with the first n bytes its address showed. */
  ghost predicate SavedFirst(b: Saved, p: nat, mem: Memory, n: nat) {
    b.ptr == p && p in mem.mapped && n <= |mem.mapped[p].bytes| && b.bytes == mem.mapped[p].bytes[..n]
  }

  /** A full dump saves whole extents. */
  ghost predicate ExtentsSaved(saved: seq<Saved>, order: seq<nat>, mem: Memory, tracked: map<nat, Allocation>) {
    && |saved| == |order|
    && forall k | 0 <= k < |order| ::
         order[k] in tracked && SavedFirst(saved[k], order[k], mem, RoundUp(tracked[order[k]].size))
  }

  /** A selective dump saves the bytes the application asked for, in copies of the right shape. */
  ghost predicate RequestSaved(saved: seq<Saved>, copies: seq<seq<Chunk>>, order: seq<nat>, mem: Memory,
                               tracked: map<nat, Allocation>, s: nat) {
    && |saved| == |copies| == |order|
    && forall k | 0 <= k < |order| ::
         && order[k] in tracked && SavedFirst(saved[k], order[k], mem, tracked[order[k]].size)
         && InShape(copies[k], order[k], tracked[order[k]].size, s)
  }

  lemma {:induction false} SavedExactly(saved: seq<Saved>, copies: seq<seq<Chunk>>, order: seq<nat>, mem: Memory,
                                        tracked: map<nat, Allocation>, selective: bool, s: nat)
    requires Captures(saved, order, mem, tracked, selective) && forall k | 0 <= k < |order| :: order[k] in tracked
    requires forall k | 0 <= k < |order| :: Backed(tracked, mem, order[k]) && mem.mapped[order[k]].access
    requires selective ==> AllInShape(copies, order, DumpSizes(order, tracked, true), s)
    ensures selective ==> RequestSaved(saved, copies, order, mem, tracked, s)
    ensures !selective ==> ExtentsSaved(saved, order, mem, tracked)
  {
    forall k | 0 <= k < |order|
      ensures selective ==> SavedFirst(saved[k], order[k], mem, tracked[order[k]].size)
      ensures !selective ==> SavedFirst(saved[k], order[k], mem, RoundUp(tracked[order[k]].size))
    {
      assert CapturesOne(saved[k], order[k], mem, tracked, selective) && Backed(tracked, mem, order[k]);
    }
  }

  /** The device copies of block k of a selective dump or restore have the right shape. */
  ghost predicate AllInShape(copies: seq<seq<Chunk>>, order: seq<nat>, sizes: seq<nat>, s: nat) {
    && |copies| == |order| == |sizes|
    && forall k | 0 <= k < |order| :: InShape(copies[k], order[k], sizes[k], s)
  }

  function DumpSizes(order: seq<nat>, tracked: map<nat, Allocation>, selective: bool): (q: seq<nat>)
    requires forall k | 0 <= k < |order| :: order[k] in tracked
    ensures |q| == |order|
  {
    seq(|order|, k requires 0 <= k < |order| => DumpSize(tracked[order[k]], selective))
  }

  function Ptrs(files: seq<FileEntry>): (q: seq<nat>)
    ensures |q| == |files|
  {
    seq(|files|, k requires 0 <= k < |files| => files[k].ptr)
  }

  function Sizes(files: seq<FileEntry>): (q: seq<nat>)
    ensures |q| == |files|
  {
    seq(|files|, k requires 0 <= k < |files| => files[k].size)
  }

  ghost function Elems(q: seq<nat>): set<nat> {
    set p | p in q
  }

  lemma {:induction false} ElemsNext<V>(q: seq<nat>, i: nat, m: map<nat, V>)
    requires i < |q|
    ensures m - Elems(q[..i]) - {q[i]} == m - Elems(q[..i + 1])
  {
  }

  lemma {:induction false} VisitsAll(blocks: set<nat>)
    ensures Elems(Ascending(blocks)) == blocks
    ensures forall k | 0 <= k < |Ascending(blocks)| :: Ascending(blocks)[k] in blocks
  {
  }

  /** Releasing every tracked block leaves nothing mapped. */
  lemma {:induction false} NothingLeft(tracked: map<nat, Allocation>, handles: map<nat, nat>, mem: Memory)
    requires Consistent(tracked, handles, mem)
    ensures mem.mapped - Elems(Ascending(tracked.Keys)) == map[]
    ensures forall k | 0 <= k < |Ascending(tracked.Keys)| :: Ascending(tracked.Keys)[k] in tracked
  {
    VisitsAll(tracked.Keys);
  }

  class Worker {
    const alloc: AllocatorHook
    const staging: array<byte>
    const shm: array<byte>           // SHM_SIZE bytes of checkpoint file
    const s: nat                     // STAGING_BUF_SIZE
    var files: seq<FileEntry>        // shared_mem_fs: the first file_num table entries
    var currentOffset: nat           // shared_mem_fs: current_offset

    constructor (alloc: AllocatorHook, s: nat, shmSize: nat)
      requires alloc.Valid() && 0 < s && PAYLOAD_START <= shmSize
      ensures Ok() && this.alloc == alloc && this.s == s && shm.Length == shmSize
    {
      this.alloc, this.s := alloc, s;
      staging, shm := new byte[2 * s], new byte[shmSize];
      files, currentOffset := [], PAYLOAD_START;
    }

    ghost predicate Ok()
      reads this, alloc, alloc.dev
    {
      && 0 < s && staging.Length == 2 * s && staging != shm
      && PAYLOAD_START <= shm.Length
      && alloc.Valid()
    }

    /** The shared-memory file holds exactly this dump. */
    ghost predicate Holds(saved: seq<Saved>)
      reads this, shm
    {
      && |files| < MAX_FILE_NUM
      && PAYLOAD_START <= currentOffset <= shm.Length
      && files == Table(saved)
      && shm[PAYLOAD_START..currentOffset] == Payload(saved)
    }

    /** The pipeline is this worker's, and has been asked for exactly the saved blocks. */
    ghost predicate Dumping(pipe: DumpPipeline, saved: seq<Saved>)
      reads this, pipe, pipe.stream, pipe.stream.dev, pipe.stream.staging, pipe.shm
    {
      && pipe.stream.dev == alloc.dev && pipe.stream.staging == staging && pipe.shm == shm && pipe.s == s
      && pipe.Ready() && pipe.want == Payload(saved)
    }

    /** One round of the dump loop, after the table entry was made. */
    method DumpOne(pipe: DumpPipeline, p: nat, size: nat, selective: bool, ghost saved: seq<Saved>,
                   ghost table: seq<FileEntry>, ghost offset: nat)
      returns (ok: bool, ghost saved': seq<Saved>, ghost copies: seq<Chunk>)
      requires table == Table(saved) && offset == PAYLOAD_START + |Payload(saved)|
      requires Dumping(pipe, saved) && PAYLOAD_START + |Payload(saved)| + size <= shm.Length
      modifies pipe, pipe.stream, pipe.shm, pipe.stream.staging
      ensures ok ==> Dumping(pipe, saved')
      ensures ok ==> var b := Saved(p, Shown(alloc.dev.mem, p, size));
                     && |b.bytes| == size && saved' == saved + [b]
                     && |Payload(saved')| == |Payload(saved)| + size
                     && table + [FileEntry(p, offset, size)] == Table(saved')
      ensures ok && selective ==> InShape(copies, p, size, s)
      ensures alloc.dev.obliging && alloc.dev.mem.Readable(p, size) ==> ok
      ensures forall i | 0 <= i < shm.Length && (i < PAYLOAD_START || PAYLOAD_START + |Payload(saved)| + size <= i) ::
                shm[i] == old(shm[i])
    {
      ghost var b := Saved(p, Shown(alloc.dev.mem, p, size));
      SaveNext(saved, b);
      saved' := saved + [b];
      ghost var off := pipe.bufOffset;
      ok, copies := pipe.CopyOut(p, size, selective);
      if ok && selective {
        ChunksInShape(p, size, off, s);
      }
    }

    /** After the loop: drain the pipeline and leave the table behind. */
    method FinishDump(pipe: DumpPipeline, table: seq<FileEntry>, offset: nat, ghost saved: seq<Saved>)
      requires Dumping(pipe, saved) && |table| < MAX_FILE_NUM && table == Table(saved)
      requires offset == PAYLOAD_START + |Payload(saved)| <= shm.Length
      modifies this`files, this`currentOffset, pipe, pipe.stream, pipe.shm, pipe.stream.staging
      ensures Holds(saved) && currentOffset == offset
      ensures forall i | 0 <= i < shm.Length && (i < PAYLOAD_START || offset <= i) :: shm[i] == old(shm[i])
    {
      pipe.Finish();
      files, currentOffset := table, offset;
    }

    /** One round of the dump loops of ckpt and ckpt_selective: table entry, limit checks, copy. */
    method DumpNext(pipe: DumpPipeline, order: seq<nat>, i: nat, selective: bool, table: seq<FileEntry>, offset: nat,
                    ghost saved: seq<Saved>, ghost copies: seq<seq<Chunk>>)
      returns (ok: bool, table': seq<FileEntry>, offset': nat, ghost saved': seq<Saved>, ghost copies': seq<seq<Chunk>>)
      requires i < |order| && forall k | 0 <= k < |order| :: order[k] in alloc.tracked
      requires DumpedUpTo(pipe, order, i, selective, table, offset, saved, copies)
      modifies pipe, pipe.stream, pipe.shm, pipe.stream.staging
      ensures ok ==> DumpedUpTo(pipe, order, i + 1, selective, table', offset', saved', copies') && offset <= offset'
      ensures alloc.dev.obliging && alloc.Valid()
              && Dumpable(order, alloc.tracked, alloc.dev.mem, selective, shm.Length) ==>
                ok
      ensures ok ==> forall j | 0 <= j < shm.Length && (j < PAYLOAD_START || offset' <= j) :: shm[j] == old(shm[j])
    {
      var p := order[i];
      var size := DumpSize(alloc.tracked[p], selective);
      DumpTotalNext(order, i, alloc.tracked, selective);
      DumpTotalGrows(order, i + 1, alloc.tracked, selective);
      table' := table + [FileEntry(p, offset, size)];
      offset' := offset + size;
      saved', copies' := saved, copies;
      if offset' > shm.Length || |table'| >= MAX_FILE_NUM {
        ok := false;
        return;
      }
      ok, saved', copies' := DumpFitting(pipe, order, i, selective, table, offset, saved, copies);
    }

    /** The copy, when table and shared memory have room. */
    method DumpFitting(pipe: DumpPipeline, order: seq<nat>, i: nat, selective: bool, ghost table: seq<FileEntry>,
                       ghost offset: nat, ghost saved: seq<Saved>, ghost copies: seq<seq<Chunk>>)
      returns (ok: bool, ghost saved': seq<Saved>, ghost copies': seq<seq<Chunk>>)
      requires i < |order| && forall k | 0 <= k < |order| :: order[k] in alloc.tracked
      requires DumpedUpTo(pipe, order, i, selective, table, offset, saved, copies) && i + 1 < MAX_FILE_NUM
      requires offset + DumpSize(alloc.tracked[order[i]], selective) <= shm.Length
      modifies pipe, pipe.stream, pipe.shm, pipe.stream.staging
      ensures var size := DumpSize(alloc.tracked[order[i]], selective);
              ok ==> DumpedUpTo(pipe, order, i + 1, selective, table + [FileEntry(order[i], offset, size)],
                                offset + size, saved', copies')
      ensures alloc.dev.obliging && alloc.Valid() && Backed(alloc.tracked, alloc.dev.mem, order[i]) ==> ok
      ensures ok ==> forall j | 0 <= j < shm.Length
                                && (j < PAYLOAD_START || offset + DumpSize(alloc.tracked[order[i]], selective) <= j) ::
                       shm[j] == old(shm[j])
    {
      var p := order[i];
      var size := DumpSize(alloc.tracked[p], selective);
      DumpTotalNext(order, i, alloc.tracked, selective);
      ghost var cs;
      ok, saved', cs := DumpOne(pipe, p, size, selective, saved, table, offset);
      copies' := copies + [cs];
      if ok {
        CapturesNext(saved, order, i, Saved(p, Shown(alloc.dev.mem, p, size)), alloc.dev.mem, alloc.tracked, selective);
        if selective {
          ShapeAt(copies, order, i, alloc.tracked, s, cs);
        }
      }
    }

    /** The loop has dumped the first i blocks. */
    ghost predicate DumpedUpTo(pipe: DumpPipeline, order: seq<nat>, i: nat, selective: bool, table: seq<FileEntry>,
                               offset: nat, saved: seq<Saved>, copies: seq<seq<Chunk>>)
      reads this, alloc, alloc.dev, pipe, pipe.stream, pipe.stream.dev, pipe.stream.staging, pipe.shm
    {
      && i <= |order| && (forall k | 0 <= k < |order| :: order[k] in alloc.tracked)
      && Dumping(pipe, saved) && Captures(saved, order[..i], alloc.dev.mem, alloc.tracked, selective)
      && |table| == i < MAX_FILE_NUM && table == Table(saved)
      && offset == PAYLOAD_START + |Payload(saved)|
         == PAYLOAD_START + DumpTotal(order[..i], alloc.tracked, selective) <= shm.Length
      && (selective ==> AllInShape(copies, order[..i], DumpSizes(order[..i], alloc.tracked, true), s))
    }

    /** The dump loops of ckpt and ckpt_selective. A false result is their exit(-1). */
    method DumpLoop(pipe: DumpPipeline, order: seq<nat>, selective: bool)
      returns (ok: bool, table: seq<FileEntry>, offset: nat, ghost saved: seq<Saved>, ghost copies: seq<seq<Chunk>>)
      requires Dumping(pipe, []) && forall k | 0 <= k < |order| :: order[k] in alloc.tracked
      modifies pipe, pipe.stream, pipe.shm, pipe.stream.staging
      ensures ok ==> DumpedUpTo(pipe, order, |order|, selective, table, offset, saved, copies)
      ensures alloc.dev.obliging && alloc.Valid()
              && Dumpable(order, alloc.tracked, alloc.dev.mem, selective, shm.Length) ==>
                ok
      ensures ok ==> forall i | 0 <= i < shm.Length && (i < PAYLOAD_START || offset <= i) :: shm[i] == old(shm[i])
    {
      table, offset, saved, copies := [], PAYLOAD_START, [], [];
      ok := true;
      for i := 0 to |order|
        invariant DumpedUpTo(pipe, order, i, selective, table, offset, saved, copies)
        invariant forall j | 0 <= j < shm.Length && (j < PAYLOAD_START || offset <= j) :: shm[j] == old(shm[j])
      {
        ok, table, offset, saved, copies := DumpNext(pipe, order, i, selective, table, offset, saved, copies);
        if !ok {
          return;
        }
      }
      ok := true;
    }

    /** Create the stream and the event, dump, drain. */
    method DumpBlocks(order: seq<nat>, selective: bool)
      returns (ok: bool, ghost saved: seq<Saved>, ghost copies: seq<seq<Chunk>>)
      requires Ok() && forall k | 0 <= k < |order| :: order[k] in alloc.tracked
      modifies this`files, this`currentOffset, shm, staging
      ensures ok ==> Holds(saved) && Captures(saved, order, alloc.dev.mem, alloc.tracked, selective)
      ensures ok && selective ==> AllInShape(copies, order, DumpSizes(order, alloc.tracked, true), s)
      ensures ok ==>
                |order| < MAX_FILE_NUM
                && currentOffset == PAYLOAD_START + DumpTotal(order, alloc.tracked, selective) <= shm.Length
      ensures alloc.dev.obliging && Dumpable(order, alloc.tracked, alloc.dev.mem, selective, shm.Length) ==> ok
      ensures ok ==>
                forall i | 0 <= i < shm.Length && (i < PAYLOAD_START || currentOffset <= i) :: shm[i] == old(shm[i])
    {
      saved, copies := [], [];
      ok := alloc.dev.Accepts();
      if !ok {
        return;
      }
      ok, saved, copies := RunPipeline(order, selective);
    }

    method RunPipeline(order: seq<nat>, selective: bool)
      returns (ok: bool, ghost saved: seq<Saved>, ghost copies: seq<seq<Chunk>>)
      requires Ok() && forall k | 0 <= k < |order| :: order[k] in alloc.tracked
      modifies this`files, this`currentOffset, shm, staging
      ensures ok ==> Holds(saved) && Captures(saved, order, alloc.dev.mem, alloc.tracked, selective)
      ensures ok && selective ==> AllInShape(copies, order, DumpSizes(order, alloc.tracked, true), s)
      ensures ok ==>
                |order| < MAX_FILE_NUM
                && currentOffset == PAYLOAD_START + DumpTotal(order, alloc.tracked, selective) <= shm.Length
      ensures alloc.dev.obliging && Dumpable(order, alloc.tracked, alloc.dev.mem, selective, shm.Length) ==> ok
      ensures ok ==>
                forall i | 0 <= i < shm.Length && (i < PAYLOAD_START || currentOffset <= i) :: shm[i] == old(shm[i])
    {
      var pipe := new DumpPipeline(alloc.dev, staging, shm, s);
      var table, offset;
      ok, table, offset, saved, copies := DumpLoop(pipe, order, selective);
      assert order[..|order|] == order;
      if ok {
        FinishDump(pipe, table, offset, saved);
      }
    }

    /** Release the physical memory of the dumped blocks, keeping their addresses. */
    method ReleaseBlocks(order: seq<nat>) returns (ok: bool)
      requires alloc.Valid() && StrictlyAscending(order)
      modifies alloc`handles, alloc.dev
      ensures alloc.Valid() && alloc.dev.mem.reserved == old(alloc.dev.mem.reserved)
      ensures ok <==> forall k | 0 <= k < |order| :: Backed(alloc.tracked, old(alloc.dev.mem), order[k])
      ensures ok ==> alloc.dev.mem.mapped == old(alloc.dev.mem.mapped) - Elems(order)
    {
      ok := true;
      for i := 0 to |order|
        invariant alloc.Valid() && alloc.dev.mem.reserved == old(alloc.dev.mem.reserved)
        invariant alloc.dev.mem.mapped == old(alloc.dev.mem.mapped) - Elems(order[..i])
        invariant forall k | 0 <= k < i :: Backed(alloc.tracked, old(alloc.dev.mem), order[k])
      {
        assert Backed(alloc.tracked, alloc.dev.mem, order[i]) == Backed(alloc.tracked, old(alloc.dev.mem), order[i]);
        var r := alloc.ReleasePhysical(order[i]);
        if r != Success {
          return false;
        }
        ElemsNext(order, i, old(alloc.dev.mem.mapped));
      }
      assert order[..|order|] == order;
    }

    /** Dump and release. Only a driver refusal can make it fail when the dump is feasible. */
    method DumpAndRelease(order: seq<nat>, selective: bool)
      returns (ok: bool, ghost saved: seq<Saved>, ghost copies: seq<seq<Chunk>>)
      requires Ok() && StrictlyAscending(order) && forall k | 0 <= k < |order| :: order[k] in alloc.tracked
      modifies this`files, this`currentOffset, shm, staging, alloc`handles, alloc.dev
      ensures ok ==> Ok() && Holds(saved) && alloc.dev.mem.reserved == old(alloc.dev.mem.reserved)
      ensures ok ==> Captures(saved, order, old(alloc.dev.mem), alloc.tracked, selective)
      ensures ok ==> alloc.dev.mem.mapped == old(alloc.dev.mem.mapped) - Elems(order)
      ensures ok && selective ==> RequestSaved(saved, copies, order, old(alloc.dev.mem), alloc.tracked, s)
      ensures ok && !selective ==> ExtentsSaved(saved, order, old(alloc.dev.mem), alloc.tracked)
      ensures ok ==> Dumpable(order, alloc.tracked, old(alloc.dev.mem), selective, shm.Length)
      ensures alloc.dev.obliging && Dumpable(order, alloc.tracked, old(alloc.dev.mem), selective, shm.Length) ==> ok
    {
      ok, saved, copies := DumpBlocks(order, selective);
      ghost var mem := alloc.dev.mem;
      if ok {
        ok := ReleaseBlocks(order);
      }
      if ok {
        SavedExactly(saved, copies, order, mem, alloc.tracked, selective, s);
      }
    }

    /** ckpt: dump every tracked allocation in address order, then release them all. Without a driver
        refusal it succeeds if and only if the dump is feasible. */
    method Ckpt() returns (ok: bool, ghost saved: seq<Saved>)
      requires Ok()
      modifies this`files, this`currentOffset, shm, staging, alloc`handles, alloc.dev
      ensures ok ==> Ok() && Holds(saved) && alloc.dev.mem.reserved == old(alloc.dev.mem.reserved)
      ensures ok ==> Captures(saved, Ascending(alloc.tracked.Keys), old(alloc.dev.mem), alloc.tracked, false)
      ensures ok ==> ExtentsSaved(saved, Ascending(alloc.tracked.Keys), old(alloc.dev.mem), alloc.tracked)
      ensures ok ==> alloc.dev.mem.mapped == map[]
      ensures ok ==> Dumpable(Ascending(alloc.tracked.Keys), alloc.tracked, old(alloc.dev.mem), false, shm.Length)
      ensures alloc.dev.obliging
              && Dumpable(Ascending(alloc.tracked.Keys), alloc.tracked, old(alloc.dev.mem), false, shm.Length) ==>
                ok
    {
      var order := Ascending(alloc.tracked.Keys);
      NothingLeft(alloc.tracked, alloc.handles, alloc.dev.mem);
      ghost var copies;
      ok, saved, copies := DumpAndRelease(order, false);
    }

    /** ckpt_selective: dump and release exactly the allocations around the requested pointers. Every
        device copy has the shape of Granule.Tiles. */
    method CkptSelective(req: seq<nat>)
      returns (ok: bool, blocks: set<nat>, ghost saved: seq<Saved>, ghost copies: seq<seq<Chunk>>)
      requires Ok() && Disjoint(alloc.dev.mem.reserved)
      modifies this`files, this`currentOffset, shm, staging, alloc`handles, alloc.dev
      ensures ok ==> Ok() && Holds(saved) && alloc.dev.mem.reserved == old(alloc.dev.mem.reserved)
      ensures blocks == RequestedBlocks(alloc.tracked, req)
      ensures forall k | 0 <= k < |Ascending(blocks)| :: Ascending(blocks)[k] in alloc.tracked
      ensures ok ==> Captures(saved, Ascending(blocks), old(alloc.dev.mem), alloc.tracked, true)
      ensures ok ==> RequestSaved(saved, copies, Ascending(blocks), old(alloc.dev.mem), alloc.tracked, s)
      ensures ok ==> alloc.dev.mem.mapped == old(alloc.dev.mem.mapped) - blocks
      ensures ok ==> Dumpable(Ascending(blocks), alloc.tracked, old(alloc.dev.mem), true, shm.Length)
      ensures alloc.dev.obliging && Dumpable(Ascending(blocks), alloc.tracked, old(alloc.dev.mem), true, shm.Length) ==>
                ok
    {
      blocks := BlocksFor(req);
      var order := Ascending(blocks);
      VisitsAll(blocks);
      ok, saved, copies := DumpAndRelease(order, true);
    }

    /** find_containing_allocation: the first tracked allocation, in address order, around ptr. */
    method FindContaining(ptr: nat) returns (found: bool, base: nat)
      ensures found ==> Contains(alloc.tracked, base, ptr)
      ensures !found ==> forall b | b in alloc.tracked :: !Contains(alloc.tracked, b, ptr)
    {
      var order := Ascending(alloc.tracked.Keys);
      base := 0;
      for i := 0 to |order|
        invariant forall k | 0 <= k < i :: !Contains(alloc.tracked, order[k], ptr)
      {
        if order[i] <= ptr < order[i] + alloc.tracked[order[i]].size {
          return true, order[i];
        }
      }
      found := false;
    }

    /** The set of allocations that contain a requested pointer. Unknown pointers are skipped. */
    method BlocksFor(req: seq<nat>) returns (blocks: set<nat>)
      requires Ok() && Disjoint(alloc.dev.mem.reserved)
      ensures blocks == RequestedBlocks(alloc.tracked, req)
    {
      blocks := {};
      for i := 0 to |req|
        invariant blocks == RequestedBlocks(alloc.tracked, req[..i])
      {
        var found, base := FindContaining(req[i]);
        assert req[..i + 1] == req[..i] + [req[i]];
        if found {
          OnlyOne(alloc.tracked, alloc.handles, alloc.dev.mem, base, req[i]);
          assert Requested(alloc.tracked, req[..i + 1], base);
          blocks := blocks + {base};
        }
      }
      assert req[..|req|] == req;
    }

    /** Remap every file's block; the rest of device memory is untouched. */
    method RemapAll() returns (ok: bool)
      requires Ok() && DistinctPtrs(files)
      modifies alloc`handles, alloc.dev
      ensures Ok() && alloc.dev.mem.reserved == old(alloc.dev.mem.reserved)
      ensures ok ==> Remapped(files, old(alloc.dev.mem.mapped), alloc.dev.mem.mapped)
      ensures ok ==> AllRemappable(files, alloc.tracked, old(alloc.dev.mem))
      ensures alloc.dev.obliging && AllRemappable(files, alloc.tracked, old(alloc.dev.mem)) ==> ok
    {
      ok := true;
      for i := 0 to |files|
        invariant RemappedUpTo(i, old(alloc.dev.mem))
      {
        ok := RemapFile(i, old(alloc.dev.mem));
        if !ok {
          return;
        }
      }
      ok := true;
      assert files[..|files|] == files;
    }

    /** The first i files have been remapped, starting from `before`. */
    ghost predicate RemappedUpTo(i: nat, before: Memory)
      reads this, alloc, alloc.dev
    {
      && Ok() && i <= |files| && DistinctPtrs(files) && alloc.dev.mem.reserved == before.reserved
      && Remapped(files[..i], before.mapped, alloc.dev.mem.mapped)
      && forall k | 0 <= k < i :: CanRemap(alloc.tracked, before, files[k].ptr, files[k].size)
    }

    method RemapFile(i: nat, ghost before: Memory) returns (ok: bool)
      requires i < |files| && RemappedUpTo(i, before)
      modifies alloc`handles, alloc.dev
      ensures ok ==> RemappedUpTo(i + 1, before)
      ensures Ok() && alloc.dev.mem.reserved == before.reserved
      ensures alloc.dev.obliging && CanRemap(alloc.tracked, before, files[i].ptr, files[i].size) ==> ok
    {
      ghost var mid := alloc.dev.mem.mapped;
      StillRemappable(files, i, alloc.tracked, before, alloc.dev.mem);
      var r := alloc.RemapPhysical(files[i].ptr, files[i].size);
      ok := r == Success;
      if ok {
        RemapNext(files, i, before.mapped, mid, alloc.dev.mem.mapped);
      }
    }

    /** The pipeline is this worker's and has been asked for the first i files. */
    ghost predicate Refilling(pipe: RefillPipeline, i: nat)
      reads this, pipe, pipe.stream, pipe.stream.dev, pipe.stream.staging, pipe.shm
    {
      && i <= |files| && pipe.stream.dev == alloc.dev && pipe.stream.staging == staging && pipe.shm == shm
         && pipe.s == s
      && pipe.end == currentOffset && pipe.start <= NextStart(files, i, currentOffset)
      && pipe.Ready() && |pipe.stream.log| == NextStart(files, i, currentOffset) - pipe.start <= |pipe.data|
      && Play(pipe.mem0, pipe.stream.log, pipe.data) == RestoreAll(pipe.mem0, files[..i], pipe.data, pipe.start)
    }

    /** One round of the restore loop. */
    method RestoreOne(pipe: RefillPipeline, i: nat, selective: bool) returns (ok: bool, ghost copies: seq<Chunk>)
      requires i < |files| && Refilling(pipe, i) && WellFormed(files, pipe.start, currentOffset)
      requires RemappedOne(files[i], pipe.mem0)
      modifies pipe, pipe.stream, pipe.stream.dev, pipe.stream.staging
      ensures ok ==> Refilling(pipe, i + 1)
      ensures ok && selective ==> InShape(copies, files[i].ptr, files[i].size, s)
      ensures alloc.dev.obliging ==> ok
      ensures alloc.dev.mem.reserved == old(alloc.dev.mem.reserved) && alloc.dev.mem.live == old(alloc.dev.mem.live)
    {
      var e := files[i];
      ghost var before, off := pipe.stream.log, pipe.bufOffset;
      NextFollows(files, i, pipe.start, currentOffset);
      ok, copies := pipe.CopyIn(e.ptr, e.start, e.size, selective);
      if ok {
        RestoreNext(pipe.mem0, files, i, before, pipe.stream.log, pipe.data, pipe.start);
        if selective {
          ChunksInShape(e.ptr, e.size, off, s);
        }
      }
    }

    /** The copy loop over all files. */
    method RestoreLoop(pipe: RefillPipeline, selective: bool) returns (ok: bool, ghost copies: seq<seq<Chunk>>)
      requires Refilling(pipe, 0) && WellFormed(files, pipe.start, currentOffset)
      requires forall k | 0 <= k < |files| :: RemappedOne(files[k], pipe.mem0)
      modifies pipe, pipe.stream, pipe.stream.dev, pipe.stream.staging
      ensures ok ==> Refilling(pipe, |files|)
      ensures ok && selective ==> AllInShape(copies, Ptrs(files), Sizes(files), s)
      ensures alloc.dev.obliging ==> ok
      ensures alloc.dev.mem.reserved == old(alloc.dev.mem.reserved) && alloc.dev.mem.live == old(alloc.dev.mem.live)
    {
      ok, copies := true, [];
      for i := 0 to |files|
        invariant Refilling(pipe, i) && |copies| == i
        invariant selective ==> forall k | 0 <= k < i :: InShape(copies[k], files[k].ptr, files[k].size, s)
        invariant alloc.dev.mem.reserved == old(alloc.dev.mem.reserved) && alloc.dev.mem.live == old(alloc.dev.mem.live)
      {
        ghost var cs;
        ok, cs := RestoreOne(pipe, i, selective);
        if !ok {
          return;
        }
        copies := copies + [cs];
      }
      ok := true;
    }

    /** Payload offset of the first file. */
    function First(): nat
      reads this
    {
      if files == [] then currentOffset else files[0].start
    }

    /** Both restores: remap every block, then stream the payload back. A false result is their
        exit(-1). On success device memory is what the plain file-by-file restore makes of the
        remapped memory. Without a driver refusal a restore succeeds if and only if every file can
        be remapped. */
    method Restore(selective: bool) returns (ok: bool, ghost mid: map<nat, Mapping>, ghost copies: seq<seq<Chunk>>)
      requires Ok() && currentOffset <= shm.Length && WellFormed(files, First(), currentOffset)
      modifies staging, alloc`handles, alloc.dev
      ensures ok ==> Ok() && alloc.dev.mem.reserved == old(alloc.dev.mem.reserved)
      ensures ok ==> Remapped(files, old(alloc.dev.mem.mapped), mid)
      ensures ok ==> alloc.dev.mem.mapped == RestoreAll(mid, files, shm[First()..currentOffset], First())
      ensures ok && selective ==> AllInShape(copies, Ptrs(files), Sizes(files), s)
      ensures ok ==> AllRemappable(files, alloc.tracked, old(alloc.dev.mem))
      ensures alloc.dev.obliging && AllRemappable(files, alloc.tracked, old(alloc.dev.mem)) ==> ok
    {
      ok := RemapAll();
      mid, copies := alloc.dev.mem.mapped, [];
      if ok {
        ok, copies := Refill(selective);
      }
    }

    /** The copying half of a restore. */
    method Refill(selective: bool) returns (ok: bool, ghost copies: seq<seq<Chunk>>)
      requires Ok() && currentOffset <= shm.Length && WellFormed(files, First(), currentOffset)
      requires forall k | 0 <= k < |files| :: RemappedOne(files[k], alloc.dev.mem.mapped)
      modifies staging, alloc.dev
      ensures ok ==> Ok() && alloc.dev.mem.reserved == old(alloc.dev.mem.reserved)
      ensures ok ==>
                alloc.dev.mem.mapped
                == RestoreAll(old(alloc.dev.mem.mapped), files, shm[First()..currentOffset], First())
      ensures ok && selective ==> AllInShape(copies, Ptrs(files), Sizes(files), s)
      ensures alloc.dev.obliging ==> ok
    {
      copies := [];
      ok := alloc.dev.Accepts();
      if !ok || files == [] {
        return;
      }
      ghost var mem := alloc.dev.mem;
      ok, copies := Stream(selective);
      if ok {
        StillConsistent(alloc.tracked, alloc.handles, mem, alloc.dev.mem, files, shm[First()..currentOffset], First(),
          currentOffset);
      }
    }

    /** Stream the payload of at least one file. */
    method Stream(selective: bool) returns (ok: bool, ghost copies: seq<seq<Chunk>>)
      requires Ok() && files != [] && currentOffset <= shm.Length && WellFormed(files, First(), currentOffset)
      requires forall k | 0 <= k < |files| :: RemappedOne(files[k], alloc.dev.mem.mapped)
      modifies staging, alloc.dev
      ensures alloc.dev.mem.reserved == old(alloc.dev.mem.reserved) && alloc.dev.mem.live == old(alloc.dev.mem.live)
      ensures ok ==>
                alloc.dev.mem.mapped
                == RestoreAll(old(alloc.dev.mem.mapped), files, shm[First()..currentOffset], First())
      ensures ok && selective ==> AllInShape(copies, Ptrs(files), Sizes(files), s)
      ensures alloc.dev.obliging ==> ok
    {
      var pipe := new RefillPipeline(alloc.dev, staging, shm, s, files[0].start, currentOffset);
      pipe.LoadFirst();
      assert files[..0] == [];
      ok, copies := RestoreLoop(pipe, selective);
      if ok {
        assert files[..|files|] == files;
        pipe.Finish();
      }
    }
  }

  lemma {:induction false} ShapeAt(copies: seq<seq<Chunk>>, order: seq<nat>, i: nat, tracked: map<nat, Allocation>,
                                   s: nat, cs: seq<Chunk>)
    requires i < |order| && forall k | 0 <= k < |order| :: order[k] in tracked
    requires AllInShape(copies, order[..i], DumpSizes(order[..i], tracked, true), s)
    requires InShape(cs, order[i], DumpSize(tracked[order[i]], true), s)
    ensures AllInShape(copies + [cs], order[..i + 1], DumpSizes(order[..i + 1], tracked, true), s)
  {
  }

  ghost predicate AllRemappable(files: seq<FileEntry>, tracked: map<nat, Allocation>, mem: Memory) {
    forall k | 0 <= k < |files| :: CanRemap(tracked, mem, files[k].ptr, files[k].size)
  }

  /** Remapping the files before file i does not touch its block. */
  lemma {:induction false} StillRemappable(files: seq<FileEntry>, i: nat, tracked: map<nat, Allocation>, before: Memory,
                                           mid: Memory)
    requires i < |files| && DistinctPtrs(files) && mid.reserved == before.reserved
    requires Remapped(files[..i], before.mapped, mid.mapped)
    ensures CanRemap(tracked, mid, files[i].ptr, files[i].size)
            == CanRemap(tracked, before, files[i].ptr, files[i].size)
  {
  }

  lemma {:induction false} StillConsistent(tracked: map<nat, Allocation>, handles: map<nat, nat>, mem: Memory,
                                           after: Memory, files: seq<FileEntry>, data: seq<byte>, first: nat, end: nat)
    requires Consistent(tracked, handles, mem) && after.reserved == mem.reserved && after.live == mem.live
    requires Packed(files, first, end) && |data| == end - first
    requires forall k | 0 <= k < |files| :: RemappedOne(files[k], mem.mapped)
    requires after.mapped == RestoreAll(mem.mapped, files, data, first)
    ensures Consistent(tracked, handles, after)
  {
    forall k | 0 <= k < |files|
      ensures Feasible(mem.mapped, files[k], data, first)
    {
      assert RemappedOne(files[k], mem.mapped);
    }
    RestoreAllFrame(mem.mapped, files, data, first);
    SameShape(tracked, handles, mem, after);
  }

  /** The tables do not depend on the bytes in memory. */
  lemma {:induction false} SameShape(tracked: map<nat, Allocation>, handles: map<nat, nat>, mem: Memory, after: Memory)
    requires Consistent(tracked, handles, mem) && after.reserved == mem.reserved && after.live == mem.live
    requires SameExtents(mem.mapped, after.mapped)
    ensures Consistent(tracked, handles, after)
  {
  }

  /** The table is packed from `first` to `end` and no block appears twice. */
  ghost predicate WellFormed(files: seq<FileEntry>, first: nat, end: nat) {
    Packed(files, first, end) && DistinctPtrs(files)
  }

  /** What remapping does: every file's block is mapped at the rounded size of the file, all others
      are as they were. */
  ghost predicate Remapped(files: seq<FileEntry>, before: map<nat, Mapping>, after: map<nat, Mapping>) {
    && (forall k | 0 <= k < |files| :: RemappedOne(files[k], after))
    && (forall p | p in after :: p in before || exists k :: 0 <= k < |files| && files[k].ptr == p)
    && (forall p | p in before && Untargeted(p, files) :: p in after && after[p] == before[p])
  }

  ghost predicate RemappedOne(e: FileEntry, after: map<nat, Mapping>) {
    e.ptr in after && after[e.ptr].access && |after[e.ptr].bytes| == RoundUp(e.size)
  }

  lemma {:induction false} RemapNext(files: seq<FileEntry>, i: nat, before: map<nat, Mapping>, mid: map<nat, Mapping>,
                                     after: map<nat, Mapping>)
    requires i < |files| && DistinctPtrs(files) && Remapped(files[..i], before, mid)
    requires RemappedOne(files[i], after) && after == mid[files[i].ptr := after[files[i].ptr]]
    ensures Remapped(files[..i + 1], before, after)
  {
    var q := files[..i + 1];
    forall k | 0 <= k < |q|
      ensures RemappedOne(q[k], after)
    {
      if k < i {
        assert q[k] == files[..i][k] && files[k].ptr != files[i].ptr;
      }
    }
    forall p | p in after
      ensures p in before || exists k :: 0 <= k < |q| && q[k].ptr == p
    {
      if p == files[i].ptr {
        assert q[i].ptr == p;
      } else if p !in before {
        var k :| 0 <= k < i && files[..i][k].ptr == p;
        assert q[k].ptr == p;
      }
    }
    forall p | p in before && Untargeted(p, q)
      ensures p in after && after[p] == before[p]
    {
      assert q[i].ptr != p;
      assert Untargeted(p, files[..i]) by {
        assert forall k | 0 <= k < i :: files[..i][k] == q[k];
      }
    }
  }

  /** Start of the next file to restore. */
  ghost function NextStart(files: seq<FileEntry>, i: nat, end: nat): nat
    requires i <= |files|
  {
    if i < |files| then files[i].start else end
  }

  lemma {:induction false} NextFollows(files: seq<FileEntry>, i: nat, first: nat, end: nat)
    requires i < |files| && Packed(files, first, end)
    ensures NextStart(files, i, end) + files[i].size == NextStart(files, i + 1, end) <= end
    ensures first <= NextStart(files, i, end)
  {
  }

  /** The copies of one file are a run into its block, and the payload bytes they carry are its
      slice. */
  lemma {:induction false} RunOfFile(before: seq<Op>, log: seq<Op>, e: FileEntry)
    requires Extends(log, before, e.ptr, 0, e.size)
    ensures log[..|before|] == before && Run(log, |before|, e.ptr) && |log| == |before| + e.size
  {
  }

  lemma {:induction false} SliceOfFile(e: FileEntry, data: seq<byte>, first: nat, k: nat, n: nat)
    requires first <= e.start && k == e.start - first && n == k + e.size <= |data|
    ensures data[k..n] == Slice(e, data, first)
  {
  }

  lemma {:induction false} RestoreAllNext(m: map<nat, Mapping>, files: seq<FileEntry>, i: nat, data: seq<byte>,
                                          first: nat)
    requires i < |files|
    ensures RestoreAll(m, files[..i + 1], data, first)
            == Overwrite(RestoreAll(m, files[..i], data, first), files[i].ptr, Slice(files[i], data, first))
  {
    assert files[..i + 1][..i] == files[..i];
  }

  /** Restoring one more file: the copies of its run overwrite its block. */
  lemma {:induction false} RestoreNext(m: map<nat, Mapping>, files: seq<FileEntry>, i: nat, before: seq<Op>,
                                       log: seq<Op>, data: seq<byte>, first: nat)
    requires i < |files| && |log| <= |data|
    requires first <= files[i].start && |before| == files[i].start - first
    requires Extends(log, before, files[i].ptr, 0, files[i].size)
    requires files[i].ptr in m && files[i].size <= |m[files[i].ptr].bytes|
    requires Play(m, before, data) == RestoreAll(m, files[..i], data, first)
    ensures Play(m, log, data) == RestoreAll(m, files[..i + 1], data, first)
  {
    var e := files[i];
    RunOfFile(before, log, e);
    PlayRun(m, log, data, |before|, e.ptr);
    SliceOfFile(e, data, first, |before|, |log|);
    RestoreAllNext(m, files, i, data, first);
  }

  predicate Contains(tracked: map<nat, Allocation>, b: nat, ptr: nat) {
    b in tracked && b <= ptr < b + tracked[b].size
  }

  ghost predicate Requested(tracked: map<nat, Allocation>, req: seq<nat>, b: nat) {
    exists ptr | ptr in req :: Contains(tracked, b, ptr)
  }

  /** The allocations that contain a requested pointer. */
  ghost function RequestedBlocks(tracked: map<nat, Allocation>, req: seq<nat>): set<nat> {
    set b | b in tracked && Requested(tracked, req, b)
  }

  /** Allocations do not overlap, so a pointer lies in at most one. */
  lemma {:induction false} OnlyOne(tracked: map<nat, Allocation>, handles: map<nat, nat>, mem: Memory, b: nat, ptr: nat)
    requires Consistent(tracked, handles, mem) && Disjoint(mem.reserved) && Contains(tracked, b, ptr)
    ensures forall c | Contains(tracked, c, ptr) :: c == b
  {
  }
}

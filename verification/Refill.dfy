/** The double-buffered restore loop shared by restore_ptr_and_content and its selective variant
    (src/vGPU.cpp). */
module Refill {
  import opened Layout
  import opened Granule
  import opened Vmm
  import opened Stream
  import opened Replay

  /** `log` is `before` followed by copies into bytes idx .. idx+n of the block at base. */
  ghost predicate Extends(log: seq<Op>, before: seq<Op>, base: nat, idx: nat, n: nat) {
    && |log| == |before| + n
    && (forall t | 0 <= t < |before| :: log[t] == before[t])
    && (forall t | |before| <= t < |log| :: log[t].base == base && log[t].idx == idx + t - |before|)
  }

  ghost predicate ReadableIn(m: map<nat, Mapping>, base: nat, n: nat) {
    base in m && m[base].access && n <= |m[base].bytes|
  }

  class RefillPipeline {
    const stream: GpuStream
    const shm: array<byte>
    const s: nat              // STAGING_BUF_SIZE
    const start: nat          // payload offset of the first file
    const end: nat            // fs->current_offset
    var currentBuf: nat
    var bufOffset: nat
    var srcOffset: nat

    ghost var cur: nat                    // where the current buffer starts in the staging area
    ghost var first: nat                  // number of bytes issued before the current buffer
    ghost const data: seq<byte>           // the payload, shm[start..end]
    ghost const mem0: map<nat, Mapping>   // device memory before the first copy

    constructor (dev: Device, staging: array<byte>, shm: array<byte>, s: nat, start: nat, end: nat)
      requires 0 < s && staging.Length == 2 * s && staging != shm && start <= end <= shm.Length
      ensures Inv() && fresh(stream)
      ensures stream.dev == dev && stream.staging == staging && this.shm == shm && this.s == s
      ensures this.start == start && this.end == end && mem0 == dev.mem.mapped && data == shm[start..end]
      ensures stream.log == [] && bufOffset == 0 && currentBuf == 0
    {
      stream := new GpuStream(dev, staging);
      this.shm, this.s, this.start, this.end := shm, s, start, end;
      currentBuf, bufOffset, srcOffset := 0, 0, start;
      cur, first := 0, 0;
      data, mem0 := shm[start..end], dev.mem.mapped;
      new;
      assert stream.log[..0] == [];
    }

    ghost predicate Offsets()
      reads this, stream`log, stream`mark
    {
      && 0 < s && stream.staging.Length == 2 * s && stream.staging != shm
      && start <= end <= shm.Length && |data| == end - start
      && cur == Half(currentBuf, s)
      && bufOffset <= s
      && |stream.log| == first + bufOffset <= |data|
      && srcOffset == start + first
      && (if currentBuf == 0 then first == 0 else s <= first)
      && stream.mark == first
    }

    ghost predicate SourceIntact()
      reads shm
    {
      start <= end <= shm.Length && |data| == end - start && forall i | start <= i < end :: shm[i] == data[i - start]
    }

    /** What was issued: every copy has a device target, and the copies that may still be pending
        read the cells of the previous and the current buffer in order. */
    ghost predicate Issued()
      reads this`first, this`cur, stream`log, stream.dev
    {
      && (forall t | 0 <= t < |stream.log| ::
            stream.log[t].ToDevice? && stream.Executable(stream.dev.mem, stream.log[t]))
      && (forall t | 0 <= t && first - s <= t < |stream.log| ::
            stream.log[t].host == if t < first then s - cur + t - (first - s) else cur + t - first)
    }

    /** Every copy that may still be pending finds its byte in the staging area, and no copy of an
        older buffer is pending. */
    ghost predicate Pending()
      reads this`first, stream`log, stream`done, stream.staging
    {
      && first - s <= stream.done <= |stream.log| <= |data|
      && (forall t | 0 <= t && stream.done <= t < |stream.log| && stream.log[t].host < stream.staging.Length ::
            stream.staging[stream.log[t].host] == data[t])
    }

    /** Device memory is what the completed copies, played in order, make of it. */
    ghost predicate Played()
      reads stream`log, stream`done, stream.dev
    {
      && stream.done <= |stream.log| <= |data|
      && stream.dev.mem.mapped == Play(mem0, stream.log[..stream.done], data)
    }

    ghost predicate Inv()
      reads this, stream, stream.dev, stream.staging, shm
    {
      Offsets() && SourceIntact() && Issued() && Pending() && Played()
    }

    /** The buffer at `at` holds the slice of the payload that begins at `from`. */
    ghost predicate LoadedAt(at: nat, from: nat)
      reads stream.staging
    {
      && at + s <= stream.staging.Length
      && forall c | at <= c < at + s && from + c - at < |data| :: stream.staging[c] == data[from + c - at]
    }

    /** The current buffer holds its slice of the payload. */
    ghost predicate Loaded()
      reads this`first, this`cur, stream.staging
    {
      LoadedAt(cur, first)
    }

    /** One byte copy completes, reading the staging byte as it is now. */
    method Tick()
      requires Inv() && stream.done < |stream.log|
      modifies stream`done, stream.dev
      ensures Inv() && stream.done == old(stream.done) + 1
      ensures stream.dev.mem.reserved == old(stream.dev.mem.reserved) && stream.dev.mem.live == old(stream.dev.mem.live)
    {
      ghost var d := stream.done;
      assert stream.log[..d + 1][..d] == stream.log[..d];
      stream.CompleteToDevice();
    }

    /** The DMA engine completes any number of copies, but at least the first `least` issued ones. */
    method AdvanceToDevice(least: nat)
      requires Inv() && least <= |stream.log|
      modifies stream`done, stream.dev
      ensures Inv()
      ensures least <= stream.done && old(stream.done) <= stream.done
      ensures stream.dev.mem.reserved == old(stream.dev.mem.reserved) && stream.dev.mem.live == old(stream.dev.mem.live)
    {
      var target: nat := *;
      if target < least { target := least; }
      if target > |stream.log| { target := |stream.log|; }
      while stream.done < target
        invariant Inv() && old(stream.done) <= stream.done
        invariant stream.dev.mem.reserved == old(stream.dev.mem.reserved)
                  && stream.dev.mem.live == old(stream.dev.mem.live)
        decreases |stream.log| - stream.done
      {
        Tick();
      }
    }

    /** One byte of a CPU copy into the staging area. No pending copy may still read the cell. */
    method CpuFillByte(dst: nat, src: nat)
      requires Inv() && dst < 2 * s && src < shm.Length
      requires forall t | stream.done <= t < |stream.log| :: stream.log[t].host != dst
      modifies stream.staging
      ensures Inv()
      ensures forall c | 0 <= c < 2 * s :: stream.staging[c] == if c == dst then shm[src] else old(stream.staging[c])
    {
      stream.staging[dst] := shm[src];
    }

    /** One copy thread, with the DMA engine running alongside. */
    method CpuFillChunk(dst: nat, src: nat, from: nat, to: nat)
      requires Inv() && from <= to && dst + to <= 2 * s && start <= src && src + to <= end
      requires forall t | stream.done <= t < |stream.log| :: !(dst <= stream.log[t].host < dst + to)
      modifies stream`done, stream.dev, stream.staging
      ensures Inv() && old(stream.done) <= stream.done
      ensures stream.dev.mem.reserved == old(stream.dev.mem.reserved) && stream.dev.mem.live == old(stream.dev.mem.live)
      ensures forall c | 0 <= c < 2 * s ::
                stream.staging[c]
                  == if dst + from <= c < dst + to then data[src - start + c - dst] else old(stream.staging[c])
    {
      for k := from to to
        invariant Inv() && old(stream.done) <= stream.done
        invariant stream.dev.mem.reserved == old(stream.dev.mem.reserved)
                  && stream.dev.mem.live == old(stream.dev.mem.live)
        invariant forall c | 0 <= c < 2 * s ::
                    stream.staging[c]
                      == if dst + from <= c < dst + k then data[src - start + c - dst] else old(stream.staging[c])
      {
        AdvanceToDevice(0);
        CpuFillByte(dst + k, src + k);
      }
    }

    /** memcpy_multi into the staging area. */
    method MemcpyMultiIn(dst: nat, src: nat, size: nat)
      requires Inv() && dst + size <= 2 * s && start <= src && src + size <= end
      requires forall t | stream.done <= t < |stream.log| :: !(dst <= stream.log[t].host < dst + size)
      modifies stream`done, stream.dev, stream.staging
      ensures Inv() && old(stream.done) <= stream.done
      ensures stream.dev.mem.reserved == old(stream.dev.mem.reserved) && stream.dev.mem.live == old(stream.dev.mem.live)
      ensures forall c | 0 <= c < 2 * s ::
                stream.staging[c]
                  == if dst <= c < dst + size then data[src - start + c - dst] else old(stream.staging[c])
    {
      var chunk := (size + NUM_COPY_THREADS - 1) / NUM_COPY_THREADS;
      var i, offset := 0, 0;
      while i < NUM_COPY_THREADS && offset < size
        invariant 0 <= i <= NUM_COPY_THREADS && 0 <= offset
        invariant size <= offset + (if i == 0 then 4 * chunk else if i == 1 then 3 * chunk
                                    else if i == 2 then 2 * chunk else if i == 3 then chunk else 0)
        invariant Inv() && old(stream.done) <= stream.done
        invariant stream.dev.mem.reserved == old(stream.dev.mem.reserved)
                  && stream.dev.mem.live == old(stream.dev.mem.live)
        invariant forall c | 0 <= c < 2 * s ::
                    stream.staging[c]
                      == if dst <= c < dst
                      + Min(offset, size) then data[src - start + c - dst] else old(stream.staging[c])
      {
        var len := Min(chunk, size - offset);
        CpuFillChunk(dst, src, offset, offset + len);
        i := i + 1;
        offset := offset + chunk;
      }
    }

    /** Fill the first buffer, before anything is issued. */
    method LoadFirst()
      requires Inv() && stream.log == [] && currentBuf == 0 && bufOffset == 0
      modifies stream`done, stream.dev, stream.staging
      ensures Inv() && Loaded()
      ensures stream.dev.mem.reserved == old(stream.dev.mem.reserved) && stream.dev.mem.live == old(stream.dev.mem.live)
    {
      var size := Min(end - srcOffset, s);
      MemcpyMultiIn(Half(currentBuf, s), srcOffset, size);
    }

    /** Copies just issued out of the current buffer find their bytes there. */
    lemma {:induction false} PendingAfter(before: seq<Op>)
      requires Offsets() && Issued() && Loaded()
      requires stream.done <= |before| <= |stream.log| && first - s <= stream.done && first <= |before|
      requires forall t | 0 <= t < |before| :: stream.log[t] == before[t]
      requires forall t | stream.done <= t < |before| ::
                 before[t].host < 2 * s && stream.staging[before[t].host] == data[t]
      ensures Pending()
    {
    }

    /** The copies change bytes only, so what could be accessed before the first one still can. */
    lemma {:induction false} StillReadable(base: nat, n: nat)
      requires Played() && ReadableIn(mem0, base, n)
      ensures stream.dev.mem.Readable(base, n)
    {
      PlayExtents(mem0, stream.log[..stream.done], data);
    }

    /** memcpyAsync out of the current buffer. */
    method Issue(base: nat, idx: nat, n: nat) returns (ok: bool)
      requires Inv() && Loaded() && bufOffset + n <= s && |stream.log| + n <= |data|
      modifies this`bufOffset, stream`log
      ensures ok ==> Inv() && Loaded()
      ensures ok ==> bufOffset == old(bufOffset) + n && stream.dev.mem.Readable(base, idx + n)
      ensures ok ==> Extends(stream.log, old(stream.log), base, idx, n)
      ensures stream.dev.obliging && stream.dev.mem.Readable(base, idx + n) ==> ok
    {
      ghost var before := stream.log;
      var host := Half(currentBuf, s) + bufOffset;
      ok := stream.MemcpyAsync(false, host, base, idx, n);
      if ok {
        assert stream.log[..stream.done] == before[..stream.done];
        bufOffset := bufOffset + n;
        assert Offsets() && Issued();
        PendingAfter(before);
      }
    }

    /** The current buffer is used up and the other one loaded: switch over and record the event. */
    method Rotate()
      requires Inv() && bufOffset == s && first <= stream.done
      requires cur <= s && LoadedAt(s - cur, first + s)
      modifies this`currentBuf, this`bufOffset, this`srcOffset, this`cur, this`first, stream`mark
      ensures Inv() && Loaded() && bufOffset == 0
    {
      OtherHalf(currentBuf, s);
      ghost var other, next := s - cur, first + s;
      bufOffset := 0;
      currentBuf := currentBuf + 1;
      srcOffset := srcOffset + s;
      stream.RecordEvent();
      cur, first := other, next;
      NowLoaded(other, next);
    }

    lemma {:induction false} NowLoaded(at: nat, from: nat)
      requires LoadedAt(at, from) && at == cur && from == first
      ensures Loaded()
    {
    }

    /** Once the event has fired, pending copies read the current buffer only. */
    lemma {:induction false} OtherIsIdle()
      requires Offsets() && Issued() && first <= stream.done
      ensures forall t | stream.done <= t < |stream.log| :: !(s - cur <= stream.log[t].host < 2 * s - cur)
    {
    }

    /** Refill the buffer no copy reads any more. The length computation does not underflow. */
    method RefillOther()
      requires Inv() && bufOffset == s && first <= stream.done
      modifies stream`done, stream.dev, stream.staging
      ensures Inv() && first <= stream.done
      ensures cur <= s && LoadedAt(s - cur, first + s)
      ensures stream.dev.mem.reserved == old(stream.dev.mem.reserved) && stream.dev.mem.live == old(stream.dev.mem.live)
    {
      var next := srcOffset + s;
      assert next <= end;
      OtherHalf(currentBuf, s);
      OtherIsIdle();
      LoadNext(Half(currentBuf + 1, s), next, Min(end - next, s));
    }

    method LoadNext(dst: nat, next: nat, size: nat)
      requires Inv() && dst == s - cur && next == start + first + s <= end && size == Min(end - next, s)
      requires forall t | stream.done <= t < |stream.log| :: !(dst <= stream.log[t].host < dst + s)
      modifies stream`done, stream.dev, stream.staging
      ensures Inv() && old(stream.done) <= stream.done
      ensures LoadedAt(dst, first + s)
      ensures stream.dev.mem.reserved == old(stream.dev.mem.reserved) && stream.dev.mem.live == old(stream.dev.mem.live)
    {
      MemcpyMultiIn(dst, next, size);
    }

    /** What happens when the current buffer is used up. */
    method SwitchBuffer()
      requires Inv() && bufOffset == s
      modifies this`currentBuf, this`bufOffset, this`srcOffset, this`cur, this`first,
               stream`done, stream`mark, stream.dev, stream.staging
      ensures Inv() && Loaded() && bufOffset == 0
      ensures stream.dev.mem.reserved == old(stream.dev.mem.reserved) && stream.dev.mem.live == old(stream.dev.mem.live)
    {
      AdvanceToDevice(stream.mark);
      RefillOther();
      Rotate();
    }

    /** Ready for the next copy. */
    ghost predicate Ready()
      reads this, stream, stream.dev, stream.staging, shm
    {
      Inv() && Loaded() && bufOffset < s
    }

    /** Issue one copy and switch buffers if it used up the current one. */
    method CopyStep(base: nat, idx: nat, len: nat) returns (ok: bool)
      requires Ready() && bufOffset + len <= s && |stream.log| + len <= |data|
      modifies this`currentBuf, this`bufOffset, this`srcOffset, this`cur, this`first,
               stream`log, stream`done, stream`mark, stream.dev, stream.staging
      ensures ok ==> Ready()
      ensures ok ==> bufOffset == if old(bufOffset) + len == s then 0 else old(bufOffset) + len
      ensures ok ==> Extends(stream.log, old(stream.log), base, idx, len)
      ensures stream.dev.obliging && ReadableIn(mem0, base, idx + len) ==> ok
      ensures stream.dev.mem.reserved == old(stream.dev.mem.reserved) && stream.dev.mem.live == old(stream.dev.mem.live)
    {
      if ReadableIn(mem0, base, idx + len) {
        StillReadable(base, idx + len);
      }
      ok := Issue(base, idx, len);
      if ok && bufOffset >= s {
        SwitchBuffer();
      }
    }

    /** One round of the copy loop: cut the next copy, issue it, extend the ghost list. */
    method CopyNext(base: nat, idx: nat, offset: nat, size: nat, clamp: bool, ghost copies: seq<Chunk>,
                    ghost all: seq<Chunk>) returns (ok: bool, len: nat, ghost copies': seq<Chunk>)
      requires Ready() && idx < size && offset == start + |stream.log| && |stream.log| + size - idx <= |data|
      requires clamp ==> SoFar(copies, all, base, idx, size, bufOffset, s)
      modifies this`currentBuf, this`bufOffset, this`srcOffset, this`cur, this`first,
               stream`log, stream`done, stream`mark, stream.dev, stream.staging
      ensures 0 < len <= size - idx
      ensures ok ==> Ready() && Extends(stream.log, old(stream.log), base, idx, len)
      ensures ok && clamp ==> SoFar(copies', all, base, idx + len, size, bufOffset, s)
      ensures stream.dev.obliging && ReadableIn(mem0, base, size) ==> ok
      ensures stream.dev.mem.reserved == old(stream.dev.mem.reserved) && stream.dev.mem.live == old(stream.dev.mem.live)
    {
      assert srcOffset <= offset && bufOffset == offset - srcOffset;
      len := NextLen(clamp, base + idx, size - idx, s - bufOffset);
      copies' := copies + [Chunk(base + idx, len)];
      if clamp {
        NextChunk(copies, all, base, idx, size, bufOffset, s, len);
      }
      ok := CopyStep(base, idx, len);
    }

    /** The copy loop for one file. The staging position that restore_ptr_and_content recomputes as
        offset minus src_offset is always the running buffer offset. `copies` are the device ranges
        of the asynchronous copies. */
    method CopyIn(base: nat, fileStart: nat, size: nat, clamp: bool) returns (ok: bool, ghost copies: seq<Chunk>)
      requires Ready()
      requires fileStart == start + |stream.log| && fileStart + size <= end
      modifies this`currentBuf, this`bufOffset, this`srcOffset, this`cur, this`first,
               stream`log, stream`done, stream`mark, stream.dev, stream.staging
      ensures ok ==> Ready()
      ensures ok ==> Extends(stream.log, old(stream.log), base, 0, size)
      ensures ok && clamp ==> copies == Chunks(base, size, old(bufOffset), s)
      ensures stream.dev.obliging && ReadableIn(mem0, base, size) ==> ok
      ensures stream.dev.mem.reserved == old(stream.dev.mem.reserved) && stream.dev.mem.live == old(stream.dev.mem.live)
    {
      ghost var all := Chunks(base, size, bufOffset, s);
      assert [] + all == all;
      ok, copies := CopyLoop(base, fileStart, size, clamp, all);
      assert copies + [] == copies;
    }

    method CopyLoop(base: nat, fileStart: nat, size: nat, clamp: bool, ghost all: seq<Chunk>)
      returns (ok: bool, ghost copies: seq<Chunk>)
      requires Ready() && fileStart == start + |stream.log| && fileStart + size <= end
      requires clamp ==> SoFar([], all, base, 0, size, bufOffset, s)
      modifies this`currentBuf, this`bufOffset, this`srcOffset, this`cur, this`first,
               stream`log, stream`done, stream`mark, stream.dev, stream.staging
      ensures ok ==> Ready() && Extends(stream.log, old(stream.log), base, 0, size)
      ensures ok && clamp ==> SoFar(copies, all, base, size, size, bufOffset, s)
      ensures stream.dev.obliging && ReadableIn(mem0, base, size) ==> ok
      ensures stream.dev.mem.reserved == old(stream.dev.mem.reserved) && stream.dev.mem.live == old(stream.dev.mem.live)
    {
      var idx := 0;
      ok, copies := true, [];
      while idx < size
        invariant Copying(old(stream.log), base, fileStart, idx, size, clamp, copies, all)
        invariant stream.dev.mem.reserved == old(stream.dev.mem.reserved)
                  && stream.dev.mem.live == old(stream.dev.mem.live)
      {
        var len;
        ok, len, copies := CopyMore(old(stream.log), base, fileStart, idx, size, clamp, copies, all);
        if !ok {
          return;
        }
        idx := idx + len;
      }
    }

    /** The copies for the first idx bytes of a file have been issued since the log was log0. */
    ghost predicate Copying(log0: seq<Op>, base: nat, fileStart: nat, idx: nat, size: nat, clamp: bool,
                            copies: seq<Chunk>, all: seq<Chunk>)
      reads this, stream, stream.dev, stream.staging, shm
    {
      && Ready() && idx <= size && fileStart + idx == start + |stream.log| && fileStart + size <= end
      && Extends(stream.log, log0, base, 0, idx)
      && (clamp ==> SoFar(copies, all, base, idx, size, bufOffset, s))
    }

    method CopyMore(ghost log0: seq<Op>, base: nat, fileStart: nat, idx: nat, size: nat, clamp: bool,
                    ghost copies: seq<Chunk>, ghost all: seq<Chunk>)
      returns (ok: bool, len: nat, ghost copies': seq<Chunk>)
      requires Copying(log0, base, fileStart, idx, size, clamp, copies, all) && idx < size
      modifies this`currentBuf, this`bufOffset, this`srcOffset, this`cur, this`first,
               stream`log, stream`done, stream`mark, stream.dev, stream.staging
      ensures 0 < len <= size - idx
      ensures ok ==> Copying(log0, base, fileStart, idx + len, size, clamp, copies', all)
      ensures stream.dev.obliging && ReadableIn(mem0, base, size) ==> ok
      ensures stream.dev.mem.reserved == old(stream.dev.mem.reserved) && stream.dev.mem.live == old(stream.dev.mem.live)
    {
      ok, len, copies' := CopyNext(base, idx, fileStart + idx, size, clamp, copies, all);
    }

    /** synchronizeStream at the end: device memory is the sequential replay of all copies. */
    method Finish()
      requires Inv()
      modifies stream`done, stream.dev
      ensures |stream.log| <= |data| && stream.dev.mem.mapped == Play(mem0, stream.log, data)
      ensures stream.dev.mem.reserved == old(stream.dev.mem.reserved) && stream.dev.mem.live == old(stream.dev.mem.live)
    {
      AdvanceToDevice(|stream.log|);
      assert stream.log[..stream.done] == stream.log;
    }
  }
}

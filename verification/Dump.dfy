/** The double-buffered dump loop shared by ckpt and ckpt_selective (src/vGPU.cpp). */
module Dump {
  import opened Layout
  import opened Granule
  import opened Vmm
  import opened Stream

  ghost function Cells(lo: nat, n: nat): (cs: set<nat>)
    ensures forall c :: c in cs <==> lo <= c < lo + n
  {
    if n == 0 then {} else Cells(lo, n - 1) + {lo + n - 1}
  }

  /** The first `size` bytes seen at base. */
  ghost function Shown(mem: Memory, base: nat, size: nat): seq<byte> {
    if size > 0 && mem.Readable(base, size) then mem.mapped[base].bytes[..size] else []
  }

  lemma {:induction false} Extend(before: seq<byte>, mem: Memory, base: nat, idx: nat, len: nat)
    requires mem.Readable(base, idx + len)
    ensures before + Shown(mem, base, idx) + mem.mapped[base].bytes[idx..idx + len]
            == before + Shown(mem, base, idx + len)
  {
  }

  /** Every issued copy reads a mapped device byte, namely the wanted one. */
  ghost predicate Sources(mem: Memory, len: nat, log: seq<Op>, want: seq<byte>) {
    && |want| == |log|
    && forall t | 0 <= t < |log| :: SourceOk(mem, len, log[t], want[t])
  }

  ghost predicate SourceOk(mem: Memory, len: nat, op: Op, v: byte) {
    op.ToHost? && op.host < len && Present(mem, op) && v == Source(mem, op)
  }

  lemma {:induction false} SourcesAppend(mem: Memory, len: nat, before: seq<Op>, log: seq<Op>, want: seq<byte>,
                                         host: nat, base: nat, idx: nat, n: nat)
    requires Sources(mem, len, before, want) && host + n <= len && mem.Readable(base, idx + n)
    requires Appended(log, before, true, host, base, idx, n)
    ensures Sources(mem, len, log, want + mem.mapped[base].bytes[idx..idx + n])
  {
  }

  class DumpPipeline {
    const stream: GpuStream
    const shm: array<byte>    // the shared-memory file, payload at its absolute offsets
    const s: nat              // STAGING_BUF_SIZE
    var currentBuf: nat
    var bufOffset: nat
    var desOffset: nat

    ghost var cur: nat             // where the current buffer starts in the staging area
    ghost var first: nat           // number of bytes issued before the current buffer
    ghost var want: seq<byte>      // the device byte each issued copy is to deliver
    ghost var undrained: set<nat>  // staging cells issued to and not yet copied out by the CPU

    constructor (dev: Device, staging: array<byte>, shm: array<byte>, s: nat)
      requires 0 < s && staging.Length == 2 * s && staging != shm && PAYLOAD_START <= shm.Length
      ensures Inv() && Lagging() && Free() && fresh(stream)
      ensures stream.dev == dev && stream.staging == staging && this.shm == shm && this.s == s
      ensures stream.log == [] && want == [] && bufOffset == 0
    {
      stream := new GpuStream(dev, staging);
      this.shm, this.s := shm, s;
      currentBuf, bufOffset, desOffset := 0, 0, PAYLOAD_START;
      cur, first, want, undrained := 0, 0, [], {};
    }

    /** The scalar part of the invariant: offsets, buffers and the event. */
    ghost predicate Offsets()
      reads this, stream`log, stream`mark
    {
      && 0 < s && stream.staging.Length == 2 * s && stream.staging != shm
      && cur == Half(currentBuf, s)
      && bufOffset <= s
      && |stream.log| == first + bufOffset == |want|
      && PAYLOAD_START <= desOffset <= shm.Length
      && (if currentBuf == 0 then first == 0 && desOffset == PAYLOAD_START
          else s <= first && (desOffset == PAYLOAD_START + first - s || desOffset == PAYLOAD_START + first))
      && stream.mark == first
    }

    /** What was issued: each copy reads its device byte, and the copies not yet drained go to the
        cells of the previous and the current buffer in order. */
    ghost predicate Issued()
      reads this`desOffset, this`first, this`cur, this`want, stream`log, stream.dev
    {
      && Sources(stream.dev.mem, stream.staging.Length, stream.log, want)
      && (forall t | 0 <= t && desOffset - PAYLOAD_START <= t < |stream.log| ::
            stream.log[t].host == if t < first then s - cur + t - (first - s) else cur + t - first)
    }

    /** What the CPU has written to the file. */
    ghost predicate Written()
      reads this`desOffset, this`want, shm
    {
      && PAYLOAD_START <= desOffset <= shm.Length && desOffset - PAYLOAD_START <= |want|
      && forall t | 0 <= t < desOffset - PAYLOAD_START :: shm[PAYLOAD_START + t] == want[t]
    }

    /** Every completed copy that is still to be drained has its byte in the staging area. */
    ghost predicate Delivered()
      reads this`desOffset, this`want, stream`log, stream`done, stream.staging
    {
      && desOffset - PAYLOAD_START <= stream.done <= |stream.log| == |want|
      && (forall t | 0 <= t && desOffset - PAYLOAD_START <= t < stream.done
         && stream.log[t].host < stream.staging.Length ::
            stream.staging[stream.log[t].host] == want[t])
    }

    /** Undrained cells lie in the previous buffer or in the used part of the current one. */
    ghost predicate Occupied()
      reads this
    {
      forall c | c in undrained :: (currentBuf > 0 && s - cur <= c < 2 * s - cur) || cur <= c < cur + bufOffset
    }

    /** Holds between any two steps, whatever the DMA engine has completed so far. */
    ghost predicate Inv()
      reads this, stream, stream.dev, stream.staging, shm
    {
      Offsets() && Issued() && Written() && Delivered() && Occupied()
    }

    /** The previous buffer, if there is one, still has to be copied out. */
    ghost predicate Lagging()
      reads this
    {
      currentBuf > 0 ==> desOffset == PAYLOAD_START + first - s
    }

    /** The rest of the current buffer holds nothing the CPU still needs. */
    ghost predicate Free()
      reads this
    {
      forall c | c in undrained :: !(cur + bufOffset <= c < cur + s)
    }

    /** One byte copy completes. */
    method Tick()
      requires Inv() && stream.done < |stream.log|
      modifies stream`done, stream.staging
      ensures Inv() && stream.done == old(stream.done) + 1
    {
      ghost var d := stream.done;
      assert SourceOk(stream.dev.mem, stream.staging.Length, stream.log[d], want[d]);
      assert forall t | desOffset - PAYLOAD_START <= t < d && 0 <= t :: stream.log[t].host != stream.log[d].host;
      stream.CompleteToHost();
    }

    /** Let the DMA engine run: it completes any number of copies, but at least the first `least`
        issued ones. AdvanceToHost(0) is plain time passing, AdvanceToHost(mark) is synchronizeEvent and
        AdvanceToHost(|log|) is synchronizeStream. */
    method AdvanceToHost(least: nat)
      requires Inv() && least <= |stream.log|
      modifies stream`done, stream.staging
      ensures Inv()
      ensures least <= stream.done && old(stream.done) <= stream.done
    {
      var target: nat := *;
      if target < least { target := least; }
      if target > |stream.log| { target := |stream.log|; }
      while stream.done < target
        invariant Inv() && old(stream.done) <= stream.done
        decreases |stream.log| - stream.done
      {
        Tick();
      }
    }

    /** Once a byte has arrived, no pending copy targets its cell. */
    lemma {:induction false} CellIdle(t: int)
      requires Offsets() && Issued() && 0 <= desOffset - PAYLOAD_START <= t < stream.done <= |stream.log|
      ensures forall u | stream.done <= u < |stream.log| :: stream.log[u].host != stream.log[t].host
    {
    }

    /** memcpyAsync into the current buffer. The staging bytes it will overwrite have all been
        copied out. */
    method Issue(base: nat, idx: nat, n: nat) returns (ok: bool)
      requires Inv() && bufOffset + n <= s
      requires forall c | c in undrained :: !(cur + bufOffset <= c < cur + bufOffset + n)
      modifies this`bufOffset, this`want, this`undrained, stream`log
      ensures ok ==> Inv()
      ensures ok ==> bufOffset == old(bufOffset) + n && stream.dev.mem.Readable(base, idx + n)
      ensures ok ==> want == old(want) + stream.dev.mem.mapped[base].bytes[idx..idx + n]
      ensures ok ==> undrained == old(undrained) + Cells(cur + old(bufOffset), n)
      ensures stream.dev.obliging && stream.dev.mem.Readable(base, idx + n) ==> ok
    {
      var host := Half(currentBuf, s) + bufOffset;
      ghost var log := stream.log;
      ok := stream.MemcpyAsync(true, host, base, idx, n);
      if ok {
        SourcesAppend(stream.dev.mem, stream.staging.Length, log, stream.log, want, host, base, idx, n);
        want := want + stream.dev.mem.mapped[base].bytes[idx..idx + n];
        undrained := undrained + Cells(host, n);
        bufOffset := bufOffset + n;
      }
    }

    /** One byte of a CPU copy out of the staging area. No pending copy may target the byte. */
    method CpuCopyByte(dst: nat, src: nat)
      requires Inv() && src < 2 * s && desOffset <= dst < shm.Length
      requires forall t | stream.done <= t < |stream.log| :: stream.log[t].host != src
      modifies shm
      ensures Inv()
      ensures shm[dst] == stream.staging[src]
      ensures forall i | 0 <= i < shm.Length && i != dst :: shm[i] == old(shm[i])
    {
      shm[dst] := stream.staging[src];
    }

    /** One copy thread: bytes [from, to) of the copy, with the DMA engine running alongside. */
    method CpuCopyChunk(dst: nat, src: nat, from: nat, to: nat, ghost pos: nat)
      requires Inv() && from <= to && desOffset <= dst && dst + to <= shm.Length
      requires desOffset - PAYLOAD_START <= pos && pos + to <= stream.done
      requires forall i | pos <= i < pos + to :: stream.log[i].host == src + i - pos
      modifies shm, stream`done, stream.staging
      ensures Inv() && old(stream.done) <= stream.done
      ensures forall i | 0 <= i < shm.Length ::
                shm[i] == if dst + from <= i < dst + to then want[pos + i - dst] else old(shm[i])
    {
      for k := from to to
        invariant Inv() && old(stream.done) <= stream.done
        invariant forall i | 0 <= i < shm.Length ::
                    shm[i] == if dst + from <= i < dst + k then want[pos + i - dst] else old(shm[i])
      {
        AdvanceToHost(0);
        assert stream.log[pos + k].host == src + k;
        CellIdle(pos + k);
        CpuCopyByte(dst + k, src + k);
      }
    }

    /** memcpy_multi: split [0, size) over the copy threads. The threads write disjoint ranges, so
        their order does not matter. */
    method MemcpyMultiOut(dst: nat, src: nat, size: nat, ghost pos: nat)
      requires Inv() && desOffset <= dst && dst + size <= shm.Length
      requires desOffset - PAYLOAD_START <= pos && pos + size <= stream.done
      requires forall i | pos <= i < pos + size :: stream.log[i].host == src + i - pos
      modifies shm, stream`done, stream.staging
      ensures Inv() && old(stream.done) <= stream.done
      ensures forall i | 0 <= i < shm.Length ::
                shm[i] == if dst <= i < dst + size then want[pos + i - dst] else old(shm[i])
    {
      var chunk := (size + NUM_COPY_THREADS - 1) / NUM_COPY_THREADS;
      var i, offset := 0, 0;
      while i < NUM_COPY_THREADS && offset < size
        invariant 0 <= i <= NUM_COPY_THREADS && 0 <= offset
        invariant size <= offset + (if i == 0 then 4 * chunk else if i == 1 then 3 * chunk
                                    else if i == 2 then 2 * chunk else if i == 3 then chunk else 0)
        invariant Inv() && old(stream.done) <= stream.done
        invariant forall j | 0 <= j < shm.Length ::
                    shm[j] == if dst <= j < dst + Min(offset, size) then want[pos + j - dst] else old(shm[j])
      {
        var len := Min(chunk, size - offset);
        CpuCopyChunk(dst, src, offset, offset + len, pos);
        i := i + 1;
        offset := offset + chunk;
      }
    }

    /** Wait for the event recorded when the previous buffer was full, then copy that buffer out. */
    method DrainPrevious()
      requires Inv() && currentBuf > 0 && Lagging() && PAYLOAD_START + |stream.log| <= shm.Length
      modifies this`desOffset, this`undrained, shm, stream`done, stream.staging
      ensures Inv() && desOffset == PAYLOAD_START + first
      ensures undrained == old(undrained) - Cells(s - cur, s)
      ensures forall i | 0 <= i < shm.Length && (i < PAYLOAD_START || PAYLOAD_START + |stream.log| <= i) ::
                shm[i] == old(shm[i])
    {
      AdvanceToHost(stream.mark);
      MemcpyMultiOut(desOffset, Half(currentBuf - 1, s), s, desOffset - PAYLOAD_START);
      MarkDrained();
    }

    method MarkDrained()
      requires Inv() && currentBuf > 0 && Lagging() && first <= stream.done && PAYLOAD_START + first <= shm.Length
      requires forall t | desOffset <= t < desOffset + s :: shm[t] == want[t - PAYLOAD_START]
      modifies this`desOffset, this`undrained
      ensures Inv() && desOffset == PAYLOAD_START + first
      ensures undrained == old(undrained) - Cells(s - cur, s)
    {
      desOffset := desOffset + s;
      undrained := undrained - Cells(s - cur, s);
    }

    /** The current buffer is full and the previous one is free: switch over and record the event. */
    method Rotate()
      requires Inv() && bufOffset == s && (currentBuf > 0 ==> desOffset == PAYLOAD_START + first)
      requires forall c | c in undrained :: cur <= c < cur + bufOffset
      modifies this`currentBuf, this`bufOffset, this`cur, this`first, stream`mark
      ensures Inv() && Lagging() && Free() && bufOffset == 0
    {
      bufOffset := 0;
      currentBuf := currentBuf + 1;
      stream.RecordEvent();
      cur, first := s - cur, |stream.log|;
    }

    /** What happens when a copy has filled the current buffer. */
    method SwitchBuffer()
      requires Inv() && Lagging() && bufOffset == s && PAYLOAD_START + |stream.log| <= shm.Length
      modifies this`currentBuf, this`bufOffset, this`desOffset, this`undrained, this`cur, this`first, shm,
               stream`done, stream`mark, stream.staging
      ensures Inv() && Lagging() && Free() && bufOffset == 0
      ensures forall i | 0 <= i < shm.Length && (i < PAYLOAD_START || PAYLOAD_START + |stream.log| <= i) ::
                shm[i] == old(shm[i])
    {
      if currentBuf > 0 {
        DrainPrevious();
      }
      Rotate();
    }

    /** Ready for the next copy. */
    ghost predicate Ready()
      reads this, stream, stream.dev, stream.staging, shm
    {
      Inv() && Lagging() && Free() && bufOffset < s
    }

    /** Issue one copy and switch buffers if it filled the current one. */
    method CopyStep(base: nat, idx: nat, len: nat) returns (ok: bool)
      requires Ready() && bufOffset + len <= s && PAYLOAD_START + |stream.log| + len <= shm.Length
      modifies this`currentBuf, this`bufOffset, this`desOffset, this`undrained, this`cur, this`first, this`want,
               shm, stream`log, stream`done, stream`mark, stream.staging
      ensures ok ==> Ready() && stream.dev.mem.Readable(base, idx + len)
      ensures ok ==> bufOffset == if old(bufOffset) + len == s then 0 else old(bufOffset) + len
      ensures ok ==> want == old(want) + stream.dev.mem.mapped[base].bytes[idx..idx + len]
      ensures stream.dev.obliging && stream.dev.mem.Readable(base, idx + len) ==> ok
      ensures forall i | 0 <= i < shm.Length && (i < PAYLOAD_START || PAYLOAD_START + old(|stream.log|) + len <= i) ::
                shm[i] == old(shm[i])
    {
      ok := Issue(base, idx, len);
      if ok && bufOffset >= s {
        SwitchBuffer();
      }
    }

    /** One round of the copy loop: cut the next copy, issue it, extend the ghost lists. */
    method CopyNext(base: nat, idx: nat, size: nat, clamp: bool, ghost before: seq<byte>, ghost copies: seq<Chunk>,
                    ghost all: seq<Chunk>) returns (ok: bool, next: nat, ghost copies': seq<Chunk>)
      requires Ready() && idx < size && PAYLOAD_START + |stream.log| + size - idx <= shm.Length
      requires (idx > 0 ==> stream.dev.mem.Readable(base, idx)) && want == before + Shown(stream.dev.mem, base, idx)
      requires clamp ==> SoFar(copies, all, base, idx, size, bufOffset, s)
      modifies this`currentBuf, this`bufOffset, this`desOffset, this`undrained, this`cur, this`first, this`want,
               shm, stream`log, stream`done, stream`mark, stream.staging
      ensures idx < next <= size
      ensures ok ==> Ready() && stream.dev.mem.Readable(base, next)
      ensures ok ==> want == before + Shown(stream.dev.mem, base, next)
      ensures ok && clamp ==> SoFar(copies', all, base, next, size, bufOffset, s)
      ensures stream.dev.obliging && stream.dev.mem.Readable(base, size) ==> ok
      ensures forall i | 0 <= i < shm.Length
              && (i < PAYLOAD_START || PAYLOAD_START + old(|stream.log|) + size - idx <= i) ::
                shm[i] == old(shm[i])
    {
      var len := NextLen(clamp, base + idx, size - idx, s - bufOffset);
      next, copies' := idx + len, copies + [Chunk(base + idx, len)];
      if clamp {
        NextChunk(copies, all, base, idx, size, bufOffset, s, len);
      }
      ok := CopyStep(base, idx, len);
      if ok {
        Extend(before, stream.dev.mem, base, idx, len);
      }
    }

    /** The copy loop for one allocation: ckpt copies whole chunks, ckpt_selective clamps each copy
        to a granule. On success the pipeline has been asked for exactly the block's bytes;
        `copies` are the device ranges of the asynchronous copies. */
    method CopyOut(base: nat, size: nat, clamp: bool) returns (ok: bool, ghost copies: seq<Chunk>)
      requires Ready()
      requires PAYLOAD_START + |stream.log| + size <= shm.Length
      modifies this, shm, stream`log, stream`done, stream`mark, stream.staging
      ensures ok ==> Ready()
      ensures ok ==> (size > 0 ==> stream.dev.mem.Readable(base, size))
      ensures ok ==> want == old(want) + Shown(stream.dev.mem, base, size)
      ensures ok && clamp ==> copies == Chunks(base, size, old(bufOffset), s)
      ensures stream.dev.obliging && stream.dev.mem.Readable(base, size) ==> ok
      ensures forall i | 0 <= i < shm.Length && (i < PAYLOAD_START || PAYLOAD_START + old(|stream.log|) + size <= i) ::
                shm[i] == old(shm[i])
    {
      var idx := 0;
      ok, copies := true, [];
      ghost var all := Chunks(base, size, bufOffset, s);
      assert want == want + Shown(stream.dev.mem, base, 0);
      assert [] + all == all;
      while idx < size
        invariant 0 <= idx <= size
        invariant Ready() && |want| == old(|stream.log|) + idx
        invariant idx > 0 ==> stream.dev.mem.Readable(base, idx)
        invariant want == old(want) + Shown(stream.dev.mem, base, idx)
        invariant clamp ==> SoFar(copies, all, base, idx, size, bufOffset, s)
        invariant forall i | 0 <= i < shm.Length
                  && (i < PAYLOAD_START || PAYLOAD_START + old(|stream.log|) + size <= i) ::
                    shm[i] == old(shm[i])
      {
        ok, idx, copies := CopyNext(base, idx, size, clamp, old(want), copies, all);
        if !ok {
          return;
        }
      }
      assert clamp ==> copies + [] == copies;
    }

    /** After the last allocation: drain what is left. */
    method Finish()
      requires Inv() && Lagging() && PAYLOAD_START + |stream.log| <= shm.Length
      modifies this`desOffset, this`undrained, shm, stream`done, stream.staging
      ensures forall t | 0 <= t < |want| :: shm[PAYLOAD_START + t] == want[t]
      ensures desOffset + bufOffset == PAYLOAD_START + |want|
      ensures forall i | 0 <= i < shm.Length && (i < PAYLOAD_START || PAYLOAD_START + |want| <= i) ::
                shm[i] == old(shm[i])
    {
      if currentBuf > 0 {
        DrainPrevious();
      }
      AdvanceToHost(|stream.log|);
      MemcpyMultiOut(desOffset, Half(currentBuf, s), bufOffset, first);
    }
  }
}

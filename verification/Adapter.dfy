/** The host buffers of the adapter runtime and its three entry points
    (adapters/nccl/runtime/gcr_checkpoint_runtime.cpp). */
module Adapter {
  import opened Wrappers
  import opened Layout
  import opened Fabric
  import opened ExportLayout
  import opened IpcProcess
  import opened Survival

  /** What a storage buffer can hold: a mapping, a pinned block, an open descriptor, a file. */
  datatype Resource = Mem(id: nat) | Pinned(id: nat) | Fd(id: nat) | File(id: nat)

  /** GCR_STORAGE_BACKEND. */
  datatype Backend = Anon | PinnedHost | Hugepage

  /** The operating system's side: what the runtime has acquired and not given up. */
  class Os {
    const obliging: bool  // no call fails
    ghost var live: set<Resource>
    ghost var failures: nat  // calls that have failed
    var next: nat  // ids up to here are taken; file names use g_storage_file_seq in its place

    constructor (obliging: bool)
      ensures live == {} && Fresh() && this.obliging == obliging && failures == 0
    {
      this.obliging := obliging;
      live, next, failures := {}, 0, 0;
    }

    method Accepts() returns (yes: bool)
      modifies this`failures
      ensures obliging ==> yes
      ensures failures == if yes then old(failures) else old(failures) + 1
    {
      yes := *;
      yes := yes || obliging;
      if !yes {
        failures := failures + 1;
      }
    }

    ghost predicate Fresh()
      reads this
    {
      forall r | r in live :: r.id < next
    }

    /** A call that acquires something, or fails. */
    method Acquire(r: nat -> Resource) returns (got: Option<Resource>)
      requires Fresh() && forall n: nat :: r(n).id == n
      modifies this
      ensures Fresh() && (got.Some? ==> got.value == r(old(next)) && got.value !in old(live))
      ensures live == if got.Some? then old(live) + {got.value} else old(live)
      ensures obliging ==> got.Some?
      ensures failures == if got.Some? then old(failures) else old(failures) + 1
    {
      got := None;
      var yes := Accepts();
      if yes {
        got := Some(r(next));
        live := live + {r(next)};
      }
      next := next + 1;
    }

    /** munmap, cudaFreeHost, close or unlink. Only what is held may be given up, so nothing is given up
        twice. */
    method GiveUp(r: Resource)
      requires Fresh() && r in live
      modifies this`live
      ensures Fresh() && live == old(live) - {r}
    {
      live := live - {r};
    }
  }

  function SetOf(r: Option<Resource>): set<Resource> {
    if r.Some? then {r.value} else {}
  }

  class StorageBuffer {
    var mem: Option<Resource>   // ptr and pinned
    var size: nat
    var fd: Option<Resource>
    var file: Option<Resource>  // path

    constructor ()
      ensures Held() == {} && Kinds()
    {
      mem, size, fd, file := None, 0, None, None;
    }

    ghost function Held(): set<Resource>
      reads this
    {
      SetOf(mem) + SetOf(fd) + SetOf(file)
    }

    ghost predicate Kinds()
      reads this
    {
      && (mem.Some? ==> (mem.value.Mem? || mem.value.Pinned?) && size > 0)
      && (fd.Some? ==> fd.value.Fd?) && (file.Some? ==> file.value.File?)
      && (mem.None? ==> fd.None? && file.None?)
    }

    /** release_buffer: gives up everything the buffer holds, each thing once. */
    method ReleaseBuffer(os: Os)
      requires os.Fresh() && Kinds() && Held() <= os.live
      modifies this, os`live
      ensures os.Fresh() && Kinds() && Held() == {} && mem == None && size == 0
      ensures os.live == old(os.live) - old(Held())
    {
      if mem.Some? && size > 0 {
        os.GiveUp(mem.value);
      }
      if fd.Some? {
        os.GiveUp(fd.value);
      }
      if file.Some? {
        os.GiveUp(file.value);
      }
      mem, size, fd, file := None, 0, None, None;
    }

    /** allocate_buffer: whatever fails on the way, the buffer ends up holding exactly what was acquired
        and not given up again. It succeeds if and only if no call fails, and then it holds `needed` bytes
        of the backend's kind. */
    method AllocateBuffer(os: Os, needed: nat, backend: Backend) returns (ok: bool)
      requires os.Fresh() && Kinds() && Held() <= os.live
      modifies this, os
      ensures os.Fresh() && Kinds() && Held() !! (old(os.live) - old(Held()))
      ensures os.live == old(os.live) - old(Held()) + Held()
      ensures ok ==> (mem.Some? <==> needed > 0) && size == needed
      ensures ok && needed > 0 ==>
                && (mem.value.Pinned? <==> backend == PinnedHost)
                && (fd.Some? <==> backend == Hugepage) && (file.Some? <==> backend == Hugepage)
      ensures !ok ==> Held() == {}
      ensures os.obliging ==> ok
      ensures ok <==> os.failures == old(os.failures)
      ensures os.failures >= old(os.failures)
    {
      ReleaseBuffer(os);
      if needed == 0 {
        return true;
      }
      if backend == PinnedHost {
        var block := os.Acquire((n: nat) => Pinned(n));
        if block.Some? {
          mem, size := block, needed;
        }
        return block.Some?;
      }
      ghost var base := os.live;
      var desc, path := None, None;
      if backend == Hugepage {
        desc, path := OpenFile(os);
        if desc == None {
          return false;
        }
      }
      var map_ := os.Acquire((n: nat) => Mem(n));
      if map_ == None {
        if desc.Some? {
          os.GiveUp(desc.value);
          os.GiveUp(path.value);
        }
        assert os.live == base;
        return false;
      }
      mem, size, fd, file := map_, needed, desc, path;
      ok := true;
    }

    /** The hugepage file: created, desc and sized, or nothing is left of it. */
    method OpenFile(os: Os) returns (desc: Option<Resource>, path: Option<Resource>)
      requires os.Fresh()
      modifies os
      ensures os.Fresh() && (desc.Some? <==> path.Some?) && (desc.Some? ==> desc.value.Fd? && path.value.File?)
      ensures SetOf(desc) + SetOf(path) !! old(os.live)
      ensures os.live == old(os.live) + SetOf(desc) + SetOf(path)
      ensures os.obliging ==> desc.Some?
      ensures desc.Some? <==> os.failures == old(os.failures)
      ensures os.failures >= old(os.failures)
    {
      path := os.Acquire((n: nat) => File(n));
      desc := None;
      if path == None {
        return;
      }
      desc := os.Acquire((n: nat) => Fd(n));
      if desc == None {
        os.GiveUp(path.value);
        return None, None;
      }
      var sized := os.Accepts();
      if !sized {
        os.GiveUp(desc.value);
        os.GiveUp(path.value);
        return None, None;
      }
    }
  }

  /** The runtime. The bytes of the export buffer are the process's `exportBuf`. */
  class Runtime {
    const os: Os
    const exportData: StorageBuffer
    const localData: StorageBuffer
    const proc: Process
    var prepared: bool     // g_prepared

    constructor (os: Os, proc: Process)
      requires os.live == {} && os.Fresh() && proc.exportBuf == []
      ensures Valid() && !prepared && this.os == os && this.proc == proc
      ensures fresh(exportData) && fresh(localData)
    {
      this.os, this.proc := os, proc;
      exportData := new StorageBuffer();
      localData := new StorageBuffer();
      prepared := false;
    }

    /** Everything acquired is held by exactly one of the two buffers, and the export buffer has bytes
        exactly when it has memory. */
    ghost predicate Valid()
      reads this, os, exportData, localData, proc`exportBuf
    {
      && os.Fresh() && exportData != localData && exportData.Kinds() && localData.Kinds()
      && os.live == exportData.Held() + localData.Held() && exportData.Held() !! localData.Held()
      && (exportData.mem.Some? <==> proc.exportBuf != [])
    }

    /** Each export that was ever mapped is up or down, and down if there is a buffer. */
    ghost predicate Consistent()
      reads proc, proc.machine
    {
      && proc.machine.obliging && proc.view.Valid(proc.machine.blocks) && Settled(proc.exports, proc.view)
      && (proc.exportBuf != [] ==> AllDownRecords(proc.exports, proc.view))
    }

    /** The bytes of every record, as far as they can be read. */
    ghost function Contents(): seq<seq<byte>>
      reads proc, proc.machine
    {
      ContentsOf(proc.exports, proc.view, proc.machine.blocks)
    }

    /** A new export buffer for `needed` bytes; what the old one held is gone. */
    method NewExportBuffer(needed: nat, backend: Backend) returns (ok: bool)
      requires Valid()
      modifies os, exportData, proc`exportBuf
      ensures Valid()
      ensures |proc.exportBuf| == if ok then needed else 0
      ensures os.obliging ==> ok
      ensures ok <==> os.failures == old(os.failures)
      ensures os.failures >= old(os.failures)
    {
      ok := exportData.AllocateBuffer(os, needed, backend);
      var bytes: seq<byte> := *;
      proc.exportBuf := if !ok then [] else if |bytes| == needed then bytes else seq(needed, i => 0);
    }

    /** gcr_checkpoint_prepare. `reached` tells whether it got as far as replacing the export buffer. */
    method Prepare(localBytes: nat, backend: Backend) returns (ok: bool, ghost reached: bool)
      requires Valid() && Consistent()
      modifies this`prepared, os, exportData, localData, proc`exports, proc`view, proc`exportBuf
      ensures Valid() && Consistent()
      ensures prepared == ok
      ensures os.obliging ==> ok && (reached <==> !old(prepared))
      ensures ok <==> os.failures == old(os.failures)
      ensures os.failures >= old(os.failures)
      ensures ok && !old(prepared) ==> localData.size == localBytes && (localData.mem.Some? <==> localBytes > 0)
      ensures reached ==> !old(prepared)
      ensures ok && !old(prepared) ==> reached
      ensures !reached ==> proc.exports == old(proc.exports) && proc.exportBuf == old(proc.exportBuf)
                           && proc.view == old(proc.view)
      ensures reached ==>
                Prepared(old(proc.exports), proc.exports, proc.view, proc.machine.blocks, proc.exportBuf,
                         old(Contents()), ok)
    {
      reached := false;
      if prepared {
        return true, reached;
      }
      var synced := os.Accepts();
      if !synced {
        return false, reached;
      }
      reached := true;
      ok := SaveExports(backend);
      if ok {
        ok := SaveLocals(localBytes, backend);
      }
      prepared := ok;
    }

    /** Fill a new export buffer and tear the exports down. */
    method SaveExports(backend: Backend) returns (ok: bool)
      requires Valid() && Consistent()
      modifies os, exportData, proc`exports, proc`view, proc`exportBuf
      ensures Valid() && Consistent()
      ensures os.obliging ==> ok
      ensures ok <==> os.failures == old(os.failures)
      ensures os.failures >= old(os.failures)
      ensures Prepared(old(proc.exports), proc.exports, proc.view, proc.machine.blocks, proc.exportBuf,
                       old(Contents()), ok)
    {
      var needed := DataSize(proc.exports, |proc.exports|);
      NothingToSave(proc.exports, |proc.exports|);
      ok := NewExportBuffer(needed, backend);
      if ok && needed > 0 {
        SaveInto(proc);
      } else {
        NotTaken(proc.exports, proc.view, proc.machine.blocks, Contents(), ok);
      }
    }

    method SaveLocals(needed: nat, backend: Backend) returns (ok: bool)
      requires Valid()
      modifies os, localData
      ensures Valid() && (os.obliging ==> ok)
      ensures ok <==> os.failures == old(os.failures)
      ensures os.failures >= old(os.failures)
      ensures ok ==> localData.size == needed && (localData.mem.Some? <==> needed > 0)
    {
      var events := os.Accepts();
      if !events {
        return false;
      }
      ok := localData.AllocateBuffer(os, needed, backend);
      if ok && localData.mem.Some? {
        ok := os.Accepts();
      }
    }

    /** gcr_checkpoint_restore_export. A record the driver refuses is skipped by the rebuild, which reports
        how many records it did rebuild, never a failure; the buffer is released all the same. So whether the
        call succeeds does not depend on refusals, and a record whose bytes the buffer held has them
        afterwards if and only if it was not refused. */
    method RestoreExport(refused: Refusals, ghost contents: seq<seq<byte>>) returns (ok: bool)
      requires Valid() && Consistent() && |contents| == |proc.exports|
      modifies os, exportData, localData, proc`exports, proc`view, proc`alias, proc`created, proc`handleToVa,
               proc`exportBuf, proc.machine
      ensures Valid() && Consistent() && proc.exportBuf == [] && |proc.exports| == |old(proc.exports)|
      ensures os.obliging ==> ok
      ensures forall i | 0 <= i < |contents| && TornOne(old(proc.exports)[i], old(proc.exportBuf), contents[i]) ::
                HasBytes(proc.exports[i], proc.view, proc.machine.blocks, [], contents[i]) <==> !refused(i)
      ensures old(proc.exportBuf) == [] ==> proc.exports == old(proc.exports) && proc.view == old(proc.view)
      ensures os.live == {} && (ok <==> os.failures == old(os.failures))
      ensures os.failures >= old(os.failures)
    {
      if exportData.mem.Some? {
        RebuildFromBuffer(refused, contents);
      }
      if localData.mem.Some? {
        localData.ReleaseBuffer(os);
      }
      ok := os.Accepts();
    }

    method RebuildFromBuffer(refused: Refusals, ghost contents: seq<seq<byte>>)
      requires Valid() && Consistent() && |contents| == |proc.exports| && proc.exportBuf != []
      modifies os`live, exportData, proc`exports, proc`view, proc`alias, proc`created, proc`handleToVa,
               proc`exportBuf, proc.machine
      ensures Valid() && Consistent() && proc.exportBuf == [] && |proc.exports| == |old(proc.exports)|
      ensures forall i | 0 <= i < |contents| && TornOne(old(proc.exports)[i], old(proc.exportBuf), contents[i]) ::
                HasBytes(proc.exports[i], proc.view, proc.machine.blocks, [], contents[i]) <==> !refused(i)
      ensures exportData.mem.None?
    {
      BringBack(proc, refused);
      BackExactlyWhen(old(proc.exports), proc.exports, proc.view, proc.machine.blocks, proc.exportBuf, contents,
                      refused);
      exportData.ReleaseBuffer(os);
      proc.exportBuf := [];
    }

    /** gcr_checkpoint_restore_import. */
    method RestoreImport() returns (ok: bool)
      requires Valid()
      modifies this`prepared, os`failures
      ensures Valid() && (os.obliging ==> ok) && (ok <==> os.failures == old(os.failures))
      ensures os.failures >= old(os.failures)
      ensures prepared == if ok then false else old(prepared)
    {
      ok := os.Accepts();
      if ok {
        prepared := false;
      }
    }

    /** Between two checkpoints: nothing prepared, no buffer, nothing held. */
    ghost predicate Idle()
      reads this, os, exportData, localData, proc, proc.machine
    {
      Valid() && Consistent() && !prepared && proc.exportBuf == [] && os.live == {}
    }

    /** One checkpoint and restore in order. */
    method OneRun(localBytes: nat, backend: Backend, refused: Refusals) returns (ok: bool)
      requires Idle()
      modifies this`prepared, os, exportData, localData, proc`exports, proc`view, proc`alias, proc`created,
               proc`handleToVa, proc`exportBuf, proc.machine
      ensures Valid() && Consistent() && |proc.exports| == |old(proc.exports)|
      ensures os.obliging ==> ok
      ensures ok <==> os.failures == old(os.failures)
      ensures ok ==> Idle()
      ensures forall i | 0 <= i < |proc.exports| && Active(old(proc.exports)[i]) && !refused(i) ::
                HasBytes(proc.exports[i], proc.view, proc.machine.blocks, proc.exportBuf, old(Contents())[i])
      ensures ok ==> forall i | 0 <= i < |proc.exports| && Active(old(proc.exports)[i]) && refused(i) ::
                Lost(proc.exports[i], proc.view, proc.machine.blocks, proc.exportBuf, old(Contents())[i])
    {
      ghost var contents := Contents();
      ghost var before := proc.exports;
      ghost var reached;
      ok, reached := Prepare(localBytes, backend);
      if !ok {
        return;
      }
      PreparedTorn(before, proc.exports, proc.view, proc.machine.blocks, proc.exportBuf, contents);
      ok := RestoreBoth(refused, before, contents);
    }

    /** The two restore calls, when the buffer holds the bytes of every record that was up before. */
    method RestoreBoth(refused: Refusals, ghost before: seq<Export>, ghost contents: seq<seq<byte>>) returns (ok: bool)
      requires Valid() && Consistent() && |before| == |proc.exports| == |contents|
      requires forall i | 0 <= i < |before| && Active(before[i]) ::
                 TornOne(proc.exports[i], proc.exportBuf, contents[i])
      modifies this`prepared, os, exportData, localData, proc`exports, proc`view, proc`alias, proc`created,
               proc`handleToVa, proc`exportBuf, proc.machine
      ensures Valid() && Consistent() && |proc.exports| == |before| && proc.exportBuf == []
      ensures os.obliging ==> ok
      ensures (ok <==> os.failures == old(os.failures)) && os.failures >= old(os.failures)
      ensures ok ==> Idle()
      ensures forall i | 0 <= i < |before| && Active(before[i]) ::
                HasBytes(proc.exports[i], proc.view, proc.machine.blocks, [], contents[i]) <==> !refused(i)
    {
      ghost var mid, buf := proc.exports, proc.exportBuf;
      ok := RestoreExport(refused, contents);
      UpWithoutBuffer(before, mid, proc.exports, proc.view, proc.machine.blocks, buf, contents, refused);
      if ok {
        ok := RestoreImport();
      }
    }

    /** Any number of runs in order, whatever is refused in them: nothing leaks, and wherever they stop, an
        export that was up at first and was never refused has its bytes. */
    method Runs(n: nat, localBytes: nat, backend: Backend, refused: nat -> Refusals) returns (ok: bool)
      requires Idle()
      modifies this`prepared, os, exportData, localData, proc`exports, proc`view, proc`alias, proc`created,
               proc`handleToVa, proc`exportBuf, proc.machine
      ensures Valid() && Consistent()
      ensures os.obliging ==> ok
      ensures ok ==> Idle()
      ensures KeptSoFar(old(proc.exports), proc.exports, proc.view, proc.machine.blocks, proc.exportBuf,
                        old(Contents()), refused, n)
    {
      ghost var contents := Contents();
      KeptAtFirst(proc.exports, proc.view, proc.machine.blocks, contents, refused);
      for k := 0 to n
        invariant Idle()
        invariant KeptSoFar(old(proc.exports), proc.exports, proc.view, proc.machine.blocks, [], contents, refused, k)
      {
        ok := RunNext(k, localBytes, backend, refused, old(proc.exports), contents);
        if !ok {
          KeptLess(old(proc.exports), proc.exports, proc.view, proc.machine.blocks, proc.exportBuf, contents, refused,
                   k + 1, n);
          return;
        }
      }
      ok := true;
    }

    method RunNext(k: nat, localBytes: nat, backend: Backend, refused: nat -> Refusals, ghost first: seq<Export>,
                   ghost contents: seq<seq<byte>>) returns (ok: bool)
      requires Idle() && KeptSoFar(first, proc.exports, proc.view, proc.machine.blocks, [], contents, refused, k)
      modifies this`prepared, os, exportData, localData, proc`exports, proc`view, proc`alias, proc`created,
               proc`handleToVa, proc`exportBuf, proc.machine
      ensures Valid() && Consistent()
      ensures os.obliging ==> ok
      ensures ok ==> Idle()
      ensures KeptSoFar(first, proc.exports, proc.view, proc.machine.blocks, proc.exportBuf, contents, refused, k + 1)
    {
      ghost var before, was, blocks := proc.exports, proc.view, proc.machine.blocks;
      ok := OneRun(localBytes, backend, refused(k));
      KeptNext(first, before, was, blocks, proc.exports, proc.view, proc.machine.blocks, proc.exportBuf, contents,
               refused, k);
    }

    /** The failing run: every call succeeds, and the export that was refused is down without its bytes. */
    method LossyRun(i: nat, localBytes: nat, backend: Backend) returns (ok: bool)
      requires Idle() && os.obliging && i < |proc.exports| && Active(proc.exports[i])
      modifies this`prepared, os, exportData, localData, proc`exports, proc`view, proc`alias, proc`created,
               proc`handleToVa, proc`exportBuf, proc.machine
      ensures ok && Idle() && i < |proc.exports|
      ensures Lost(proc.exports[i], proc.view, proc.machine.blocks, proc.exportBuf, old(Contents())[i])
    {
      ok := OneRun(localBytes, backend, (j: nat) => j == i);
    }

    /** Out of order: an import without the export before it clears the latch, and the next prepare throws
        the bytes of every export away. */
    method SkippedExport(localBytes: nat, backend: Backend) returns (ok: bool)
      requires Idle() && os.obliging
      modifies this`prepared, os, exportData, localData, proc`exports, proc`view, proc`exportBuf
      ensures ok && |proc.exports| == |old(proc.exports)|
      ensures forall i | 0 <= i < |proc.exports| && Active(old(proc.exports)[i]) ::
                Lost(proc.exports[i], proc.view, proc.machine.blocks, proc.exportBuf, old(Contents())[i])
    {
      ghost var before, contents := proc.exports, Contents();
      ghost var reached;
      ok, reached := Prepare(localBytes, backend);
      ghost var mid := proc.exports;
      PreparedTorn(before, mid, proc.view, proc.machine.blocks, proc.exportBuf, contents);
      NoneUp(mid, proc.view, |mid|);
      ok := RestoreImport();
      ok, reached := Prepare(localBytes, backend);
    }
  }

  /** The record's bytes c are neither at its address nor in the buffer. */
  ghost predicate Lost(e: Export, view: View, blocks: Blocks, buf: seq<byte>, c: seq<byte>) {
    !HasBytes(e, view, blocks, buf, c)
  }

  /** What gcr_checkpoint_prepare leaves of the exports: one that was up has its bytes, at its address or in
      the buffer; one that was down is as it was, but the buffer is what this save made of the ones that
      were up, or nothing. */
  ghost predicate Prepared(before: seq<Export>, exports: seq<Export>, view: View, blocks: Blocks, buf: seq<byte>,
                           contents: seq<seq<byte>>, ok: bool) {
    && |exports| == |before| == |contents|
    && (forall i | 0 <= i < |before| && Active(before[i]) :: HasBytes(exports[i], view, blocks, buf, contents[i]))
    && (buf == [] ==> exports == before)
    && (buf != [] ==> |buf| == DataSize(before, |before|) && SavedAndDown(before, exports, buf, contents))
    && (ok ==> AllDownRecords(exports, view) && |buf| == DataSize(before, |before|))
  }

  method SaveInto(p: Process)
    requires p.machine.obliging && p.view.Valid(p.machine.blocks) && Settled(p.exports, p.view)
    requires |p.exportBuf| == DataSize(p.exports, |p.exports|) > 0
    modifies p`exports, p`view, p`exportBuf
    ensures p.view.Valid(p.machine.blocks) && AllDownRecords(p.exports, p.view) && p.exportBuf != []
    ensures Prepared(old(p.exports), p.exports, p.view, p.machine.blocks, p.exportBuf,
                     ContentsOf(old(p.exports), old(p.view), p.machine.blocks), true)
  {
    ghost var before, contents := p.exports, ContentsOf(p.exports, p.view, p.machine.blocks);
    SettledProps(before, p.view);
    var _ := TakeDownInto(p);
    forall i | 0 <= i < |before| && Active(before[i])
      ensures HasBytes(p.exports[i], p.view, p.machine.blocks, p.exportBuf, contents[i])
    {
      SavedIsTorn(before, p.exports, p.exportBuf, contents, i);
    }
  }

  lemma {:induction false} SettledProps(exports: seq<Export>, view: View)
    requires Settled(exports, view)
    ensures forall i | 0 <= i < |exports| && Active(exports[i]) :: exports[i].alloc.prop.Some?
  {
  }

  /** Nothing was torn down: what was up still is. */
  lemma {:induction false} NotTaken(exports: seq<Export>, view: View, blocks: Blocks, contents: seq<seq<byte>>,
                                    ok: bool)
    requires view.Valid(blocks) && Settled(exports, view) && contents == ContentsOf(exports, view, blocks)
    requires ok ==> DataSize(exports, |exports|) == 0 && forall i | 0 <= i < |exports| :: !Active(exports[i])
    ensures Prepared(exports, exports, view, blocks, [], contents, ok)
  {
    forall i | 0 <= i < |exports| && Active(exports[i])
      ensures UpOne(exports[i], view, blocks, contents[i])
    {
      assert IsUpRecord(exports[i], view);
    }
  }

  /** A rebuilt record shows its range of the buffer; a refused one is down, without a buffer. */
  lemma {:induction false} BackExactlyWhen(before: seq<Export>, exports: seq<Export>, view: View, blocks: Blocks,
                                           buf: seq<byte>, contents: seq<seq<byte>>, refused: Refusals)
    requires view.Valid(blocks) && AllBackOrNot(before, exports, view, blocks, buf, refused) && |contents| == |before|
    ensures forall i | 0 <= i < |contents| && TornOne(before[i], buf, contents[i]) ::
              HasBytes(exports[i], view, blocks, [], contents[i]) <==> !refused(i)
  {
    forall i | 0 <= i < |contents| && TornOne(before[i], buf, contents[i])
      ensures HasBytes(exports[i], view, blocks, [], contents[i]) <==> !refused(i)
    {
      assert BackOrNot(before[i], exports[i], view, blocks, buf, refused(i));
    }
  }

  /** After a successful prepare every export that was up is down, with its bytes in the buffer. */
  lemma {:induction false} PreparedTorn(before: seq<Export>, mid: seq<Export>, view: View, blocks: Blocks,
                                        buf: seq<byte>, contents: seq<seq<byte>>)
    requires Prepared(before, mid, view, blocks, buf, contents, true)
    ensures forall i | 0 <= i < |before| && Active(before[i]) :: TornOne(mid[i], buf, contents[i])
  {
    forall i | 0 <= i < |before| && Active(before[i])
      ensures TornOne(mid[i], buf, contents[i])
    {
      SomethingToSave(before, |before|, i);
      assert HasBytes(mid[i], view, blocks, buf, contents[i]);
      assert DownFrom(before[i], mid[i]);
    }
  }

  lemma {:induction false} UpWithoutBuffer(before: seq<Export>, mid: seq<Export>, exports: seq<Export>, view: View,
                                           blocks: Blocks, buf: seq<byte>, contents: seq<seq<byte>>, refused: Refusals)
    requires |before| == |mid| == |exports| == |contents|
    requires forall i | 0 <= i < |before| && Active(before[i]) :: TornOne(mid[i], buf, contents[i])
    requires forall i | 0 <= i < |contents| && TornOne(mid[i], buf, contents[i]) ::
               HasBytes(exports[i], view, blocks, [], contents[i]) <==> !refused(i)
    ensures forall i | 0 <= i < |before| && Active(before[i]) ::
              HasBytes(exports[i], view, blocks, [], contents[i]) <==> !refused(i)
  {
  }

  /** A prepare keeps the bytes of an export if and only if the export was up: the bytes of one that was
      down are not in the new buffer, whatever they are. */
  lemma {:induction false} PrepareKeepsExactlyWhen(before: seq<Export>, exports: seq<Export>, view: View,
                                                   blocks: Blocks, buf: seq<byte>, contents: seq<seq<byte>>, ok: bool,
                                                   i: nat)
    requires Prepared(before, exports, view, blocks, buf, contents, ok) && i < |before|
    ensures Active(before[i]) ==> HasBytes(exports[i], view, blocks, buf, contents[i])
    ensures Rebuildable(before[i]) && before[i].saved.Some? ==>
              && exports[i] == before[i]
              && (buf == [] ==> forall c :: !TornOne(exports[i], buf, c))
              && (buf != [] ==> !AlwaysOwn(before, i, exports[i].saved.value))
  {
    if Rebuildable(before[i]) && before[i].saved.Some? && buf != [] {
      assert DownFrom(before[i], exports[i]);
      OwnBytesExactlyWhen(before, exports, buf, contents, i);
    }
  }

  /** The first n runs have left the bytes of every export that was up at first and not refused in them. */
  ghost predicate KeptSoFar(first: seq<Export>, exports: seq<Export>, view: View, blocks: Blocks, buf: seq<byte>,
                            contents: seq<seq<byte>>, refused: nat -> Refusals, n: nat) {
    && |exports| == |first| == |contents|
    && forall i | 0 <= i < |first| && Active(first[i]) && NeverRefused(refused, n, i) ::
         HasBytes(exports[i], view, blocks, buf, contents[i])
  }

  lemma {:induction false} KeptAtFirst(exports: seq<Export>, view: View, blocks: Blocks, contents: seq<seq<byte>>,
                                       refused: nat -> Refusals)
    requires view.Valid(blocks) && Settled(exports, view) && contents == ContentsOf(exports, view, blocks)
    ensures KeptSoFar(exports, exports, view, blocks, [], contents, refused, 0)
  {
    forall i | 0 <= i < |exports| && Active(exports[i])
      ensures UpOne(exports[i], view, blocks, contents[i])
    {
      assert IsUpRecord(exports[i], view);
    }
  }

  lemma {:induction false} KeptLess(first: seq<Export>, exports: seq<Export>, view: View, blocks: Blocks,
                                    buf: seq<byte>, contents: seq<seq<byte>>, refused: nat -> Refusals, k: nat, n: nat)
    requires KeptSoFar(first, exports, view, blocks, buf, contents, refused, k) && k <= n
    ensures KeptSoFar(first, exports, view, blocks, buf, contents, refused, n)
  {
    forall i | 0 <= i < |first| && Active(first[i]) && NeverRefused(refused, n, i)
      ensures HasBytes(exports[i], view, blocks, buf, contents[i])
    {
      assert NeverRefused(refused, k, i);
    }
  }

  lemma {:induction false} KeptNext(first: seq<Export>, before: seq<Export>, was: View, old_: Blocks,
                                    exports: seq<Export>, view: View, blocks: Blocks, buf: seq<byte>,
                                    contents: seq<seq<byte>>, refused: nat -> Refusals, k: nat)
    requires KeptSoFar(first, before, was, old_, [], contents, refused, k) && |exports| == |before|
    requires forall i | 0 <= i < |exports| && Active(before[i]) && !refused(k)(i) ::
               HasBytes(exports[i], view, blocks, buf, ContentsOf(before, was, old_)[i])
    ensures KeptSoFar(first, exports, view, blocks, buf, contents, refused, k + 1)
  {
    forall i | 0 <= i < |first| && Active(first[i]) && NeverRefused(refused, k + 1, i)
      ensures HasBytes(exports[i], view, blocks, buf, contents[i])
    {
      assert NeverRefused(refused, k, i);
      assert UpOne(before[i], was, old_, contents[i]);
      assert ContentsOf(before, was, old_)[i] == contents[i];
    }
  }

  lemma {:induction false} NoneUp(exports: seq<Export>, view: View, n: nat)
    requires AllDownRecords(exports, view) && n <= |exports|
    ensures DataSize(exports, n) == 0
  {
    if n > 0 {
      NoneUp(exports, view, n - 1);
    }
  }
}

/** The export phase of cr_ipc_signal_handler (src/vGPU.cpp): rebuild the exports, then publish their
    descriptors in shared memory (ipc_write_export_info_to_shm, src/ipc_hooks.cpp). */
module IpcExport {
  import opened Wrappers
  import opened Layout
  import opened Fabric
  import opened ExportLayout
  import opened IpcProcess
  import opened Exchange
  import AccessLog

  /** The entry of one record. */
  function EntryOf(pid: nat, e: Export): Entry
    requires e.fd.Some?
  {
    Entry(pid, e.fd.value, e.alloc.va, e.alloc.size, true)
  }

  /** The entries of the first n records: those without a descriptor are left out. */
  function Entries(pid: nat, exports: seq<Export>, n: nat): Block
    requires n <= |exports|
  {
    if n == 0 then [] else
      Entries(pid, exports, n - 1) + (if exports[n - 1].fd.Some? then [EntryOf(pid, exports[n - 1])] else [])
  }

  /** ipc_write_export_info_to_shm: only the first 64 records are looked at. */
  method Publish(pid: nat, exports: seq<Export>) returns (block: Block)
    ensures block == Entries(pid, exports, Min(|exports|, MAX_EXPORTS))
  {
    block := [];
    for i := 0 to Min(|exports|, MAX_EXPORTS)
      invariant block == Entries(pid, exports, i)
    {
      if exports[i].fd.Some? {
        block := block + [EntryOf(pid, exports[i])];
      }
    }
  }

  /** Record and entry numbers agree exactly as long as every record has a descriptor. */
  lemma {:induction false} EntriesInOrder(pid: nat, exports: seq<Export>, n: nat)
    requires n <= |exports|
    ensures |Entries(pid, exports, n)| <= n
    ensures |Entries(pid, exports, n)| == n <==> forall i | 0 <= i < n :: exports[i].fd.Some?
    ensures |Entries(pid, exports, n)| == n ==>
              forall i | 0 <= i < n :: Entries(pid, exports, n)[i] == EntryOf(pid, exports[i])
  {
    if n > 0 {
      EntriesInOrder(pid, exports, n - 1);
    }
  }

  /** Every export is up, with its bytes, the logged rights and a descriptor. */
  ghost predicate IsServing(s: Snapshot, blocks: Blocks, contents: seq<seq<byte>>) {
    && s.view.Valid(blocks)
    && Up(s.exports, s.view, blocks, contents)
    && AllShared(s.exports, s.view)
    && RightsOfLog(s.exports, s.view, s.log)
    && DistinctVas(s.exports, s.imports)
  }

  ghost predicate Serving(p: Process, contents: seq<seq<byte>>)
    reads p, p.machine
  {
    IsServing(p.Now(), p.machine.blocks, contents)
  }

  /** Nothing has been imported yet. */
  ghost predicate ReadyToImport(p: Process, contents: seq<seq<byte>>)
    reads p, p.machine
  {
    Serving(p, contents) && AllDown(p.imports, p.view)
  }

  ghost predicate AllShared(exports: seq<Export>, view: View) {
    forall i | 0 <= i < |exports| :: Shared(exports[i], view)
  }

  ghost predicate RightsOfLog(exports: seq<Export>, view: View, log: map<nat, seq<AccessLog.Desc>>) {
    forall i | 0 <= i < |exports| ::
      && exports[i].alloc.prop.Some? && exports[i].alloc.va in view.mapped
      && Regranted(log, exports[i].alloc, view.mapped[exports[i].alloc.va].rights)
  }

  ghost predicate AllDown(imports: seq<Import>, view: View) {
    forall i | 0 <= i < |imports| :: imports[i].tornDown && imports[i].va !in view.mapped
  }

  lemma {:induction false} TornIsFree(exports: seq<Export>, imports: seq<Import>, view: View, buf: seq<byte>,
                                      contents: seq<seq<byte>>)
    requires Torn(exports, buf, contents) && DistinctVas(exports, imports)
    requires forall i | 0 <= i < |exports| :: exports[i].alloc.va !in view.mapped
    ensures AllFree(exports, view, Nobody()) && (exports != [] ==> buf != [])
  {
    forall i | 0 <= i < |exports|
      ensures Rebuildable(exports[i]) && exports[i].saved.Some?
    {
      assert TornOne(exports[i], buf, contents[i]);
    }
    if exports != [] {
      assert TornOne(exports[0], buf, contents[0]);
    }
  }

  lemma {:induction false} BackAgain(before: seq<Export>, exports: seq<Export>, view: View, blocks: Blocks, was: View,
                                     buf: seq<byte>, contents: seq<seq<byte>>, log: map<nat, seq<AccessLog.Desc>>)
    requires Torn(before, buf, contents) && AllFree(before, was, Nobody())
    requires AllBackable(before, exports, view, blocks, was, buf, log, Nobody())
    ensures Up(exports, view, blocks, contents) && AllShared(exports, view) && RightsOfLog(exports, view, log)
  {
    forall i | 0 <= i < |exports|
      ensures UpOne(exports[i], view, blocks, contents[i]) && Shared(exports[i], view)
      ensures exports[i].alloc.prop.Some? && Regranted(log, exports[i].alloc, view.mapped[exports[i].alloc.va].rights)
    {
      FreeIsBackable(before, was, Nobody());
      assert TornOne(before[i], buf, contents[i]) && RestoredOne(before[i], exports[i], view, blocks, buf, log);
      BackOneAgain(before[i], exports[i], view, blocks, buf, contents[i], log);
    }
  }

  lemma {:induction false} BackOneAgain(before: Export, after: Export, view: View, blocks: Blocks, buf: seq<byte>,
                                        c: seq<byte>, log: map<nat, seq<AccessLog.Desc>>)
    requires TornOne(before, buf, c) && RestoredOne(before, after, view, blocks, buf, log)
    ensures UpOne(after, view, blocks, c)
  {
  }

  lemma {:induction false} StillDown(imports: seq<Import>, before: seq<Export>, exports: seq<Export>, was: View,
                                     view: View)
    requires AllDown(imports, was) && DistinctVas(exports, imports) && OnlyRebuilt(before, exports, view, was, Nobody())
    ensures AllDown(imports, view)
  {
  }

  /** IPC_EXPORT_MSG: after a teardown of everything the exports come back, each on a block of its own
      that did not exist before, and every one of the first 64 is published under its number. */
  method ExportPhase(p: Process, ghost contents: seq<seq<byte>>) returns (block: Block)
    requires p.machine.obliging && p.AllTorn(contents)
    modifies p`exports, p`view, p`alias, p`created, p`handleToVa, p`exportBuf, p.machine
    ensures ReadyToImport(p, contents) && Grown(old(p.machine.blocks), p.machine.blocks)
    ensures SameAllocs(p.exports, old(p.exports))
    ensures OwnBlocks(p.exports, p.view, old(p.machine.blocks))
    ensures Orphaned(old(p.exports), old(p.view)) ==> Owned(p.exports, p.view, p.alias)
    ensures Keyed(old(p.view), old(p.created), old(p.handleToVa)) ==> Keyed(p.view, p.created, p.handleToVa)
    ensures Published(block, p.pid, p.exports) && p.exportBuf == []
  {
    TornIsFree(p.exports, p.imports, p.view, p.exportBuf, contents);
    if p.exportBuf != [] {
      Rebuild(p, contents);
    }
    block := Publish(p.pid, p.exports);
    EntriesInOrder(p.pid, p.exports, Min(|p.exports|, MAX_EXPORTS));
  }

  method Rebuild(p: Process, ghost contents: seq<seq<byte>>)
    requires p.machine.obliging && p.AllTorn(contents) && AllFree(p.exports, p.view, Nobody())
    modifies p`exports, p`view, p`alias, p`created, p`handleToVa, p`exportBuf, p.machine
    ensures ReadyToImport(p, contents) && Grown(old(p.machine.blocks), p.machine.blocks)
    ensures SameAllocs(p.exports, old(p.exports))
    ensures OwnBlocks(p.exports, p.view, old(p.machine.blocks))
    ensures Orphaned(old(p.exports), old(p.view)) ==> Owned(p.exports, p.view, p.alias)
    ensures Keyed(old(p.view), old(p.created), old(p.handleToVa)) ==> Keyed(p.view, p.created, p.handleToVa)
    ensures p.exportBuf == []
  {
    RebuildAll(p, contents);
    p.exportBuf := [];
    NowServing(p.Now(), p.machine.blocks, contents);
  }

  lemma {:induction false} NowServing(s: Snapshot, blocks: Blocks, contents: seq<seq<byte>>)
    requires s.view.Valid(blocks) && Up(s.exports, s.view, blocks, contents) && AllShared(s.exports, s.view)
    requires RightsOfLog(s.exports, s.view, s.log) && DistinctVas(s.exports, s.imports)
    ensures IsServing(s, blocks, contents)
  {
  }

  lemma {:induction false} SameVas(before: seq<Export>, exports: seq<Export>, imports: seq<Import>)
    requires SameAllocs(exports, before) && DistinctVas(before, imports)
    ensures DistinctVas(exports, imports)
  {
  }

  method RebuildAll(p: Process, ghost contents: seq<seq<byte>>)
    requires p.machine.obliging && p.view.Valid(p.machine.blocks) && AllFree(p.exports, p.view, Nobody())
             && Torn(p.exports, p.exportBuf, contents)
    requires AllDown(p.imports, p.view) && DistinctVas(p.exports, p.imports)
    modifies p`exports, p`view, p`alias, p`created, p`handleToVa, p.machine
    ensures p.view.Valid(p.machine.blocks) && Grown(old(p.machine.blocks), p.machine.blocks)
    ensures SameAllocs(p.exports, old(p.exports)) && AllDown(p.imports, p.view) && DistinctVas(p.exports, p.imports)
    ensures Up(p.exports, p.view, p.machine.blocks, contents) && AllShared(p.exports, p.view)
            && RightsOfLog(p.exports, p.view, p.log)
    ensures OwnBlocks(p.exports, p.view, old(p.machine.blocks))
    ensures Orphaned(old(p.exports), old(p.view)) ==> Owned(p.exports, p.view, p.alias)
    ensures Keyed(old(p.view), old(p.created), old(p.handleToVa)) ==> Keyed(p.view, p.created, p.handleToVa)
  {
    var _ := p.RebuildAndRestore(Nobody());
    BackAgain(old(p.exports), p.exports, p.view, p.machine.blocks, old(p.view), p.exportBuf, contents, p.log);
    SameVas(old(p.exports), p.exports, p.imports);
    StillDown(p.imports, old(p.exports), p.exports, old(p.view), p.view);
  }

  ghost predicate Published(block: Block, pid: nat, exports: seq<Export>) {
    && |block| == Min(|exports|, MAX_EXPORTS)
    && forall i | 0 <= i < |block| ::
         && exports[i].fd.Some?
         && block[i] == Entry(pid, exports[i].fd.value, exports[i].alloc.va, exports[i].alloc.size, true)
  }
}

/** Runs of hooked calls (src/ipc_hooks.cpp): what the index tables and the import records are good for,
    whatever the application calls and in whatever order. */
module HookRuns {
  import opened Wrappers
  import opened Layout
  import opened Fabric
  import opened ExportLayout
  import opened IpcProcess
  import opened IpcHooks
  import AccessLog

  /** One hooked call, or a descriptor that arrives from another process. */
  datatype Call =
    | Receive(fd: nat, block: nat)
    | Create(size: nat, device: nat, shareable: bool)
    | Export(handle: nat)
    | Import(fd: nat)
    | Map(va: nat, size: nat, handle: nat)
    | SetAccess(va: nat, descs: seq<AccessLog.Desc>)
    | Unmap(va: nat)
    | Release(handle: nat)

  /** A live import record is the one its address leads to, its memory is mapped whole, and its descriptors give the
      rights of the mapping. */
  ghost predicate LiveOne(i: nat, imports: seq<IpcProcess.Import>, view: View, index: map<nat, nat>)
    requires i < |imports|
  {
    var r := imports[i];
    && ImportUp(r, view) && r.va in index && index[r.va] == i
    && view.mapped[r.va].rights == AccessLog.SetAccess(map[], r.access)
  }

  ghost predicate LiveImports(imports: seq<IpcProcess.Import>, view: View, index: map<nat, nat>) {
    && (forall i | 0 <= i < |imports| && !imports[i].tornDown :: LiveOne(i, imports, view, index))
    && (forall va | va in index :: index[va] < |imports| && imports[index[va]].va == va)
  }

  /** An address leads to an export record that has it. */
  ghost predicate ExportsIndexed(exports: seq<ExportLayout.Export>, index: map<nat, nat>) {
    forall va | va in index ::
      index[va] < |exports| && exports[index[va]].alloc.mapped && exports[index[va]].alloc.va == va
  }

  ghost predicate Good(p: Process)
    reads p, p.machine
  {
    && Tables(p) && Logs(p) && LiveImports(p.imports, p.view, p.vaToImport)
    && ExportsIndexed(p.exports, p.vaToExport) && p.importedHandles <= p.view.issued
  }

  // ----- each call -----

  lemma {:induction false} MapImports(imports: seq<IpcProcess.Import>, view: View, index: map<nat, nat>, va: nat,
                                      size: nat, h: nat)
    requires LiveImports(imports, view, index) && h in view.handles && va !in view.mapped
    ensures LiveImports(imports, view.Map(va, h, size), index)
    ensures LiveImports(imports + [IpcProcess.Import(va, size, h, [], false)], view.Map(va, h, size),
                        index[va := |imports|])
  {
    var more := imports + [IpcProcess.Import(va, size, h, [], false)];
    forall i | 0 <= i < |imports| && !imports[i].tornDown
      ensures LiveOne(i, imports, view.Map(va, h, size), index)
      ensures LiveOne(i, more, view.Map(va, h, size), index[va := |imports|])
    {
      assert LiveOne(i, imports, view, index);
    }
  }

  lemma {:induction false} MapExports(exports: seq<ExportLayout.Export>, before: seq<ExportLayout.Export>,
                                      index: map<nat, nat>, index0: map<nat, nat>, va: nat, size: nat, h: nat)
    requires ExportsIndexed(before, index0) && |exports| == |before| && NowAttached(index, index0, before, h, va)
    requires forall i | 0 <= i < |before| ::
               if Waiting(before[i], h)
               then exports[i] == before[i].(alloc := before[i].alloc.(va := va, size := size, mapped := true))
               else exports[i] == before[i]
    ensures ExportsIndexed(exports, index)
  {
  }

  lemma {:induction false} AccessImports(imports: seq<IpcProcess.Import>, before: seq<IpcProcess.Import>, view: View,
                                         index: map<nat, nat>, va: nat, descs: seq<AccessLog.Desc>)
    requires LiveImports(before, view, index) && va in view.mapped && |imports| == |before|
    requires forall i | 0 <= i < |before| ::
               if va in index && index[va] == i
               then imports[i] == before[i].(access := imports[i].access)
                    && AccessLog.SetAccess(map[], imports[i].access)
                       == AccessLog.SetAccess(AccessLog.SetAccess(map[], before[i].access), descs)
               else imports[i] == before[i]
    ensures LiveImports(imports, view.Grant(va, AccessLog.SetAccess(view.mapped[va].rights, descs)), index)
  {
    forall i | 0 <= i < |imports| && !imports[i].tornDown
      ensures LiveOne(i, imports, view.Grant(va, AccessLog.SetAccess(view.mapped[va].rights, descs)), index)
    {
      assert LiveOne(i, before, view, index);
    }
  }

  lemma {:induction false} UnmapImports(imports: seq<IpcProcess.Import>, before: seq<IpcProcess.Import>, view: View,
                                        index: map<nat, nat>, va: nat)
    requires LiveImports(before, view, index) && |imports| == |before|
    requires forall i | 0 <= i < |before| ::
               imports[i] == if va in index && index[va] == i then before[i].(tornDown := true) else before[i]
    ensures LiveImports(imports, view.Unmap(va), index)
  {
    forall i | 0 <= i < |imports| && !imports[i].tornDown
      ensures LiveOne(i, imports, view.Unmap(va), index)
    {
      assert LiveOne(i, before, view, index);
    }
  }

  lemma {:induction false} ReleaseImports(now: Snapshot, was: Snapshot, hs: set<nat>, h: nat, index: map<nat, nat>)
    requires LiveImports(was.imports, was.view, index) && Erased(now, was, hs) && now.view == was.view.Release(h)
    ensures LiveImports(now.imports, now.view, index)
  {
    forall i | 0 <= i < |now.imports| && !now.imports[i].tornDown
      ensures LiveOne(i, now.imports, now.view, index)
    {
      assert LiveOne(i, was.imports, was.view, index);
    }
  }

  method DoMap(p: Process, va: nat, size: nat, h: nat)
    requires Good(p) && h in p.view.handles && va !in p.view.mapped && size <= |p.machine.blocks[p.view.handles[h]]|
    modifies p`view, p`imports, p`exports, p`handleToVa, p`vaToImport, p`vaToExport
    ensures Good(p) && p.view == old(p.view).Map(va, h, size)
    ensures h in p.importedHandles ==> p.imports == old(p.imports) + [IpcProcess.Import(va, size, h, [], false)]
    ensures h !in p.importedHandles ==> p.imports == old(p.imports)
    ensures |p.exports| == |old(p.exports)| && (h in p.created ==> h in p.handleToVa && p.handleToVa[h] == va)
  {
    MapImports(p.imports, p.view, p.vaToImport, va, size, h);
    ghost var before, index0 := p.exports, p.vaToExport;
    HookMap(p, va, size, h);
    if h in p.created {
      MapExports(p.exports, before, p.vaToExport, index0, va, size, h);
    }
  }

  method DoSetAccess(p: Process, va: nat, descs: seq<AccessLog.Desc>)
    requires Good(p) && va in p.view.mapped && descs != []
    modifies p`view, p`log, p`imports, p`exports
    ensures Good(p) && GrantedOnce(p.Now(), old(p.Now()), va, descs)
  {
    ghost var before, view := p.imports, p.view;
    HookSetAccess(p, va, descs);
    AccessImports(p.imports, before, view, p.vaToImport, va, descs);
  }

  method DoRelease(p: Process, h: nat)
    requires Good(p)
    modifies p`view, p`created, p`handleToVa, p`importedHandles, p`vaToExport, p`log, p`imports, p`exports, p`alias
    ensures Good(p)
  {
    ghost var was := p.Now();
    var ok := HookRelease(p, h);
    if ok {
      ReleaseImports(p.Now(), was, {h, Resolve(was.alias, h)}, Resolve(was.alias, h), p.vaToImport);
    }
  }

  method DoUnmap(p: Process, va: nat)
    requires Good(p) && va in p.view.mapped
    modifies p`view, p`imports
    ensures Good(p)
  {
    ghost var before, view := p.imports, p.view;
    HookUnmap(p, va);
    UnmapImports(p.imports, before, view, p.vaToImport, va);
  }

  method DoExport(p: Process, h: nat) returns (fd: nat)
    requires Good(p) && h in p.view.handles
    modifies p`view, p`exports, p`vaToExport
    ensures Good(p) && p.view == old(p.view).Open(fd, old(p.view).handles[h]) && |p.exports| == |old(p.exports)| + 1
    ensures var e := p.exports[|old(p.exports)|];
            h in p.handleToVa && h in p.created ==>
              && !e.tornDown && e.alloc.mapped && e.alloc.va == p.handleToVa[h]
              && e.alloc.size == p.created[h].size && e.alloc.prop == Some(p.created[h].device)
  {
    fd := HookExport(p, h);
  }

  /** One call; one the driver cannot carry out changes nothing. */
  method Do(p: Process, c: Call)
    requires Good(p)
    modifies p, p.machine
    ensures Good(p)
  {
    match c {
      case Receive(fd, b) =>
        if fd !in p.view.fds && b in p.machine.blocks {
          p.view := p.view.Open(fd, b);
        }
      case Create(size, device, shareable) =>
        var _ := HookCreate(p, size, device, shareable);
      case Export(h) =>
        if h in p.view.handles {
          var _ := DoExport(p, h);
        }
      case Import(fd) =>
        if fd in p.view.fds {
          var _ := HookImport(p, fd);
        }
      case Map(va, size, h) =>
        if h in p.view.handles && va !in p.view.mapped && size <= |p.machine.blocks[p.view.handles[h]]| {
          DoMap(p, va, size, h);
        }
      case SetAccess(va, descs) =>
        if va in p.view.mapped && descs != [] {
          DoSetAccess(p, va, descs);
        }
      case Unmap(va) =>
        if va in p.view.mapped {
          DoUnmap(p, va);
        }
      case Release(h) =>
        DoRelease(p, h);
    }
  }

  /** Whatever a new process calls, in whatever order: every live import record is the one its address leads to, is
      mapped whole, and holds the rights of its mapping. */
  method Run(machine: Machine, calls: seq<Call>) returns (p: Process)
    modifies machine
    ensures fresh(p) && p.machine == machine && Good(p)
  {
    p := new Process(machine, 1);
    for k := 0 to |calls|
      invariant fresh(p) && p.machine == machine && Good(p)
    {
      Do(p, calls[k]);
    }
  }

  /** So a process whose imports are all live is in the state `Lifetime` starts from: they are up, at different
      addresses, and indexed. */
  lemma {:induction false} LiveAreApart(imports: seq<IpcProcess.Import>, view: View, index: map<nat, nat>)
    requires LiveImports(imports, view, index) && forall i | 0 <= i < |imports| :: !imports[i].tornDown
    ensures forall i | 0 <= i < |imports| :: ImportUp(imports[i], view)
    ensures forall i, j | 0 <= i < j < |imports| :: imports[i].va != imports[j].va
    ensures forall i | 0 <= i < |imports| :: imports[i].va in index && index[imports[i].va] == i
  {
    forall i | 0 <= i < |imports|
      ensures LiveOne(i, imports, view, index)
    {
    }
  }

  // ----- the rights of one address -----

  /** What one call that grants access does. */
  ghost predicate GrantedOnce(now: Snapshot, was: Snapshot, va: nat, descs: seq<AccessLog.Desc>) {
    && va in was.view.mapped
    && now.view == was.view.Grant(va, AccessLog.SetAccess(was.view.mapped[va].rights, descs))
    && OnlyAccess(now.imports, was.imports) && OnlySeen(now.exports, was.exports)
    && va in now.log && now.log[va] != []
    && LogRights(now.log, va) == AccessLog.SetAccess(LogRights(was.log, va), descs)
  }

  /** What any number of them do. */
  ghost predicate GrantedAll(now: Snapshot, was: Snapshot, va: nat, calls: seq<seq<AccessLog.Desc>>) {
    && va in was.view.mapped && va in now.view.mapped
    && now.view.mapped[va] == Window(was.view.mapped[va].block, was.view.mapped[va].size,
                                     AccessLog.SetAccessCalls(was.view.mapped[va].rights, calls))
    && now.view.fds == was.view.fds && now.view.handles == was.view.handles
    && OnlyAccess(now.imports, was.imports) && OnlySeen(now.exports, was.exports)
    && LogRights(now.log, va) == AccessLog.SetAccessCalls(LogRights(was.log, va), calls)
    && (calls != [] ==> va in now.log && now.log[va] != [])
  }

  lemma {:induction false} GrantedNext(now: Snapshot, mid: Snapshot, was: Snapshot, va: nat,
                                       calls: seq<seq<AccessLog.Desc>>, k: nat)
    requires k < |calls| && GrantedAll(mid, was, va, calls[..k]) && GrantedOnce(now, mid, va, calls[k])
    ensures GrantedAll(now, was, va, calls[..k + 1])
  {
    assert calls[..k + 1][..k] == calls[..k];
  }

  /** Any calls that grant access to one mapping. */
  method GrantAll(p: Process, va: nat, calls: seq<seq<AccessLog.Desc>>)
    requires Good(p) && va in p.view.mapped && forall k | 0 <= k < |calls| :: calls[k] != []
    modifies p`view, p`log, p`imports, p`exports
    ensures Good(p) && GrantedAll(p.Now(), old(p.Now()), va, calls)
  {
    ghost var was := p.Now();
    assert calls[..0] == [];
    for k := 0 to |calls|
      invariant Good(p) && GrantedAll(p.Now(), was, va, calls[..k])
    {
      ghost var mid := p.Now();
      DoSetAccess(p, va, calls[k]);
      GrantedNext(p.Now(), mid, was, va, calls, k);
    }
    assert calls[..|calls|] == calls;
  }

  /** Nothing of the import records has changed but the descriptors. */
  ghost predicate OnlyAccess(imports: seq<IpcProcess.Import>, before: seq<IpcProcess.Import>) {
    && |imports| == |before|
    && forall i | 0 <= i < |imports| :: imports[i] == before[i].(access := imports[i].access)
  }

  /** Nothing of the export records has changed but the descriptor they saw last. */
  ghost predicate OnlySeen(exports: seq<ExportLayout.Export>, before: seq<ExportLayout.Export>) {
    && |exports| == |before|
    && forall i | 0 <= i < |exports| ::
         exports[i] == before[i].(alloc := before[i].alloc.(seen := exports[i].alloc.seen))
  }

  /** The rights the log of an address gives from scratch. */
  ghost function LogRights(log: map<nat, seq<AccessLog.Desc>>, va: nat): AccessLog.Rights {
    if va in log then AccessLog.SetAccess(map[], log[va]) else map[]
  }

  /** Import record m is live at va, on the block, with these rights, and holds them. */
  ghost predicate ImportHolds(s: Snapshot, m: nat, va: nat, size: nat, block: nat, rights: AccessLog.Rights) {
    && m < |s.imports| && s.imports[m].va == va && s.imports[m].size == size && ImportUp(s.imports[m], s.view)
    && s.view.mapped[va].block == block && s.view.mapped[va].rights == rights
    && AccessLog.SetAccess(map[], s.imports[m].access) == rights
  }

  /** Export record i is up at va, on the block its descriptor leads to, with these rights, and the log of the address
      holds them. */
  ghost predicate ExportHolds(s: Snapshot, i: nat, va: nat, size: nat, device: nat, fd: nat, rights: AccessLog.Rights) {
    && i < |s.exports| && Active(s.exports[i]) && s.exports[i].alloc.va == va && s.exports[i].alloc.size == size
    && s.exports[i].alloc.prop == Some(device)
    && va in s.view.mapped && fd in s.view.fds && s.view.mapped[va] == Window(s.view.fds[fd], size, rights)
    && va in s.log && s.log[va] != [] && AccessLog.SetAccess(map[], s.log[va]) == rights
  }

  /** Importing, mapping and granting: the new import record holds exactly the rights the calls gave. */
  method ImportAndGrant(p: Process, fd: nat, va: nat, size: nat, calls: seq<seq<AccessLog.Desc>>)
    requires Good(p) && fd in p.view.fds && va !in p.view.mapped && size <= |p.machine.blocks[p.view.fds[fd]]|
    requires forall k | 0 <= k < |calls| :: calls[k] != []
    modifies p`view, p`imports, p`exports, p`handleToVa, p`vaToImport, p`vaToExport, p`importedHandles, p`log
    ensures Good(p) && |p.imports| == |old(p.imports)| + 1 && |p.exports| == |old(p.exports)|
    ensures ImportHolds(p.Now(), |old(p.imports)|, va, size, old(p.view).fds[fd],
            AccessLog.SetAccessCalls(map[], calls))
  {
    var h := HookImport(p, fd);
    DoMap(p, va, size, h);
    GrantAll(p, va, calls);
    assert LiveOne(|old(p.imports)|, p.imports, p.view, p.vaToImport);
  }

  /** Creating, mapping, exporting and granting at an address without a log: the log holds exactly the rights the
      calls gave. */
  method ExportAndGrant(p: Process, va: nat, size: nat, device: nat, calls: seq<seq<AccessLog.Desc>>) returns (fd: nat)
    requires Good(p) && va !in p.view.mapped && va !in p.log && size > 0
    requires calls != [] && forall k | 0 <= k < |calls| :: calls[k] != []
    modifies p, p.machine
    ensures Good(p) && |p.exports| == |old(p.exports)| + 1 && |p.imports| == |old(p.imports)|
    ensures Grown(old(p.machine.blocks), p.machine.blocks)
    ensures ExportHolds(p.Now(), |old(p.exports)|, va, size, device, fd, AccessLog.SetAccessCalls(map[], calls))
  {
    fd := MakeExport(p, va, size, device);
    GrantAll(p, va, calls);
  }

  method MakeExport(p: Process, va: nat, size: nat, device: nat) returns (fd: nat)
    requires Good(p) && va !in p.view.mapped && size > 0
    modifies p, p.machine
    ensures Good(p) && |p.exports| == |old(p.exports)| + 1 && fd in p.view.fds && p.log == old(p.log)
    ensures p.imports == old(p.imports) && Grown(old(p.machine.blocks), p.machine.blocks)
    ensures va in p.view.mapped && p.view.mapped[va] == Window(p.view.fds[fd], size, map[])
    ensures var e := p.exports[|old(p.exports)|];
            Active(e) && e.alloc.va == va && e.alloc.size == size && e.alloc.prop == Some(device)
  {
    var h := CreateAndMap(p, va, size, device);
    fd := DoExport(p, h);
  }

  method CreateAndMap(p: Process, va: nat, size: nat, device: nat) returns (h: nat)
    requires Good(p) && va !in p.view.mapped
    modifies p, p.machine
    ensures Good(p) && |p.exports| == |old(p.exports)| && p.imports == old(p.imports) && p.log == old(p.log)
    ensures h in p.view.handles && va in p.view.mapped
            && p.view.mapped[va] == Window(p.view.handles[h], size, map[])
    ensures h in p.created && p.created[h] == Created(size, device) && h in p.handleToVa && p.handleToVa[h] == va
    ensures Grown(old(p.machine.blocks), p.machine.blocks)
  {
    h := HookCreate(p, size, device, true);
    DoMap(p, va, size, h);
  }
}

/** The hooked allocation calls (src/ipc_hooks.cpp, hook_cuMemCreate to hook_cuMemRelease), what the
    tables they keep are good for, and where an application's handle leads after a rebuild. */
module IpcHooks {
  import opened Wrappers
  import opened Layout
  import opened Fabric
  import opened ExportLayout
  import opened IpcProcess
  import opened IpcExport
  import AccessLog

  /** Every mapped export record has saved properties, so it can be rebuilt; and a record without
      properties stays without a mapping, because its handle is not and will not be registered. */
  ghost predicate TablesOk(view: View, exports: seq<Export>, created: map<nat, Created>, handleToVa: map<nat, nat>) {
    && Keyed(view, created, handleToVa)
    && forall i | 0 <= i < |exports| :: PropsOk(exports[i], view.issued, created)
  }

  ghost predicate PropsOk(e: Export, issued: set<nat>, created: map<nat, Created>) {
    && (e.alloc.mapped ==> e.alloc.prop.Some?)
    && (e.alloc.prop.None? ==> e.handle in issued && e.handle !in created)
  }

  ghost predicate Tables(p: Process)
    reads p, p.machine
  {
    p.view.Valid(p.machine.blocks) && TablesOk(p.view, p.exports, p.created, p.handleToVa)
  }

  /** hook_cuMemCreate; only shareable allocations are registered. */
  method HookCreate(p: Process, size: nat, device: nat, shareable: bool) returns (h: nat)
    requires Tables(p)
    modifies p`view, p`created, p.machine
    ensures Tables(p) && h !in old(p.view).issued && h in p.view.handles
            && p.view == old(p.view).Create(h, p.view.handles[h])
    ensures p.view.handles[h] !in old(p.machine.blocks) && p.view.handles[h] in p.machine.blocks
            && |p.machine.blocks[p.view.handles[h]]| == size
    ensures Grown(old(p.machine.blocks), p.machine.blocks)
    ensures p.created == if shareable then old(p.created)[h := Created(size, device)] else old(p.created)
  {
    h := p.machine.NewHandle(p.view);
    var b := p.machine.NewBlock(size);
    p.view := p.view.Create(h, b);
    if shareable {
      p.created := p.created[h := Created(size, device)];
    }
  }

  /** hook_cuMemExportToShareableHandle: a record for every call. */
  method HookExport(p: Process, h: nat) returns (fd: nat)
    requires Tables(p) && h in p.view.handles
    modifies p`view, p`exports, p`vaToExport
    ensures Tables(p) && fd !in old(p.view).fds && p.view == old(p.view).Open(fd, old(p.view).handles[h])
    ensures |p.exports| == |old(p.exports)| + 1 && p.exports[..|old(p.exports)|] == old(p.exports)
    ensures var e := p.exports[|old(p.exports)|];
            && e.handle == h && e.alloc.app == h && e.fd == Some(fd) && !e.tornDown
            && (e.alloc.mapped <==> h in p.handleToVa) && (e.alloc.mapped ==> e.alloc.va == p.handleToVa[h])
            && (h in p.created ==> e.alloc.prop == Some(p.created[h].device) && e.alloc.size == p.created[h].size)
            && (h !in p.created ==> e.alloc.prop == None) && e.alloc.seen == None && e.saved == None
    ensures p.vaToExport == if h in p.handleToVa then old(p.vaToExport)[p.handleToVa[h] := |old(p.exports)|]
                            else old(p.vaToExport)
  {
    fd := p.machine.NewFd(p.view);
    var known, mapped := h in p.created, h in p.handleToVa;
    var a := Alloc(h, if mapped then p.handleToVa[h] else 0, if known then p.created[h].size else 0, mapped,
                   if known then Some(p.created[h].device) else None, None);
    p.view := p.view.Open(fd, p.view.handles[h]);
    if mapped {
      p.vaToExport := p.vaToExport[a.va := |p.exports|];
    }
    p.exports := p.exports + [ExportLayout.Export(a, h, Some(fd), false, None)];
  }

  /** hook_cuMemImportFromShareableHandle. */
  method HookImport(p: Process, fd: nat) returns (h: nat)
    requires Tables(p) && fd in p.view.fds
    modifies p`view, p`importedHandles
    ensures Tables(p) && h !in old(p.view).issued && p.view == old(p.view).Create(h, old(p.view).fds[fd])
    ensures p.importedHandles == old(p.importedHandles) + {h}
  {
    h := p.machine.NewHandle(p.view);
    p.view := p.view.Create(h, p.view.fds[fd]);
    p.importedHandles := p.importedHandles + {h};
  }

  /** The records of a handle that get their mapping now. */
  function Attached(e: Export, h: nat, va: nat, size: nat): Export {
    if e.handle == h && !e.alloc.mapped then e.(alloc := e.alloc.(va := va, size := size, mapped := true)) else e
  }

  /** hook_cuMemMap. */
  method HookMap(p: Process, va: nat, size: nat, h: nat)
    requires Tables(p) && h in p.view.handles && va !in p.view.mapped && size <= |p.machine.blocks[p.view.handles[h]]|
    modifies p`view, p`imports, p`exports, p`handleToVa, p`vaToImport, p`vaToExport
    ensures Tables(p) && p.view == old(p.view).Map(va, h, size)
    ensures p.handleToVa == if h in p.created then old(p.handleToVa)[h := va] else old(p.handleToVa)
    ensures h in p.importedHandles ==> p.imports == old(p.imports) + [IpcProcess.Import(va, size, h, [], false)]
    ensures h !in p.importedHandles ==> p.imports == old(p.imports)
    ensures p.vaToImport == if h in p.importedHandles then old(p.vaToImport)[va := |old(p.imports)|]
                            else old(p.vaToImport)
    ensures |p.exports| == |old(p.exports)|
    ensures forall i | 0 <= i < |p.exports| ::
              if h in p.created && Waiting(old(p.exports)[i], h)
              then p.exports[i] == old(p.exports)[i].(alloc := old(p.exports)[i].alloc.(va := va, size := size,
                                                                                        mapped := true))
              else p.exports[i] == old(p.exports)[i]
    ensures NowAttached(p.vaToExport, old(p.vaToExport), if h in p.created then old(p.exports) else [], h, va)
  {
    p.view := p.view.Map(va, h, size);
    if h in p.importedHandles {
      p.vaToImport := p.vaToImport[va := |p.imports|];
      p.imports := p.imports + [IpcProcess.Import(va, size, h, [], false)];
    }
    if h in p.created {
      MapCreated(p, va, size, h, old(p.view));
    }
  }

  /** The address of a registered handle, and the export records that waited for it. */
  method MapCreated(p: Process, va: nat, size: nat, h: nat, ghost was: View)
    requires h in p.created && TablesOk(was, p.exports, p.created, p.handleToVa) && p.view.issued == was.issued
    modifies p`exports, p`handleToVa, p`vaToExport
    ensures TablesOk(p.view, p.exports, p.created, p.handleToVa) && p.handleToVa == old(p.handleToVa)[h := va]
    ensures |p.exports| == |old(p.exports)|
    ensures forall i | 0 <= i < |p.exports| ::
              if Waiting(old(p.exports)[i], h)
              then p.exports[i] == old(p.exports)[i].(alloc := old(p.exports)[i].alloc.(va := va, size := size,
                                                                                        mapped := true))
              else p.exports[i] == old(p.exports)[i]
    ensures NowAttached(p.vaToExport, old(p.vaToExport), old(p.exports), h, va)
  {
    p.handleToVa := p.handleToVa[h := va];
    Attach(p, h, va, size);
    StillOk(was, old(p.exports), old(p.created), old(p.handleToVa), h, va, size, p.view, p.exports, p.handleToVa);
  }

  /** A record of handle h that has no mapping yet. */
  ghost predicate Waiting(e: Export, h: nat) {
    e.handle == h && !e.alloc.mapped
  }

  ghost predicate AnyWaiting(before: seq<Export>, h: nat) {
    exists i :: 0 <= i < |before| && Waiting(before[i], h)
  }

  /** The index leads from va to the last record that got the mapping; other addresses keep their entries. */
  ghost predicate NowAttached(index: map<nat, nat>, index0: map<nat, nat>, before: seq<Export>, h: nat, va: nat) {
    if AnyWaiting(before, h)
    then
      && va in index && index == index0[va := index[va]] && index[va] < |before| && Waiting(before[index[va]], h)
      && forall i | index[va] < i < |before| :: !Waiting(before[i], h)
    else index == index0
  }

  method Attach(p: Process, h: nat, va: nat, size: nat)
    modifies p`exports, p`vaToExport
    ensures |p.exports| == |old(p.exports)|
    ensures forall i | 0 <= i < |p.exports| :: p.exports[i] == Attached(old(p.exports)[i], h, va, size)
    ensures NowAttached(p.vaToExport, old(p.vaToExport), old(p.exports), h, va)
  {
    for i := 0 to |p.exports|
      invariant |p.exports| == |old(p.exports)|
      invariant forall k | 0 <= k < |p.exports| ::
                p.exports[k] == if k < i then Attached(old(p.exports)[k], h, va, size) else old(p.exports)[k]
      invariant NowAttached(p.vaToExport, old(p.vaToExport), old(p.exports)[..i], h, va)
    {
      if p.exports[i].handle == h && !p.exports[i].alloc.mapped {
        p.vaToExport := p.vaToExport[va := i];
      }
      p.exports := p.exports[i := Attached(p.exports[i], h, va, size)];
    }
  }

  lemma {:induction false} StillOk(was: View, before: seq<Export>, created: map<nat, Created>, vas: map<nat, nat>,
                                   h: nat, va: nat, size: nat, view: View, exports: seq<Export>,
                                   handleToVa: map<nat, nat>)
    requires TablesOk(was, before, created, vas) && h in created && |exports| == |before|
    requires view.issued == was.issued && handleToVa == vas[h := va]
    requires forall i | 0 <= i < |exports| :: exports[i] == Attached(before[i], h, va, size)
    ensures TablesOk(view, exports, created, handleToVa)
  {
  }

  /** Logs have one descriptor a location. */
  ghost predicate Logs(p: Process)
    reads p
  {
    && (forall va | va in p.log :: AccessLog.OnePerLocation(p.log[va]))
    && (forall i | 0 <= i < |p.imports| :: AccessLog.OnePerLocation(p.imports[i].access))
  }

  function LogOf(log: map<nat, seq<AccessLog.Desc>>, va: nat): seq<AccessLog.Desc> {
    if va in log then log[va] else []
  }

  /** hook_cuMemSetAccess on the whole mapping. A log that replays to the rights of the mapping does so
      afterwards, and so does the record of an import; other addresses and records are left alone. */
  method HookSetAccess(p: Process, va: nat, descs: seq<AccessLog.Desc>)
    requires Tables(p) && Logs(p) && va in p.view.mapped && descs != []
    modifies p`view, p`log, p`imports, p`exports
    ensures Tables(p) && Logs(p)
    ensures p.view == old(p.view).Grant(va, AccessLog.SetAccess(old(p.view).mapped[va].rights, descs))
    ensures va in p.log && p.log[va] != [] && p.log == old(p.log)[va := p.log[va]]
    ensures AccessLog.SetAccess(map[], p.log[va])
            == AccessLog.SetAccess(if va in old(p.log) then AccessLog.SetAccess(map[], old(p.log)[va]) else map[],
              descs)
    ensures |p.imports| == |old(p.imports)| && forall i | 0 <= i < |p.imports| ::
              if va in p.vaToImport && p.vaToImport[va] == i
              then p.imports[i] == old(p.imports)[i].(access := p.imports[i].access)
                   && AccessLog.SetAccess(map[], p.imports[i].access)
                      == AccessLog.SetAccess(AccessLog.SetAccess(map[], old(p.imports)[i].access), descs)
              else p.imports[i] == old(p.imports)[i]
    ensures |p.exports| == |old(p.exports)| && forall i | 0 <= i < |p.exports| ::
              if va in p.vaToExport && p.vaToExport[va] == i
              then p.exports[i] == old(p.exports)[i].(alloc := old(p.exports)[i].alloc.(seen := Some(descs[0])))
              else p.exports[i] == old(p.exports)[i]
  {
    var log := AccessLog.RecordCall(LogOf(p.log, va), descs);
    AccessLog.ReplayIsOneCall(log);
    AccessLog.ReplayIsOneCall(LogOf(p.log, va));
    p.view := p.view.Grant(va, AccessLog.SetAccess(p.view.mapped[va].rights, descs));
    p.log := p.log[va := log];
    RecordImport(p, va, descs);
    RecordExport(p, va, descs[0]);
  }

  method RecordExport(p: Process, va: nat, d: AccessLog.Desc)
    requires TablesOk(p.view, p.exports, p.created, p.handleToVa)
    modifies p`exports
    ensures TablesOk(p.view, p.exports, p.created, p.handleToVa)
    ensures |p.exports| == |old(p.exports)| && forall i | 0 <= i < |p.exports| ::
              p.exports[i] == if va in p.vaToExport
                && p.vaToExport[va] == i then Seen(old(p.exports)[i], d) else old(p.exports)[i]
  {
    if va in p.vaToExport && p.vaToExport[va] < |p.exports| {
      var i := p.vaToExport[va];
      assert PropsOk(p.exports[i], p.view.issued, p.created);
      p.exports := p.exports[i := Seen(p.exports[i], d)];
    }
  }

  method RecordImport(p: Process, va: nat, descs: seq<AccessLog.Desc>)
    requires Logs(p)
    modifies p`imports
    ensures Logs(p)
    ensures |p.imports| == |old(p.imports)| && forall i | 0 <= i < |p.imports| ::
              if va in p.vaToImport && p.vaToImport[va] == i
              then p.imports[i] == old(p.imports)[i].(access := p.imports[i].access)
                   && AccessLog.SetAccess(map[], p.imports[i].access)
                      == AccessLog.SetAccess(AccessLog.SetAccess(map[], old(p.imports)[i].access), descs)
              else p.imports[i] == old(p.imports)[i]
  {
    if va in p.vaToImport && p.vaToImport[va] < |p.imports| {
      var i := p.vaToImport[va];
      var access := AccessLog.RecordCall(p.imports[i].access, descs);
      AccessLog.ReplayIsOneCall(access);
      AccessLog.ReplayIsOneCall(p.imports[i].access);
      p.imports := p.imports[i := p.imports[i].(access := access)];
    }
  }

  function Seen(e: Export, d: AccessLog.Desc): Export {
    e.(alloc := e.alloc.(seen := Some(d)))
  }

  // ----- release -----

  function Disowned(exports: seq<Export>, h: nat): (r: seq<Export>)
    ensures |r| == |exports|
  {
    seq(|exports|, i requires 0 <= i < |exports| => if exports[i].handle
      == h then exports[i].(handle := 0) else exports[i])
  }

  function DisownedImports(imports: seq<IpcProcess.Import>, h: nat): (r: seq<IpcProcess.Import>)
    ensures |r| == |imports|
  {
    seq(|imports|, i requires 0 <= i < |imports| => if imports[i].handle
      == h then imports[i].(handle := 0) else imports[i])
  }

  /** The addresses of the handles in hs. */
  ghost function VasOfHandles(handleToVa: map<nat, nat>, hs: set<nat>): set<nat> {
    set h | h in hs && h in handleToVa :: handleToVa[h]
  }

  /** The handles in hs have left the handle-keyed tables, the records and the logs of their addresses; everything
      else is as it was. */
  ghost predicate Erased(now: Snapshot, was: Snapshot, hs: set<nat>) {
    && now.created == was.created - hs && now.handleToVa == was.handleToVa - hs
    && now.log == was.log - VasOfHandles(was.handleToVa, hs) && now.exportBuf == was.exportBuf
    && |now.exports| == |was.exports| && |now.imports| == |was.imports|
    && (forall i | 0 <= i < |was.exports| ::
          now.exports[i] == if was.exports[i].handle in hs then was.exports[i].(handle := 0) else was.exports[i])
    && (forall i | 0 <= i < |was.imports| ::
          now.imports[i] == if was.imports[i].handle in hs then was.imports[i].(handle := 0) else was.imports[i])
  }

  /** The same with the two tables a snapshot does not have. */
  ghost predicate ErasedAll(now: Snapshot, was: Snapshot, imported: set<nat>, imported0: set<nat>, index: map<nat, nat>,
                            index0: map<nat, nat>, hs: set<nat>) {
    && Erased(now, was, hs) && imported == imported0 - hs && index == index0 - VasOfHandles(was.handleToVa, hs)
  }

  /** The aliases left are those that mention none of the handles in hs. */
  ghost predicate AliasesLeft(alias: map<nat, nat>, alias0: map<nat, nat>, hs: set<nat>) {
    && (forall k | k in alias :: k in alias0 && alias[k] == alias0[k] && k !in hs && alias0[k] !in hs)
    && (forall k | k in alias0 && k !in hs && alias0[k] !in hs :: k in alias)
  }

  /** cleanup_handle: no handle-keyed table and no record mentions it any more. */
  method CleanUp(p: Process, h: nat)
    requires Tables(p)
    modifies p`created, p`handleToVa, p`importedHandles, p`vaToExport, p`log, p`imports, p`exports
    ensures Tables(p)
    ensures ErasedAll(p.Now(), old(p.Now()), p.importedHandles, old(p.importedHandles), p.vaToExport,
                      old(p.vaToExport), {h})
  {
    var vas := if h in p.handleToVa then {p.handleToVa[h]} else {};
    ghost var was := p.Now();
    VaOfOne(p.handleToVa, h);
    p.log, p.vaToExport := p.log - vas, p.vaToExport - vas;
    p.handleToVa := p.handleToVa - {h};
    p.created := p.created - {h};
    p.importedHandles := p.importedHandles - {h};
    p.imports, p.exports := DisownedImports(p.imports, h), Disowned(p.exports, h);
    OkWithout(p.view, old(p.exports), old(p.created), old(p.handleToVa), h);
    ErasedOne(p.Now(), was, h);
  }

  lemma {:induction false} ErasedOne(now: Snapshot, was: Snapshot, h: nat)
    requires now.created == was.created - {h} && now.handleToVa == was.handleToVa - {h}
    requires now.log == was.log - VasOfHandles(was.handleToVa, {h}) && now.exportBuf == was.exportBuf
    requires now.exports == Disowned(was.exports, h) && now.imports == DisownedImports(was.imports, h)
    ensures Erased(now, was, {h})
  {
  }

  lemma {:induction false} VaOfOne(handleToVa: map<nat, nat>, h: nat)
    ensures VasOfHandles(handleToVa, {h}) == if h in handleToVa then {handleToVa[h]} else {}
  {
  }

  /** Erasing two handles, one after the other. */
  lemma {:induction false} ErasedBoth(now: Snapshot, mid: Snapshot, was: Snapshot, h: nat, actual: nat)
    requires Erased(mid, was, {h}) && Erased(now, mid, {actual})
    ensures Erased(now, was, {h, actual})
    ensures VasOfHandles(was.handleToVa, {h, actual})
            == VasOfHandles(was.handleToVa, {h}) + VasOfHandles(mid.handleToVa, {actual})
  {
    var hs := {h, actual};
    assert hs == {h} + {actual};
    VasApart(was.handleToVa, mid.handleToVa, h, actual);
    assert was.created - {h} - {actual} == was.created - hs;
    assert was.handleToVa - {h} - {actual} == was.handleToVa - hs;
    MinusTwice(was.log, VasOfHandles(was.handleToVa, {h}), VasOfHandles(mid.handleToVa, {actual}));
  }

  lemma {:induction false} VasApart(vas: map<nat, nat>, mid: map<nat, nat>, h: nat, actual: nat)
    requires mid == vas - {h}
    ensures VasOfHandles(vas, {h, actual}) == VasOfHandles(vas, {h}) + VasOfHandles(mid, {actual})
  {
  }

  lemma {:induction false} MinusTwice<V>(m: map<nat, V>, a: set<nat>, b: set<nat>)
    ensures m - a - b == m - (a + b)
  {
  }

  lemma {:induction false} OkWithout(view: View, exports: seq<Export>, created: map<nat, Created>,
                                     handleToVa: map<nat, nat>, h: nat)
    requires TablesOk(view, exports, created, handleToVa)
    ensures TablesOk(view, Disowned(exports, h), created - {h}, handleToVa - {h})
  {
  }

  /** Aliases that mention neither handle. */
  function Unaliased(alias: map<nat, nat>, h: nat, actual: nat): map<nat, nat> {
    map k | k in alias && k != h && k != actual && alias[k] != h && alias[k] != actual :: alias[k]
  }

  /** hook_cuMemRelease. */
  method HookRelease(p: Process, h: nat) returns (ok: bool)
    requires Tables(p)
    modifies p`view, p`created, p`handleToVa, p`importedHandles, p`vaToExport, p`log, p`imports, p`exports, p`alias
    ensures Tables(p)
    ensures ok ==>
              var actual := if h in old(p.alias) then old(p.alias)[h] else h;
              && actual in old(p.view).handles
              && p.view == old(p.view).Release(actual) && Forgotten(p, h) && Forgotten(p, actual)
              && ErasedAll(p.Now(), old(p.Now()), p.importedHandles, old(p.importedHandles), p.vaToExport,
                           old(p.vaToExport), {h, actual})
              && AliasesLeft(p.alias, old(p.alias), {h, actual})
    ensures p.machine.obliging && (if h in old(p.alias) then old(p.alias)[h] else h) in old(p.view).handles ==> ok
    ensures !ok ==> unchanged(p)
  {
    var actual := Resolve(p.alias, h);
    ok := p.machine.Accepts();
    ok := ok && actual in p.view.handles;
    if !ok {
      return;
    }
    p.view := p.view.Release(actual);
    CleanBoth(p, h, actual);
    p.alias := Unaliased(p.alias, h, actual);
    ForgottenBoth(p.Now(), old(p.Now()), p.importedHandles, old(p.importedHandles), h, actual);
  }

  lemma {:induction false} ForgottenBoth(now: Snapshot, was: Snapshot, imported: set<nat>, imported0: set<nat>, h: nat,
                                         actual: nat)
    requires Erased(now, was, {h, actual}) && AliasesLeft(now.alias, was.alias, {h, actual})
    requires imported == imported0 - {h, actual}
    ensures IsForgotten(now, imported, h) && IsForgotten(now, imported, actual)
  {
  }

  method CleanBoth(p: Process, h: nat, actual: nat)
    requires Tables(p)
    modifies p`created, p`handleToVa, p`importedHandles, p`vaToExport, p`log, p`imports, p`exports
    ensures Tables(p)
    ensures ErasedAll(p.Now(), old(p.Now()), p.importedHandles, old(p.importedHandles), p.vaToExport,
                      old(p.vaToExport), {h, actual})
  {
    ghost var was, imported0, index0 := p.Now(), p.importedHandles, p.vaToExport;
    CleanUp(p, h);
    ghost var mid, imported, index := p.Now(), p.importedHandles, p.vaToExport;
    CleanUp(p, actual);
    AllErasedBoth(p.Now(), mid, was, p.importedHandles, imported, imported0, p.vaToExport, index, index0, h, actual);
  }

  lemma {:induction false} AllErasedBoth(now: Snapshot, mid: Snapshot, was: Snapshot, imported: set<nat>,
                                         imported1: set<nat>, imported0: set<nat>, index: map<nat, nat>,
                                         index1: map<nat, nat>, index0: map<nat, nat>, h: nat, actual: nat)
    requires ErasedAll(mid, was, imported1, imported0, index1, index0, {h})
    requires ErasedAll(now, mid, imported, imported1, index, index1, {actual})
    ensures ErasedAll(now, was, imported, imported0, index, index0, {h, actual})
  {
    ErasedBoth(now, mid, was, h, actual);
    MinusTwice(index0, VasOfHandles(was.handleToVa, {h}), VasOfHandles(mid.handleToVa, {actual}));
  }

  /** No table mentions the handle. */
  ghost predicate Forgotten(p: Process, h: nat)
    reads p
  {
    IsForgotten(p.Now(), p.importedHandles, h)
  }

  ghost predicate IsForgotten(s: Snapshot, imported: set<nat>, h: nat) {
    && h !in s.created && h !in s.handleToVa && h !in imported
    && h !in s.alias && (forall k | k in s.alias :: s.alias[k] != h)
    && (h != 0 ==> forall i | 0 <= i < |s.exports| :: s.exports[i].handle != h)
    && (h != 0 ==> forall i | 0 <= i < |s.imports| :: s.imports[i].handle != h)
  }

  /** hook_cuMemUnmap: an import the application unmaps is marked like a torn-down one. */
  method HookUnmap(p: Process, va: nat)
    requires Tables(p) && va in p.view.mapped
    modifies p`view, p`imports
    ensures Tables(p) && p.view == old(p.view).Unmap(va) && |p.imports| == |old(p.imports)|
    ensures forall i | 0 <= i < |p.imports| ::
              p.imports[i] == if va in p.vaToImport
                && p.vaToImport[va] == i then old(p.imports)[i].(tornDown := true) else old(p.imports)[i]
  {
    p.view := p.view.Unmap(va);
    if va in p.vaToImport {
      var idx := p.vaToImport[va];
      if idx < |p.imports| && !p.imports[idx].tornDown {
        p.imports := p.imports[idx := p.imports[idx].(tornDown := true)];
      }
    }
  }

  // ----- over teardown and rebuild -----

  /** A teardown keeps the tables good. */
  method TeardownKeeps(p: Process) returns (ok: bool)
    requires Tables(p)
    modifies p`exports, p`view, p`exportBuf
    ensures Tables(p)
  {
    ok := p.TeardownExports();
    LessThanValid(p.view, old(p.view), p.machine.blocks);
    OkDown(old(p.view), old(p.exports), p.created, p.handleToVa, p.view, p.exports);
  }

  lemma {:induction false} OkDown(was: View, before: seq<Export>, created: map<nat, Created>, vas: map<nat, nat>,
                                  view: View, exports: seq<Export>)
    requires TablesOk(was, before, created, vas) && view.issued == was.issued
    requires SameAllocs(exports, before) && NoNewHandles(exports, before)
    ensures TablesOk(view, exports, created, vas)
  {
    forall i | 0 <= i < |exports|
      ensures PropsOk(exports[i], view.issued, created)
    {
      assert PropsOk(before[i], was.issued, created);
    }
  }

  /** So does a rebuild, whatever is refused. */
  method RebuildKeeps(p: Process, refused: Refusals) returns (rebuilt: nat)
    requires Tables(p)
    modifies p`exports, p`view, p`alias, p`created, p`handleToVa, p.machine
    ensures Tables(p)
  {
    rebuilt := p.RebuildAndRestore(refused);
    OkRebuilt(old(p.view), old(p.exports), old(p.created), old(p.handleToVa), p.view, p.exports, p.created,
      p.handleToVa);
  }

  lemma {:induction false} OkRebuilt(was: View, before: seq<Export>, created0: map<nat, Created>, vas: map<nat, nat>,
                                     view: View, exports: seq<Export>, created: map<nat, Created>,
                                     handleToVa: map<nat, nat>)
    requires TablesOk(was, before, created0, vas) && SameAllocs(exports, before) && was.issued <= view.issued
    requires Registered(created, handleToVa, created0, vas, before, view.issued - was.issued)
    requires forall i | 0 <= i < |exports| && exports[i] != before[i] :: Rebuildable(before[i])
    ensures TablesOk(view, exports, created, handleToVa)
  {
  }

  // ----- the application's handle -----

  /** After a completed rebuild, releasing the application's handle of an export releases exactly the
      handle that keeps the memory behind its address, both handles are forgotten everywhere, and a
      second release reaches no live handle and changes nothing. */
  method ReleaseTwice(p: Process, i: nat) returns (ok: bool, again: bool)
    requires Tables(p) && Owned(p.exports, p.view, p.alias) && i < |p.exports|
    modifies p`view, p`created, p`handleToVa, p`importedHandles, p`vaToExport, p`log, p`imports, p`exports, p`alias
    ensures var e := old(p.exports)[i];
            && old(p.view).handles[e.handle] == old(p.view).mapped[e.alloc.va].block
            && (ok ==>
                 p.view == old(p.view).Release(e.handle) && !again && Forgotten(p, e.handle)
                 && Forgotten(p, e.alloc.app))
    ensures ok ==>
              var app := old(p.exports)[i].alloc.app;
              app !in p.alias && app !in p.view.handles
    ensures ok ==> Traceable(p.exports, p.view)
    ensures p.machine.obliging ==> ok
  {
    var e := p.exports[i];
    assert OwnedOne(e, p.view, p.alias);
    again := false;
    ok := HookRelease(p, e.alloc.app);
    if ok {
      ReleasedTraceable(old(p.exports), old(p.view), old(p.alias), p.exports, p.view, e.alloc.app, e.handle);
      again := HookRelease(p, e.alloc.app);
    }
  }

  ghost function HandlesUpTo(exports: seq<Export>, n: nat): set<nat>
    requires n <= |exports|
  {
    set i: nat | i < n :: exports[i].handle
  }

  /** The first k exports have been released: their handles are gone, and nothing else of the process's view; the
      others are as they were, and owned. */
  ghost predicate Releasing(k: nat, before: seq<Export>, was: View, exports: seq<Export>, view: View,
                            alias: map<nat, nat>) {
    && k <= |before| == |exports| && view == was.(handles := was.handles - HandlesUpTo(before, k))
    && forall j | k <= j < |before| :: exports[j] == before[j] && OwnedOne(exports[j], view, alias)
  }

  /** Releasing one export does not touch what another one's handle leads to. */
  lemma {:induction false} OthersOwned(e: Export, other: Export, view: View, alias: map<nat, nat>, left: map<nat, nat>)
    requires OwnedOne(e, view, alias) && OwnedOne(other, view, alias)
    requires e.handle != other.handle && e.alloc.app != other.alloc.app
    requires AliasesLeft(left, alias, {e.alloc.app, e.handle})
    ensures other.handle !in {e.alloc.app, e.handle} && OwnedOne(other, view.Release(e.handle), left)
  {
  }

  lemma {:induction false} ReleasedNext(k: nat, before: seq<Export>, was: View, mid: seq<Export>, midView: View,
                                        midAlias: map<nat, nat>, exports: seq<Export>, alias: map<nat, nat>)
    requires Releasing(k, before, was, mid, midView, midAlias) && k < |before|
    requires DistinctApps(before) && Exclusive(before)
    requires |exports| == |mid| && forall j | 0 <= j < |mid| ::
               exports[j] == if mid[j].handle in {before[k].alloc.app, before[k].handle}
                             then mid[j].(handle := 0) else mid[j]
    requires AliasesLeft(alias, midAlias, {before[k].alloc.app, before[k].handle})
    ensures Releasing(k + 1, before, was, exports, midView.Release(before[k].handle), alias)
  {
    forall j | k + 1 <= j < |before|
      ensures exports[j] == before[j] && OwnedOne(exports[j], midView.Release(before[k].handle), alias)
    {
      assert OwnedOne(mid[k], midView, midAlias) && OwnedOne(mid[j], midView, midAlias);
      OthersOwned(mid[k], mid[j], midView, midAlias, alias);
    }
    assert HandlesUpTo(before, k + 1) == HandlesUpTo(before, k) + {before[k].handle};
    MinusTwice(was.handles, HandlesUpTo(before, k), {before[k].handle});
  }

  /** The application releases every export it has, each by its own handle: each call releases the handle that
      keeps that export's memory, and no other, so in the end all of them are gone. */
  method ReleaseEvery(p: Process) returns (ok: bool)
    requires Tables(p) && p.machine.obliging && Owned(p.exports, p.view, p.alias) && Exclusive(p.exports)
    modifies p`view, p`created, p`handleToVa, p`importedHandles, p`vaToExport, p`log, p`imports, p`exports, p`alias
    ensures ok && Tables(p)
    ensures forall i | 0 <= i < |old(p.exports)| ::
              && old(p.exports)[i].handle in old(p.view).handles
              && old(p.view).handles[old(p.exports)[i].handle] == old(p.view).mapped[old(p.exports)[i].alloc.va].block
    ensures p.view == old(p.view).(handles := old(p.view).handles
                                              - (set e | e in old(p.exports) :: e.handle))
  {
    ghost var before, was := p.exports, p.view;
    ok := true;
    assert was.handles - HandlesUpTo(before, 0) == was.handles;
    forall j | 0 <= j < |before|
      ensures OwnedOne(before[j], p.view, p.alias)
    {
    }
    for k := 0 to |p.exports|
      invariant Tables(p) && ok && Releasing(k, before, was, p.exports, p.view, p.alias)
    {
      ok := ReleaseNext(p, k, before, was);
    }
    assert HandlesUpTo(before, |before|) == set e | e in before :: e.handle;
  }

  method ReleaseNext(p: Process, k: nat, ghost before: seq<Export>, ghost was: View) returns (ok: bool)
    requires Tables(p) && p.machine.obliging && k < |p.exports|
    requires Releasing(k, before, was, p.exports, p.view, p.alias) && DistinctApps(before) && Exclusive(before)
    modifies p`view, p`created, p`handleToVa, p`importedHandles, p`vaToExport, p`log, p`imports, p`exports, p`alias
    ensures ok && Tables(p) && Releasing(k + 1, before, was, p.exports, p.view, p.alias)
  {
    ghost var mid, midView, midAlias := p.exports, p.view, p.alias;
    assert OwnedOne(p.exports[k], p.view, p.alias);
    ok := HookRelease(p, p.exports[k].alloc.app);
    ReleasedNext(k, before, was, mid, midView, midAlias, p.exports, p.alias);
  }

  lemma {:induction false} ReleasedTraceable(before: seq<Export>, was: View, alias: map<nat, nat>, exports: seq<Export>,
                                             view: View, h: nat, actual: nat)
    requires Owned(before, was, alias) && view == was.Release(actual) && Resolve(alias, h) == actual
    requires |exports| == |before| && forall i | 0 <= i < |before| ::
               exports[i] == if before[i].handle in {h, actual} then before[i].(handle := 0) else before[i]
    ensures Traceable(exports, view)
  {
  }

  /** Releasing leaves everything up: a mapping does not need its handle. */
  lemma {:induction false} UpWithout(s: Snapshot, t: Snapshot, blocks: Blocks, contents: seq<seq<byte>>, h: nat,
                                     actual: nat)
    requires IsUp(s, blocks, contents) && t.view == s.view.Release(actual)
    requires Erased(t, s, {h, actual})
    ensures IsUp(t, blocks, contents)
  {
    forall i | 0 <= i < |t.exports|
      ensures UpOne(t.exports[i], t.view, blocks, contents[i]) && t.exports[i].alloc == s.exports[i].alloc
    {
      assert UpOne(s.exports[i], s.view, blocks, contents[i]);
    }
    forall i | 0 <= i < |t.imports|
      ensures ImportUp(t.imports[i], t.view) && t.imports[i].va == s.imports[i].va
    {
      assert ImportUp(s.imports[i], s.view);
    }
  }

  lemma {:induction false} TablesAgain(view: View, blocks: Blocks, exports: seq<Export>, created: map<nat, Created>,
                                       handleToVa: map<nat, nat>, contents: seq<seq<byte>>)
    requires Keyed(view, created, handleToVa) && Up(exports, view, blocks, contents)
    ensures TablesOk(view, exports, created, handleToVa)
  {
  }

  /** Teardown and rebuild of the exports. */
  method Renew(p: Process, ghost contents: seq<seq<byte>>)
    requires p.machine.obliging && p.AllUp(contents) && Traceable(p.exports, p.view)
             && Keyed(p.view, p.created, p.handleToVa)
    modifies p`exports, p`imports, p`view, p`alias, p`created, p`handleToVa, p`exportBuf, p.machine
    ensures Tables(p) && Owned(p.exports, p.view, p.alias) && SameAllocs(p.exports, old(p.exports))
  {
    var _ := p.Teardown(contents);
    var _ := ExportPhase(p, contents);
    TablesAgain(p.view, p.machine.blocks, p.exports, p.created, p.handleToVa, contents);
  }

  /** The exact limit of ReleaseTwice: a rebuild in between makes the handle the application has already
      released lead to a live handle again. */
  method ReleaseAcrossRebuild(p: Process, i: nat, ghost contents: seq<seq<byte>>)
    returns (again: bool, ghost before: View, ghost reached: nat)
    requires p.machine.obliging && Tables(p) && Owned(p.exports, p.view, p.alias) && p.AllUp(contents)
             && i < |p.exports|
    modifies p, p.machine
    ensures var a := old(p.exports)[i].alloc;
            && again && reached in before.handles && a.va in before.mapped
               && before.handles[reached] == before.mapped[a.va].block
            && p.view == before.Release(reached)
  {
    var app := p.exports[i].alloc.app;
    assert OwnedOne(p.exports[i], p.view, p.alias);
    var ok := HookRelease(p, app);
    ReleasedTraceable(old(p.exports), old(p.view), old(p.alias), p.exports, p.view, app, Resolve(old(p.alias), app));
    UpWithout(old(p.Now()), p.Now(), p.machine.blocks, contents, app, Resolve(old(p.alias), app));
    Renew(p, contents);
    before, reached := p.view, p.exports[i].handle;
    assert OwnedOne(p.exports[i], p.view, p.alias);
    again := HookRelease(p, app);
  }

  /** A failing run: the application unmaps one export, and the teardown then fails for all of them. Every
      other export is still mapped, with its IPC state up. */
  method UnmappedAborts(p: Process, i: nat) returns (ok: bool)
    requires Tables(p) && i < |p.exports| && Active(p.exports[i]) && p.exports[i].alloc.va in p.view.mapped
    modifies p`view, p`imports, p`exports, p`exportBuf
    ensures !ok && p.view == old(p.view).Unmap(old(p.exports)[i].alloc.va) && SameBut(old(p.exports), p.exports)
  {
    HookUnmap(p, p.exports[i].alloc.va);
    ok := p.TeardownExports();
  }
}

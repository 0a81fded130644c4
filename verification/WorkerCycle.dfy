/** All of one worker's own shareable memory through a cycle, in the order of the handlers (src/vGPU.cpp,
    IPC_TEARDOWN_MSG and IPC_EXPORT_MSG): exports down, local allocations down; exports back, local
    allocations back. */
module WorkerCycle {
  import opened Wrappers
  import opened Layout
  import opened Ordered
  import opened Fabric
  import opened ExportLayout
  import opened IpcProcess
  import opened IpcExport
  import opened IpcHooks
  import opened LocalRebuild
  import LA = LocalAllocs
  import AccessLog

  /** No address of an import and no handle of an export is a local's. */
  ghost predicate Separate(exports: seq<Export>, imports: seq<Import>, locals: seq<Local>) {
    && (forall i, j | 0 <= i < |exports| && 0 <= j < |locals| :: exports[i].handle != locals[j].handle)
    && (forall i, j | 0 <= i < |imports| && 0 <= j < |locals| :: imports[i].va != locals[j].va)
  }

  function Locals(p: Process): seq<Local>
    reads p
  {
    LocalsOf(p.created, p.handleToVa, p.exports)
  }

  /** Exports and locals are up, the imports are down, and nothing is in a buffer. */
  ghost predicate Together(p: Process, contents: seq<seq<byte>>)
    reads p, p.machine
  {
    && p.ExportsUp(contents) && Steady(p) && p.exportBuf == []
    && Separate(p.exports, p.imports, Locals(p))
  }

  // ----- down -----

  ghost predicate NoneExported(locals: seq<Local>, exports: seq<Export>) {
    forall i | 0 <= i < |locals| :: !ExportedAt(exports, locals[i].va)
  }

  lemma {:induction false} ListedUnexported(locals: seq<Local>, created: map<nat, Created>, handleToVa: map<nat, nat>,
                                            exports: seq<Export>)
    requires IsListing(locals, created, handleToVa, exports)
    ensures NoneExported(locals, exports)
  {
    forall i | 0 <= i < |locals|
      ensures !ExportedAt(exports, locals[i].va)
    {
      assert IsListed(locals[i], created, handleToVa, exports);
    }
  }

  /** What is listed depends on the exports' allocations only. */
  lemma {:induction false} SameListing(created: map<nat, Created>, handleToVa: map<nat, nat>, before: seq<Export>,
                                       exports: seq<Export>)
    requires SameAllocs(exports, before)
    ensures forall va :: ExportedAt(exports, va) <==> ExportedAt(before, va)
    ensures LocalsOf(created, handleToVa, exports) == LocalsOf(created, handleToVa, before)
  {
    assert forall va :: ExportedAt(exports, va) <==> ExportedAt(before, va);
    assert Unexported(created, handleToVa, exports) == Unexported(created, handleToVa, before);
  }

  /** Dropping the exports leaves the locals where they are. */
  lemma {:induction false} LocalsStay(locals: seq<Local>, exports: seq<Export>, view: View, was: View)
    requires LocalsUp(locals, was) && NoneExported(locals, exports)
    requires forall i, j | 0 <= i < |exports| && 0 <= j < |locals| :: exports[i].handle != locals[j].handle
    requires view.mapped == was.mapped - DroppedVas(exports, |exports|)
    requires view.handles == was.handles - DroppedHandles(exports, |exports|)
    ensures LocalsUp(locals, view)
    ensures forall i | 0 <= i < |locals| :: SameEntry(view.mapped, was.mapped, locals[i].va)
  {
    forall i | 0 <= i < |locals|
      ensures LocalUp(locals[i], view) && SameEntry(view.mapped, was.mapped, locals[i].va)
    {
      assert LocalUp(locals[i], was) && !ExportedAt(exports, locals[i].va);
    }
  }

  /** The export part of the teardown, with locals around. */
  method ExportsDown(p: Process, ghost contents: seq<seq<byte>>, ghost locals: seq<Local>)
    requires p.machine.obliging && Together(p, contents) && locals == Locals(p)
    modifies p`exports, p`view, p`exportBuf
    ensures p.AllTorn(contents) && SameAllocs(p.exports, old(p.exports)) && LessThan(p.view, old(p.view))
    ensures Steady(p) && locals == Locals(p)
    ensures forall i | 0 <= i < |locals| :: SameEntry(p.view.mapped, old(p.view).mapped, locals[i].va)
  {
    ghost var was, before := p.view, p.exports;
    ListedUnexported(locals, p.created, p.handleToVa, p.exports);
    var _ := p.TakeExports(contents);
    if before != [] {
      LocalsStay(locals, before, p.view, was);
    }
    SameListing(p.created, p.handleToVa, before, p.exports);
  }

  lemma {:induction false} TornLess(s: Snapshot, view: View, blocks: Blocks, contents: seq<seq<byte>>)
    requires IsTorn(s, blocks, contents) && LessThan(view, s.view)
    ensures IsTorn(s.(view := view), blocks, contents)
  {
    LessThanValid(view, s.view, blocks);
  }

  /** The local part of the teardown, with the exports down. */
  method LocalsDown(p: Process, pinned: bool, ghost contents: seq<seq<byte>>, ghost locals: seq<Local>)
    returns (records: seq<Local>, buf: seq<byte>)
    requires p.machine.obliging && Steady(p) && locals == Locals(p) && p.AllTorn(contents)
    modifies p`view
    ensures p.AllTorn(contents)
    ensures Between(locals, records, buf, p.view, old(p.view), p.machine.blocks)
  {
    ghost var s := p.Now();
    records, buf := TakeLocals(p, pinned, locals);
    TornLess(s, p.view, p.machine.blocks, contents);
    assert p.Now() == s.(view := p.view);
  }

  // ----- back -----

  /** Nothing is mapped at the records' addresses, and none of them is an export's. */
  lemma {:induction false} AwayStill(records: seq<Local>, before: seq<Export>, exports: seq<Export>, view: View,
                                     was: View)
    requires Away(records, was) && NoneExported(records, before) && SameAllocs(exports, before)
    requires OnlyRebuilt(before, exports, view, was, Nobody())
    ensures Away(records, view)
  {
    forall i | 0 <= i < |records|
      ensures records[i].va !in view.mapped
    {
      assert !ExportedAt(before, records[i].va);
    }
  }

  lemma {:induction false} HandlesHeld(before: seq<Export>, exports: seq<Export>, view: View, blocks: Blocks, was: View,
                                       buf: seq<byte>, log: map<nat, seq<AccessLog.Desc>>)
    requires AllFree(before, was, Nobody()) && AllBackable(before, exports, view, blocks, was, buf, log, Nobody())
    ensures forall i | 0 <= i < |exports| :: exports[i].handle in view.handles
  {
    FreeIsBackable(before, was, Nobody());
    forall i | 0 <= i < |exports|
      ensures exports[i].handle in view.handles
    {
      assert RestoredOne(before[i], exports[i], view, blocks, buf, log);
    }
  }

  /** The export part of the export handler, while locals are down. */
  method ExportsBack(p: Process, ghost contents: seq<seq<byte>>, ghost records: seq<Local>)
    requires p.machine.obliging && p.AllTorn(contents)
    requires Away(records, p.view) && NoneExported(records, p.exports)
    modifies p`exports, p`view, p`alias, p`created, p`handleToVa, p`exportBuf, p.machine
    ensures p.ExportsUp(contents) && p.exportBuf == [] && SameAllocs(p.exports, old(p.exports))
    ensures Away(records, p.view) && old(p.view).issued <= p.view.issued
    ensures Grown(old(p.machine.blocks), p.machine.blocks)
    ensures forall i | 0 <= i < |p.exports| :: p.exports[i].handle in p.view.handles
    ensures Registered(p.created, p.handleToVa, old(p.created), old(p.handleToVa), old(p.exports),
                       p.view.issued - old(p.view).issued)
  {
    TornIsFree(p.exports, p.imports, p.view, p.exportBuf, contents);
    if p.exportBuf != [] {
      ExportsRebuilt(p, contents, records);
      p.exportBuf := [];
    }
  }

  method ExportsRebuilt(p: Process, ghost contents: seq<seq<byte>>, ghost records: seq<Local>)
    requires p.machine.obliging && p.AllTorn(contents) && AllFree(p.exports, p.view, Nobody())
    requires Away(records, p.view) && NoneExported(records, p.exports)
    modifies p`exports, p`view, p`alias, p`created, p`handleToVa, p.machine
    ensures p.ExportsUp(contents) && SameAllocs(p.exports, old(p.exports))
    ensures Away(records, p.view) && old(p.view).issued <= p.view.issued
    ensures Grown(old(p.machine.blocks), p.machine.blocks)
    ensures forall i | 0 <= i < |p.exports| :: p.exports[i].handle in p.view.handles
    ensures Registered(p.created, p.handleToVa, old(p.created), old(p.handleToVa), old(p.exports),
                       p.view.issued - old(p.view).issued)
  {
    var _ := p.RebuildAndRestore(Nobody());
    BackAgain(old(p.exports), p.exports, p.view, p.machine.blocks, old(p.view), p.exportBuf, contents, p.log);
    SameVas(old(p.exports), p.exports, p.imports);
    StillDown(p.imports, old(p.exports), p.exports, old(p.view), p.view);
    HandlesHeld(old(p.exports), p.exports, p.view, p.machine.blocks, old(p.view), p.exportBuf, p.log);
    AwayStill(records, old(p.exports), p.exports, p.view, old(p.view));
  }

  /** The rebuild of the exports registers handles for exports only, so it leaves the list of locals alone. */
  lemma {:induction false} ListingKept(locals: seq<Local>, created: map<nat, Created>, handleToVa: map<nat, nat>,
                                       created0: map<nat, Created>, handleToVa0: map<nat, nat>, before: seq<Export>,
                                       exports: seq<Export>, view: View, was: View)
    requires IsListing(locals, created0, handleToVa0, before) && SameAllocs(exports, before)
    requires Keyed(was, created0, handleToVa0) && was.issued <= view.issued
    requires Registered(created, handleToVa, created0, handleToVa0, before, view.issued - was.issued)
    ensures IsListing(locals, created, handleToVa, exports) && Keyed(view, created, handleToVa)
  {
    SameListing(created0, handleToVa0, before, exports);
    forall h | h in Unexported(created, handleToVa, exports)
      ensures h in Unexported(created0, handleToVa0, before)
    {
      assert SameEntry(handleToVa, handleToVa0, h);
      assert SameEntry(created, created0, h);
    }
    forall i | 0 <= i < |locals|
      ensures IsListed(locals[i], created, handleToVa, exports)
    {
      var h := locals[i].handle;
      assert IsListed(locals[i], created0, handleToVa0, before) && h in was.issued;
      assert SameEntry(handleToVa, handleToVa0, h) && SameEntry(created, created0, h);
    }
  }

  /** The two halves of a local cycle with other work in between, which has given out more handles and
      blocks. */
  lemma {:induction false} CycledAcross(locals: seq<Local>, records: seq<Local>, after: seq<Local>, buf: seq<byte>,
                                        view: View, blocks: Blocks, later: View, laterBlocks: Blocks, down: View,
                                        mid: View, old_: Blocks, log: map<nat, seq<AccessLog.Desc>>)
    requires Between(locals, records, buf, down, mid, old_) && mid.issued <= later.issued && Grown(old_, laterBlocks)
    requires LocalOutcomes(records, after, Nobody(), buf, view, blocks, later, laterBlocks, log)
    ensures Cycled(locals, records, after, Nobody(), buf, view, blocks, mid.(issued := later.issued), old_, log)
  {
    var was := mid.(issued := later.issued);
    forall k | 0 <= k < |records|
      ensures LocalOutcome(records, after, Nobody(), buf, k, view, blocks, was, old_, log)
    {
      assert LocalOutcome(records, after, Nobody(), buf, k, view, blocks, later, laterBlocks, log);
    }
    SavedIn(locals, buf, mid, was, old_);
  }

  /** What can be read depends on the mappings only. */
  lemma {:induction false} SavedIn(locals: seq<Local>, buf: seq<byte>, mid: View, was: View, blocks: Blocks)
    requires LA.ReadableSaved(buf, locals, mid, blocks) && was.mapped == mid.mapped
    ensures LA.ReadableSaved(buf, locals, was, blocks)
  {
    forall i | 0 <= i < |locals| && LA.CanRead(locals[i], was, blocks)
      ensures LA.SavedAt(buf, locals, i, was, blocks)
    {
      assert LA.CanRead(locals[i], mid, blocks) && LA.SavedAt(buf, locals, i, mid, blocks);
    }
  }

  lemma {:induction false} StillSeparate(exports: seq<Export>, imports: seq<Import>, locals: seq<Local>,
                                         now: seq<Local>, issued: set<nat>)
    requires forall i, j | 0 <= i < |imports| && 0 <= j < |locals| :: imports[i].va != locals[j].va
    requires Places(now) == Places(locals) && forall l | l in now :: l.handle !in issued
    requires forall i | 0 <= i < |exports| :: exports[i].handle in issued
    ensures Separate(exports, imports, now)
  {
    forall j | 0 <= j < |now|
      ensures exists k :: 0 <= k < |locals| && locals[k].va == now[j].va
    {
      assert Place(now[j].va, now[j].size, now[j].dev) in Places(locals);
    }
  }

  /** The tables and the locals after the second half. `later` is the process before it. */
  lemma {:induction false} LocalsAgain(locals: seq<Local>, records: seq<Local>, after: seq<Local>, buf: seq<byte>,
                                       view: View, blocks: Blocks, later: View, mid: View, old_: Blocks,
                                       log: map<nat, seq<AccessLog.Desc>>, exports: seq<Export>,
                                       created: map<nat, Created>, handleToVa: map<nat, nat>,
                                       created0: map<nat, Created>, handleToVa0: map<nat, nat>)
    requires IsListing(locals, created0, handleToVa0, exports) && Keyed(later, created0, handleToVa0)
    requires LocalsUp(locals, mid) && view.Valid(blocks) && later.issued <= view.issued
    requires Cycled(locals, records, after, Nobody(), buf, view, blocks, mid.(issued := later.issued), old_, log)
    requires Renumbered(records, after, created, handleToVa, created0, handleToVa0, later.issued)
    ensures Keyed(view, created, handleToVa) && LocalsUp(LocalsOf(created, handleToVa, exports), view)
    ensures Places(LocalsOf(created, handleToVa, exports)) == Places(locals)
    ensures forall l | l in LocalsOf(created, handleToVa, exports) :: l.handle !in later.issued
  {
    var was := mid.(issued := later.issued);
    CycledAreHeld(locals, records, after, Nobody(), buf, view, blocks, was, old_, log);
    KeyedAgain(records, after, view, blocks, was, created, handleToVa, created0, handleToVa0);
    UpAgain(locals, records, after, buf, view, blocks, was, old_, log, exports, created, handleToVa, created0,
            handleToVa0);
  }

  /** Locals on devices in order show the bytes they showed in `first`. */
  lemma {:induction false} BytesAgain(locals: seq<Local>, records: seq<Local>, after: seq<Local>, buf: seq<byte>,
                                      view: View, blocks: Blocks, later: View, mid: View, first: View, old_: Blocks,
                                      log: map<nat, seq<AccessLog.Desc>>)
    requires LA.Nondecreasing(locals) && LocalsUp(locals, mid) && mid.Valid(old_) && mid.issued <= later.issued
    requires Cycled(locals, records, after, Nobody(), buf, view, blocks, mid.(issued := later.issued), old_, log)
    requires forall i | 0 <= i < |locals| :: SameEntry(mid.mapped, first.mapped, locals[i].va)
    ensures forall i | 0 <= i < |locals| :: Shows(view, blocks, locals[i].va, LA.BytesOf(locals[i], first, old_))
  {
    var was := mid.(issued := later.issued);
    InOrderOwnBytes(locals, records, after, buf, view, blocks, was, old_, log);
    forall i | 0 <= i < |locals|
      ensures Shows(view, blocks, locals[i].va, LA.BytesOf(locals[i], first, old_))
    {
      assert LocalUp(locals[i], mid) && SameEntry(mid.mapped, first.mapped, locals[i].va);
      assert LA.BytesOf(locals[i], was, old_) == LA.BytesOf(locals[i], first, old_);
    }
  }

  /** The imports' addresses are no locals'. */
  lemma {:induction false} ImportsStayDown(imports: seq<Import>, records: seq<Local>, view: View, was: View)
    requires forall i | 0 <= i < |imports| :: imports[i].tornDown && imports[i].va !in was.mapped
    requires forall va | va in view.mapped && va !in was.mapped :: va in VasOf(records, |records|)
    requires forall i, j | 0 <= i < |imports| && 0 <= j < |records| :: imports[i].va != records[j].va
    ensures forall i | 0 <= i < |imports| :: imports[i].tornDown && imports[i].va !in view.mapped
  {
  }

  lemma {:induction false} RecordsAmong(locals: seq<Local>, records: seq<Local>, exports: seq<Export>,
                                        imports: seq<Import>)
    requires LA.IsGrouping(locals, records) && NoneExported(locals, exports)
    requires forall i, j | 0 <= i < |imports| && 0 <= j < |locals| :: imports[i].va != locals[j].va
    ensures NoneExported(records, exports)
    ensures forall i, j | 0 <= i < |imports| && 0 <= j < |records| :: imports[i].va != records[j].va
  {
    forall j | 0 <= j < |records|
      ensures records[j] in locals
    {
      assert records[j] == locals[LA.Order(locals)[j]];
    }
  }

  /** What the second half needs of the first: the locals were listed and up in `mid`, and everything saved. */
  ghost predicate Halfway(locals: seq<Local>, records: seq<Local>, buf: seq<byte>, down: View, mid: View, first: View,
                          old_: Blocks) {
    && LocalsUp(locals, mid) && mid.Valid(old_) && Between(locals, records, buf, down, mid, old_)
    && mid.issued == down.issued
    && forall i | 0 <= i < |locals| :: SameEntry(mid.mapped, first.mapped, locals[i].va)
  }

  ghost predicate OwnBytes(locals: seq<Local>, view: View, blocks: Blocks, first: View, old_: Blocks) {
    forall i | 0 <= i < |locals| :: Shows(view, blocks, locals[i].va, LA.BytesOf(locals[i], first, old_))
  }

  ghost predicate ImportsApart(imports: seq<Import>, locals: seq<Local>) {
    forall i, j | 0 <= i < |imports| && 0 <= j < |locals| :: imports[i].va != locals[j].va
  }

  /** Between the handlers: everything is down. */
  ghost predicate AllIsDown(p: Process, records: seq<Local>, buf: seq<byte>, contents: seq<seq<byte>>,
                            locals: seq<Local>, mid: View, first: View)
    reads p, p.machine
  {
    && p.AllTorn(contents) && locals == Locals(p) && Keyed(p.view, p.created, p.handleToVa)
    && Halfway(locals, records, buf, p.view, mid, first, p.machine.blocks) && ImportsApart(p.imports, locals)
  }

  /** The exports are up again, the locals are still down. `down` and `old_` are the process and the blocks when
      everything was down. */
  ghost predicate ExportsAreBack(p: Process, records: seq<Local>, buf: seq<byte>, contents: seq<seq<byte>>,
                                 locals: seq<Local>, down: View, mid: View, first: View, old_: Blocks)
    reads p, p.machine
  {
    && p.ExportsUp(contents) && p.exportBuf == []
    && IsListing(locals, p.created, p.handleToVa, p.exports) && Keyed(p.view, p.created, p.handleToVa)
    && Halfway(locals, records, buf, down, mid, first, old_) && Away(records, p.view)
    && down.issued <= p.view.issued && Grown(old_, p.machine.blocks) && ImportsApart(p.imports, locals)
    && forall i | 0 <= i < |p.exports| :: p.exports[i].handle in p.view.handles
  }

  /** Everything is up again, the same locals are listed, and those on devices in order show the bytes they
      showed in `first`. */
  ghost predicate UpAgainAs(p: Process, contents: seq<seq<byte>>, locals: seq<Local>, first: View, old_: Blocks)
    reads p, p.machine
  {
    && Together(p, contents) && Grown(old_, p.machine.blocks) && Places(Locals(p)) == Places(locals)
    && (LA.Nondecreasing(locals) ==> OwnBytes(locals, p.view, p.machine.blocks, first, old_))
  }

  /** The local part of the export handler, with the exports up again. */
  method LocalsBack(p: Process, records: seq<Local>, buf: seq<byte>, ghost contents: seq<seq<byte>>,
                    ghost locals: seq<Local>, ghost down: View, ghost mid: View, ghost first: View, ghost old_: Blocks)
    requires p.machine.obliging && ExportsAreBack(p, records, buf, contents, locals, down, mid, first, old_)
    modifies p`view, p`created, p`handleToVa, p.machine
    ensures UpAgainAs(p, contents, locals, first, old_)
  {
    ghost var later, laterBlocks, created0, vas0 := p.view, p.machine.blocks, p.created, p.handleToVa;
    var after := RebuildLocals(p, records, Nobody(), buf);
    CycledAcross(locals, records, after, buf, p.view, p.machine.blocks, later, laterBlocks, down, mid, old_, p.log);
    LocalsAgain(locals, records, after, buf, p.view, p.machine.blocks, later, mid, old_, p.log, p.exports, p.created,
                p.handleToVa, created0, vas0);
    ListedUnexported(locals, created0, vas0, p.exports);
    RecordsAmong(locals, records, p.exports, p.imports);
    UpMore(p.exports, p.view, p.machine.blocks, later, laterBlocks, contents);
    ImportsStayDown(p.imports, records, p.view, later);
    StillSeparate(p.exports, p.imports, locals, Locals(p), later.issued);
    if LA.Nondecreasing(locals) {
      BytesAgain(locals, records, after, buf, p.view, p.machine.blocks, later, mid, first, old_, p.log);
    }
  }

  /** The teardown handler's part. */
  method BothDown(p: Process, pinned: bool, ghost contents: seq<seq<byte>>, ghost locals: seq<Local>)
    returns (records: seq<Local>, buf: seq<byte>, ghost mid: View)
    requires p.machine.obliging && Together(p, contents) && locals == Locals(p)
    modifies p`exports, p`view, p`exportBuf
    ensures AllIsDown(p, records, buf, contents, locals, mid, old(p.view)) && SameAllocs(p.exports, old(p.exports))
  {
    ExportsDown(p, contents, locals);
    mid := p.view;
    records, buf := LocalsDown(p, pinned, contents, locals);
  }

  /** The first half of the export handler's part: the exports. */
  method ExportsReturn(p: Process, records: seq<Local>, buf: seq<byte>, ghost contents: seq<seq<byte>>,
                       ghost locals: seq<Local>, ghost mid: View, ghost first: View)
    requires p.machine.obliging && AllIsDown(p, records, buf, contents, locals, mid, first)
    modifies p`exports, p`view, p`alias, p`created, p`handleToVa, p`exportBuf, p.machine
    ensures ExportsAreBack(p, records, buf, contents, locals, old(p.view), mid, first, old(p.machine.blocks))
    ensures SameAllocs(p.exports, old(p.exports))
  {
    ghost var down, before, created0, vas0 := p.view, p.exports, p.created, p.handleToVa;
    ListedUnexported(locals, p.created, p.handleToVa, p.exports);
    RecordsAmong(locals, records, p.exports, p.imports);
    ExportsBack(p, contents, records);
    ListingKept(locals, p.created, p.handleToVa, created0, vas0, before, p.exports, p.view, down);
  }

  /** The export handler's part. */
  method BothBack(p: Process, records: seq<Local>, buf: seq<byte>, ghost contents: seq<seq<byte>>,
                  ghost locals: seq<Local>, ghost mid: View, ghost first: View)
    requires p.machine.obliging && AllIsDown(p, records, buf, contents, locals, mid, first)
    modifies p`exports, p`view, p`alias, p`created, p`handleToVa, p`exportBuf, p.machine
    ensures UpAgainAs(p, contents, locals, first, old(p.machine.blocks)) && SameAllocs(p.exports, old(p.exports))
  {
    ghost var down, old_ := p.view, p.machine.blocks;
    ExportsReturn(p, records, buf, contents, locals, mid, first);
    LocalsBack(p, records, buf, contents, locals, down, mid, first, old_);
  }

  /** A whole cycle of one worker's own memory, without refusals: every export and every local is up again at its
      address, the exports with their bytes, the locals with theirs if their devices are in order; the same
      locals are listed, and there can be another cycle. */
  method Cycle(p: Process, pinned: bool, ghost contents: seq<seq<byte>>, ghost locals: seq<Local>)
    requires p.machine.obliging && Together(p, contents) && locals == Locals(p)
    modifies p`exports, p`view, p`alias, p`created, p`handleToVa, p`exportBuf, p.machine
    ensures Together(p, contents) && Grown(old(p.machine.blocks), p.machine.blocks)
    ensures SameAllocs(p.exports, old(p.exports)) && Places(Locals(p)) == Places(locals)
    ensures LA.Nondecreasing(locals) ==>
              OwnBytes(locals, p.view, p.machine.blocks, old(p.view), old(p.machine.blocks))
  {
    ghost var first := p.view;
    ghost var mid;
    var records, buf;
    records, buf, mid := BothDown(p, pinned, contents, locals);
    BothBack(p, records, buf, contents, locals, mid, first);
  }

  /** Any number of cycles. */
  method Cycles(p: Process, pinned: bool, n: nat, ghost contents: seq<seq<byte>>)
    requires p.machine.obliging && Together(p, contents)
    modifies p`exports, p`view, p`alias, p`created, p`handleToVa, p`exportBuf, p.machine
    ensures Together(p, contents) && SameAllocs(p.exports, old(p.exports))
    ensures Places(Locals(p)) == Places(old(Locals(p)))
  {
    for k := 0 to n
      invariant Together(p, contents) && SameAllocs(p.exports, old(p.exports))
      invariant Places(Locals(p)) == Places(old(Locals(p)))
    {
      Cycle(p, pinned, contents, Locals(p));
    }
  }

  // ----- getting there -----

  ghost predicate AllIssued(p: Process)
    reads p
  {
    p.importedHandles <= p.view.issued && forall i | 0 <= i < |p.exports| :: p.exports[i].handle in p.view.issued
  }

  /** Creating and mapping shareable memory at a new address adds one local. */
  method AddLocal(p: Process, va: nat, size: nat, dev: nat, ghost contents: seq<seq<byte>>)
    requires Tables(p) && Together(p, contents) && AllIssued(p)
    requires size > 0 && va !in p.view.mapped && !ExportedAt(p.exports, va)
    requires forall i | 0 <= i < |p.imports| :: p.imports[i].va != va
    modifies p, p.machine
    ensures Tables(p) && Together(p, contents) && AllIssued(p)
    ensures Places(Locals(p)) == Places(old(Locals(p))) + {Place(va, size, dev)}
  {
    ghost var was, old_, created0, vas0 := p.view, p.machine.blocks, p.created, p.handleToVa;
    var h := MakeLocal(p, va, size, dev, contents);
    ghost var l := LA.Local(h, va, size, dev);
    OneMoreListed(Locals(p), old(Locals(p)), p.created, p.handleToVa, created0, vas0, p.exports, l);
    OneMoreUp(Locals(p), old(Locals(p)), p.view, was, l);
    OneMorePlace(Locals(p), old(Locals(p)), l);
    StillApart(p.exports, p.imports, old(Locals(p)), Locals(p), l);
    UpMore(p.exports, p.view, p.machine.blocks, was, old_, contents);
  }

  /** `view` shows and holds what `was` does, and one more mapping and handle. */
  ghost predicate OneMoreMapped(view: View, was: View, l: Local) {
    && l.handle !in was.issued && view.issued == was.issued + {l.handle}
    && l.va !in was.mapped && l.va in view.mapped && view.mapped == was.mapped[l.va := view.mapped[l.va]]
    && l.handle in view.handles && view.handles == was.handles[l.handle := view.handles[l.handle]]
    && LocalUp(l, view)
  }

  method MakeLocal(p: Process, va: nat, size: nat, dev: nat, ghost contents: seq<seq<byte>>) returns (h: nat)
    requires Tables(p) && Up(p.exports, p.view, p.machine.blocks, contents) && p.importedHandles <= p.view.issued
    requires size > 0 && va !in p.view.mapped
    modifies p, p.machine
    ensures Tables(p) && OneMoreMapped(p.view, old(p.view), LA.Local(h, va, size, dev))
    ensures p.exports == old(p.exports) && p.imports == old(p.imports) && p.exportBuf == old(p.exportBuf)
    ensures p.importedHandles == old(p.importedHandles) && Grown(old(p.machine.blocks), p.machine.blocks)
    ensures p.created == old(p.created)[h := Created(size, dev)] && p.handleToVa == old(p.handleToVa)[h := va]
  {
    ghost var before := p.exports;
    h := HookCreate(p, size, dev, true);
    HookMap(p, va, size, h);
    NoneAttached(before, p.exports, old(p.view), old(p.machine.blocks), contents, h, va, size);
  }

  lemma {:induction false} NoneAttached(before: seq<Export>, exports: seq<Export>, was: View, old_: Blocks,
                                        contents: seq<seq<byte>>, h: nat, va: nat, size: nat)
    requires Up(before, was, old_, contents) && |exports| == |before|
    requires forall i | 0 <= i < |exports| :: exports[i] == Attached(before[i], h, va, size)
    ensures exports == before
  {
    forall i | 0 <= i < |before|
      ensures exports[i] == before[i]
    {
      assert UpOne(before[i], was, old_, contents[i]);
    }
  }

  /** `now` lists what `locals` lists, and l. */
  ghost predicate OneMoreIn(now: seq<Local>, locals: seq<Local>, l: Local) {
    l in now && (forall m | m in locals :: m in now) && forall m | m in now :: m in locals || m == l
  }

  lemma {:induction false} OneMoreListed(now: seq<Local>, locals: seq<Local>, created: map<nat, Created>,
                                         handleToVa: map<nat, nat>, created0: map<nat, Created>,
                                         handleToVa0: map<nat, nat>, exports: seq<Export>, l: Local)
    requires IsListing(now, created, handleToVa, exports) && IsListing(locals, created0, handleToVa0, exports)
    requires l.handle !in created0 && l.handle !in handleToVa0 && !ExportedAt(exports, l.va)
    requires created == created0[l.handle := Created(l.size, l.dev)] && handleToVa == handleToVa0[l.handle := l.va]
    ensures OneMoreIn(now, locals, l)
  {
    forall m | m in now
      ensures m in locals || m == l
    {
      var i :| 0 <= i < |now| && now[i] == m;
      assert IsListed(now[i], created, handleToVa, exports);
      if m.handle != l.handle {
        ListedIs(locals, created0, handleToVa0, exports, m);
      }
    }
    forall m | m in locals
      ensures m in now
    {
      var i :| 0 <= i < |locals| && locals[i] == m;
      assert IsListed(locals[i], created0, handleToVa0, exports);
      ListedIs(now, created, handleToVa, exports, m);
    }
    ListedIs(now, created, handleToVa, exports, l);
  }

  lemma {:induction false} ListedIs(locals: seq<Local>, created: map<nat, Created>, handleToVa: map<nat, nat>,
                                    exports: seq<Export>, l: Local)
    requires IsListing(locals, created, handleToVa, exports) && IsListed(l, created, handleToVa, exports)
    ensures l in locals
  {
    assert HasRecord(locals, l.handle);
    var i :| 0 <= i < |locals| && locals[i].handle == l.handle;
    assert IsListed(locals[i], created, handleToVa, exports);
  }

  lemma {:induction false} UpAmong(locals: seq<Local>, view: View, m: Local)
    requires LocalsUp(locals, view) && m in locals
    ensures LocalUp(m, view)
  {
  }

  lemma {:induction false} OneMoreUp(now: seq<Local>, locals: seq<Local>, view: View, was: View, l: Local)
    requires LocalsUp(locals, was) && OneMoreMapped(view, was, l) && OneMoreIn(now, locals, l)
    requires forall i, j | 0 <= i < j < |now| :: now[i].handle < now[j].handle
    requires forall h | h in was.handles :: h in was.issued
    ensures LocalsUp(now, view)
  {
    forall i | 0 <= i < |now|
      ensures LocalUp(now[i], view)
    {
      StillUpOne(now, locals, view, was, l, now[i]);
    }
    forall i, j | 0 <= i < j < |now|
      ensures now[i].va != now[j].va
    {
      StillUpOne(now, locals, view, was, l, now[i]);
      StillUpOne(now, locals, view, was, l, now[j]);
      if now[i] != l && now[j] != l {
        var a :| 0 <= a < |locals| && locals[a] == now[i];
        var b :| 0 <= b < |locals| && locals[b] == now[j];
        assert a < b || b < a;
      }
    }
  }

  lemma {:induction false} StillUpOne(now: seq<Local>, locals: seq<Local>, view: View, was: View, l: Local, m: Local)
    requires LocalsUp(locals, was) && OneMoreMapped(view, was, l) && OneMoreIn(now, locals, l) && m in now
    requires forall h | h in was.handles :: h in was.issued
    ensures LocalUp(m, view) && (m != l ==> m in locals && m.va in was.mapped)
  {
    if m != l {
      UpAmong(locals, was, m);
    }
  }

  lemma {:induction false} OneMorePlace(now: seq<Local>, locals: seq<Local>, l: Local)
    requires OneMoreIn(now, locals, l)
    ensures Places(now) == Places(locals) + {Place(l.va, l.size, l.dev)}
  {
  }

  lemma {:induction false} StillApart(exports: seq<Export>, imports: seq<Import>, locals: seq<Local>, now: seq<Local>,
                                      l: Local)
    requires Separate(exports, imports, locals) && OneMoreIn(now, locals, l)
    requires forall i | 0 <= i < |exports| :: exports[i].handle != l.handle
    requires forall i | 0 <= i < |imports| :: imports[i].va != l.va
    ensures Separate(exports, imports, now)
  {
    forall j | 0 <= j < |now|
      ensures now[j] in locals || now[j] == l
    {
    }
  }

  lemma {:induction false} UpMore(exports: seq<Export>, view: View, blocks: Blocks, was: View, old_: Blocks,
                                  contents: seq<seq<byte>>)
    requires Up(exports, was, old_, contents) && Grown(old_, blocks) && SubMap(was.mapped, view.mapped)
    ensures Up(exports, view, blocks, contents)
  {
    forall i | 0 <= i < |exports|
      ensures UpOne(exports[i], view, blocks, contents[i])
    {
      assert UpOne(exports[i], was, old_, contents[i]);
    }
  }

  /** A process that maps and exports its first allocation gets there; `AddLocal` goes on from it. */
  method FirstExport(machine: Machine, va: nat, size: nat, dev: nat)
    returns (p: Process, ghost contents: seq<seq<byte>>)
    requires size > 0
    modifies machine
    ensures fresh(p) && p.machine == machine && Tables(p) && AllIssued(p)
    ensures Together(p, contents) && |p.exports| == 1 && p.exports[0].alloc.va == va && Locals(p) == []
  {
    p := new Process(machine, 1);
    contents := MakeFirst(p, va, size, dev);
    NothingListed(p.created, p.handleToVa, p.exports);
  }

  method MakeFirst(p: Process, va: nat, size: nat, dev: nat) returns (ghost contents: seq<seq<byte>>)
    requires Tables(p) && p.exports == [] && p.imports == [] && p.importedHandles == {} && p.view.mapped == map[]
    requires p.created == map[] && p.handleToVa == map[] && size > 0
    modifies p, p.machine
    ensures Tables(p) && AllIssued(p) && |p.exports| == 1 && Active(p.exports[0]) && p.exports[0].alloc.va == va
    ensures Up(p.exports, p.view, p.machine.blocks, contents)
    ensures p.imports == [] && p.exportBuf == old(p.exportBuf)
    ensures forall h | h in p.handleToVa :: p.handleToVa[h] == va
  {
    var h := HookCreate(p, size, dev, true);
    HookMap(p, va, size, h);
    var fd := HookExport(p, h);
    contents := [BytesAt(p.view, p.machine.blocks, va, size)];
    assert UpOne(p.exports[0], p.view, p.machine.blocks, contents[0]);
  }

  lemma {:induction false} NothingListed(created: map<nat, Created>, handleToVa: map<nat, nat>, exports: seq<Export>)
    requires forall h | h in handleToVa :: ExportedAt(exports, handleToVa[h])
    ensures LocalsOf(created, handleToVa, exports) == []
  {
    assert Unexported(created, handleToVa, exports) == {};
    assert |Ascending(Unexported(created, handleToVa, exports))| == 0;
  }
}

/** The round trip of the cuMem allocations that were never exported (src/ipc_hooks.cpp): they are
    collected from the tables, saved and taken down, and later backed, refilled and renumbered. */
module LocalRebuild {
  import opened Wrappers
  import opened Layout
  import opened Ordered
  import opened Fabric
  import opened ExportLayout
  import opened IpcProcess
  import opened IpcHooks
  import LA = LocalAllocs
  import AccessLog

  type Local = LA.Local

  // ----- collecting -----

  /** The handles that are collected: registered, with an address that is no export's. */
  function Unexported(created: map<nat, Created>, handleToVa: map<nat, nat>, exports: seq<Export>): set<nat> {
    set h | h in created && h in handleToVa && !ExportedAt(exports, handleToVa[h])
  }

  function RecordOf(created: map<nat, Created>, handleToVa: map<nat, nat>, h: nat): Local
    requires h in created && h in handleToVa
  {
    LA.Local(h, handleToVa[h], created[h].size, created[h].device)
  }

  ghost predicate IsListing(locals: seq<Local>, created: map<nat, Created>, handleToVa: map<nat, nat>,
                            exports: seq<Export>) {
    && (forall i | 0 <= i < |locals| :: IsListed(locals[i], created, handleToVa, exports))
    && (forall i, j | 0 <= i < j < |locals| :: locals[i].handle < locals[j].handle)
    && (forall h | h in Unexported(created, handleToVa, exports) :: HasRecord(locals, h))
  }

  ghost predicate IsListed(l: Local, created: map<nat, Created>, handleToVa: map<nat, nat>, exports: seq<Export>) {
    l.handle in Unexported(created, handleToVa, exports) && l == RecordOf(created, handleToVa, l.handle)
  }

  ghost predicate HasRecord(locals: seq<Local>, h: nat) {
    exists i :: 0 <= i < |locals| && locals[i].handle == h
  }

  /** The allocations to save, in the order of their handles. */
  function LocalsOf(created: map<nat, Created>, handleToVa: map<nat, nat>, exports: seq<Export>): (locals: seq<Local>)
    ensures IsListing(locals, created, handleToVa, exports)
  {
    var q := Ascending(Unexported(created, handleToVa, exports));
    assert forall i | 0 <= i < |q| :: q[i] in Unexported(created, handleToVa, exports);
    var locals := seq(|q|, i requires 0 <= i < |q| => RecordOf(created, handleToVa, q[i]));
    ListingOf(q, locals, created, handleToVa, exports);
    locals
  }

  /** A record is listed if and only if its handle is registered with its address, size and device, and no
      export is mapped at that address. */
  lemma {:induction false} ListedExactlyWhen(created: map<nat, Created>, handleToVa: map<nat, nat>,
                                             exports: seq<Export>, l: Local)
    ensures l in LocalsOf(created, handleToVa, exports) <==>
            && l.handle in created && created[l.handle] == Created(l.size, l.dev)
            && l.handle in handleToVa && handleToVa[l.handle] == l.va
            && forall i | 0 <= i < |exports| && exports[i].alloc.mapped :: exports[i].alloc.va != l.va
  {
    var locals := LocalsOf(created, handleToVa, exports);
    if l.handle in Unexported(created, handleToVa, exports) {
      assert HasRecord(locals, l.handle);
      var i :| 0 <= i < |locals| && locals[i].handle == l.handle;
      assert IsListed(locals[i], created, handleToVa, exports);
      assert l == locals[i] <==> l == RecordOf(created, handleToVa, l.handle);
    }
    if l in locals {
      var i :| 0 <= i < |locals| && locals[i] == l;
      assert IsListed(locals[i], created, handleToVa, exports);
    }
  }

  lemma {:induction false} ListingOf(q: seq<nat>, locals: seq<Local>, created: map<nat, Created>,
                                     handleToVa: map<nat, nat>, exports: seq<Export>)
    requires StrictlyAscending(q) && forall h :: h in q <==> h in Unexported(created, handleToVa, exports)
    requires |locals| == |q| && forall i | 0 <= i < |q| ::
             locals[i].handle == q[i] && IsListed(locals[i], created, handleToVa, exports)
    ensures IsListing(locals, created, handleToVa, exports)
  {
    forall h | h in Unexported(created, handleToVa, exports)
      ensures HasRecord(locals, h)
    {
      var i :| 0 <= i < |q| && q[i] == h;
      assert locals[i].handle == h;
    }
  }

  /** Its handle keeps the memory behind its address, which is mapped whole. */
  ghost predicate LocalUp(l: Local, view: View) {
    && l.size > 0 && l.handle in view.handles && l.va in view.mapped
    && view.mapped[l.va].size == l.size && view.mapped[l.va].block == view.handles[l.handle]
  }

  ghost predicate LocalsUp(locals: seq<Local>, view: View) {
    (forall i | 0 <= i < |locals| :: LocalUp(locals[i], view)) && Apart(locals)
  }

  ghost predicate Apart(locals: seq<Local>) {
    forall i, j | 0 <= i < j < |locals| :: locals[i].va != locals[j].va
  }

  ghost predicate OwnHandles(locals: seq<Local>, issued: set<nat>) {
    && (forall i | 0 <= i < |locals| :: locals[i].handle in issued)
    && (forall i, j | 0 <= i < j < |locals| :: locals[i].handle != locals[j].handle)
  }

  // ----- teardown -----

  ghost function VasOf(records: seq<Local>, n: nat): set<nat>
    requires n <= |records|
  {
    set i: nat | i < n :: records[i].va
  }

  ghost function HandlesOf(records: seq<Local>, n: nat): set<nat>
    requires n <= |records|
  {
    set i: nat | i < n :: records[i].handle
  }

  lemma {:induction false} OneMore(records: seq<Local>, n: nat)
    requires n < |records|
    ensures VasOf(records, n + 1) == VasOf(records, n) + {records[n].va}
    ensures HandlesOf(records, n + 1) == HandlesOf(records, n) + {records[n].handle}
  {
  }

  /** Mapped at its recorded size, if at all. */
  ghost predicate Whole(records: seq<Local>, view: View) {
    forall i | 0 <= i < |records| && records[i].va in view.mapped :: view.mapped[records[i].va].size == records[i].size
  }

  /** Phase 3 of ipc_save_and_teardown_local_allocs. */
  method DropLocals(p: Process, records: seq<Local>)
    modifies p`view
    ensures LessThan(p.view, old(p.view)) && p.view.fds == old(p.view).fds
    ensures p.machine.obliging ==> p.view.handles == old(p.view).handles - HandlesOf(records, |records|)
    ensures p.machine.obliging && Whole(records, old(p.view)) ==>
              p.view.mapped == old(p.view).mapped - VasOf(records, |records|)
  {
    assert VasOf(records, 0) == {} && HandlesOf(records, 0) == {};
    assert p.view.mapped - {} == p.view.mapped && p.view.handles - {} == p.view.handles;
    for i := 0 to |records|
      invariant LessThan(p.view, old(p.view)) && p.view.fds == old(p.view).fds
      invariant p.machine.obliging ==> p.view.handles == old(p.view).handles - HandlesOf(records, i)
      invariant p.machine.obliging && Whole(records, old(p.view)) ==>
                  p.view.mapped == old(p.view).mapped - VasOf(records, i)
    {
      var l := records[i];
      OneMore(records, i);
      RemoveMore(old(p.view).handles, HandlesOf(records, i), l.handle);
      RemoveMore(old(p.view).mapped, VasOf(records, i), l.va);
      p.Drop(l.va, l.size, l.handle);
    }
  }

  /** What a save leaves: the records by device, and every readable one in the buffer, which the save has
      filled exactly. */
  ghost predicate SavedLocals(locals: seq<Local>, records: seq<Local>, buf: seq<byte>, view: View, blocks: Blocks,
                              pinned: bool, obliging: bool) {
    && LA.IsGrouping(locals, records) && |buf| == LA.Offset(locals, |locals|)
    && (!pinned ==> LA.AllReadable(locals, view, blocks))
    && (!pinned || obliging ==> LA.ReadableSaved(buf, locals, view, blocks))
  }

  /** How the local part of the teardown handler ends: with nothing to save it does nothing. */
  ghost predicate TornLocals(ok: bool, locals: seq<Local>, records: seq<Local>, buf: seq<byte>, was: View,
                             blocks: Blocks, pinned: bool, obliging: bool) {
    if LA.Offset(locals, |locals|) == 0 then ok && records == [] && buf == []
    else
      && (ok ==> SavedLocals(locals, records, buf, was, blocks, pinned, obliging))
      && (obliging ==> (ok <==> pinned || LA.AllReadable(locals, was, blocks)))
  }

  /** The save, if there is anything to save, into a buffer of exactly the size it needs. */
  method SaveAll(p: Process, locals: seq<Local>, pinned: bool) returns (ok: bool, records: seq<Local>, buf: seq<byte>)
    ensures TornLocals(ok, locals, records, buf, p.view, p.machine.blocks, pinned, p.machine.obliging)
  {
    ok, records, buf := true, [], [];
    if LA.Offset(locals, |locals|) > 0 {
      ok := p.machine.Accepts();
      if ok {
        ok, records, buf := LA.SaveLocals(p.machine, p.view, locals, seq(LA.Offset(locals, |locals|), i => 0), pinned);
      }
    }
  }

  /** The local part of the teardown handler: save and take down, if there are any. When it fails, nothing
      has been taken down. */
  method TeardownLocals(p: Process, pinned: bool) returns (ok: bool, records: seq<Local>, buf: seq<byte>)
    modifies p`view
    ensures LessThan(p.view, old(p.view)) && p.view.fds == old(p.view).fds
    ensures !ok ==> p.view == old(p.view)
    ensures TornLocals(ok, LocalsOf(p.created, p.handleToVa, p.exports), records, buf, old(p.view), p.machine.blocks,
                       pinned, p.machine.obliging)
    ensures ok && p.machine.obliging ==> p.view.handles == old(p.view).handles - HandlesOf(records, |records|)
    ensures ok && p.machine.obliging && Whole(records, old(p.view)) ==>
              p.view.mapped == old(p.view).mapped - VasOf(records, |records|)
  {
    var locals := LocalsOf(p.created, p.handleToVa, p.exports);
    ok, records, buf := SaveAll(p, locals, pinned);
    if ok {
      DropLocals(p, records);
    }
  }

  // ----- rebuild -----

  /** The rebuild loop backs a record as it backs an export that is down and was never granted anything
      through its record. */
  function AsExport(l: Local): Export {
    Export(Alloc(0, l.va, l.size, true, Some(l.dev), None), 0, None, true, None)
  }

  function AsExports(records: seq<Local>): (recs: seq<Export>)
    ensures |recs| == |records| && forall i | 0 <= i < |recs| :: recs[i] == AsExport(records[i])
  {
    seq(|records|, i requires 0 <= i < |records| => AsExport(records[i]))
  }

  /** The addresses of the records are different, and nothing is mapped there. */
  ghost predicate Away(records: seq<Local>, view: View) {
    Apart(records) && forall i | 0 <= i < |records| :: records[i].va !in view.mapped
  }

  /** The records that the driver gives memory for. */
  predicate Wanted(records: seq<Local>, refused: Refusals, k: nat)
    requires k < |records|
  {
    !refused(k) && records[k].size > 0
  }

  /** The entries among the first i records, when the driver refuses only what it is said to refuse. */
  ghost predicate Placed(entries: seq<Rebuilt>, records: seq<Local>, refused: Refusals, i: nat, offset: nat) {
    && i <= |records| && offset == LA.RebuildOffset(records, refused, i)
    && (forall k | 0 <= k < |entries| ::
          entries[k].idx < i && entries[k].offset == LA.RebuildOffset(records, refused, entries[k].idx))
    && (forall j | 0 <= j < i && Wanted(records, refused, j) :: EntryFor(entries, j))
  }

  lemma {:induction false} PlacedSkip(entries: seq<Rebuilt>, records: seq<Local>, refused: Refusals, i: nat,
                                      offset: nat)
    requires Placed(entries, records, refused, i, offset) && i < |records| && !Wanted(records, refused, i)
    ensures Placed(entries, records, refused, i + 1, offset)
  {
  }

  lemma {:induction false} PlacedAdd(entries: seq<Rebuilt>, records: seq<Local>, refused: Refusals, i: nat, offset: nat,
                                     r: Rebuilt)
    requires Placed(entries, records, refused, i, offset) && i < |records| && !refused(i)
    requires r.idx == i && r.offset == offset
    ensures Placed(entries + [r], records, refused, i + 1, offset + records[i].size)
  {
    var more := entries + [r];
    assert more[|entries|] == r;
    forall j | 0 <= j < i + 1 && Wanted(records, refused, j)
      ensures EntryFor(more, j)
    {
      if j < i {
        assert EntryFor(entries, j);
        var k :| 0 <= k < |entries| && entries[k].idx == j;
        assert more[k].idx == j;
      }
    }
  }

  lemma {:induction false} StillAway(i: nat, entries: seq<Rebuilt>, records: seq<Local>, view: View, was: View,
                                     refused: Refusals, obliging: bool)
    requires i < |records| && Away(records, was)
    requires Chosen(entries, AsExports(records), view, was, refused, i, obliging)
    ensures records[i].va !in view.mapped
  {
  }

  lemma {:induction false} BackingStarts(records: seq<Local>, recs: seq<Export>, refused: Refusals, view: View,
                                         blocks: Blocks, obliging: bool, log: map<nat, seq<AccessLog.Desc>>)
    requires view.Valid(blocks)
    ensures Backing(0, [], recs, log, view, blocks, view, blocks, refused, obliging)
    ensures Placed([], records, refused, 0, 0)
  {
  }

  /** Phase A of ipc_rebuild_local_allocs. */
  method BackLocals(p: Process, records: seq<Local>, refused: Refusals)
    returns (entries: seq<Rebuilt>, ghost offset: nat)
    requires p.view.Valid(p.machine.blocks)
    modifies p`view, p.machine
    ensures Backing(|records|, entries, AsExports(records), p.log, p.view, p.machine.blocks, old(p.view),
                    old(p.machine.blocks), refused, p.machine.obliging)
    ensures p.machine.obliging && Away(records, old(p.view)) ==>
              Placed(entries, records, refused, |records|, offset)
  {
    entries := [];
    var off := 0;
    BackingStarts(records, AsExports(records), refused, p.view, p.machine.blocks, p.machine.obliging, p.log);
    for i := 0 to |records|
      invariant Backing(i, entries, AsExports(records), p.log, p.view, p.machine.blocks, old(p.view),
                        old(p.machine.blocks), refused, p.machine.obliging)
      invariant p.machine.obliging && Away(records, old(p.view)) ==> Placed(entries, records, refused, i, off)
    {
      entries, off := BackLocal(p, records, i, entries, off, refused, old(p.view), old(p.machine.blocks));
    }
    offset := off;
  }

  method BackLocal(p: Process, records: seq<Local>, i: nat, entries: seq<Rebuilt>, offset: nat, refused: Refusals,
                   ghost was: View, ghost before: Blocks) returns (entries': seq<Rebuilt>, offset': nat)
    requires i < |records| && Backing(i, entries, AsExports(records), p.log, p.view, p.machine.blocks, was, before,
                                      refused, p.machine.obliging)
    requires p.machine.obliging && Away(records, was) ==> Placed(entries, records, refused, i, offset)
    modifies p`view, p.machine
    ensures Backing(i + 1, entries', AsExports(records), p.log, p.view, p.machine.blocks, was, before, refused,
                    p.machine.obliging)
    ensures p.machine.obliging && Away(records, was) ==> Placed(entries', records, refused, i + 1, offset')
  {
    var recs := AsExports(records);
    ghost var mid, midBlocks := p.view, p.machine.blocks;
    entries', offset' := entries, offset;
    var ok, r := false, Rebuilt(i, 0, 0);
    if Rebuildable(recs[i]) {
      ok, r := p.BackOne(recs, i, offset, refused(i));
    }
    if ok {
      BackingAdd(i, entries, r, recs, p.log, mid, midBlocks, p.view, p.machine.blocks, was, before, refused,
                 p.machine.obliging);
      entries', offset' := entries + [r], offset + records[i].size;
    } else {
      BackingSkip(i, entries, recs, p.log, mid, midBlocks, p.view, p.machine.blocks, was, before, refused,
                  p.machine.obliging);
    }
    if p.machine.obliging && Away(records, was) {
      StillAway(i, entries, records, mid, was, refused, true);
      if ok {
        PlacedAdd(entries, records, refused, i, offset, r);
      } else {
        PlacedSkip(entries, records, refused, i, offset);
      }
    }
  }

  /** Entry r's record after its tables have been brought up to date, and every other record as before. */
  ghost predicate Handed(k: nat, order: seq<nat>, entries: seq<Rebuilt>, records: seq<Local>, after: seq<Local>) {
    && |after| == |records| && k <= |order| && IsPermutation(order, |entries|)
    && (forall j | 0 <= j < |entries| :: entries[j].idx < |records|)
    && (forall m | 0 <= m < k :: HandedOne(entries[order[m]], records, after))
    && (forall m | k <= m < |order| :: after[entries[order[m]].idx] == records[entries[order[m]].idx])
    && (forall i | 0 <= i < |records| && !EntryFor(entries, i) :: after[i] == records[i])
  }

  ghost predicate HandedOne(r: Rebuilt, records: seq<Local>, after: seq<Local>)
    requires r.idx < |records| == |after|
  {
    after[r.idx] == records[r.idx].(handle := r.handle)
  }

  /** The entries stand for different records, and have handles that were never given out before. */
  ghost predicate NewlyHeld(entries: seq<Rebuilt>, records: seq<Local>, issued: set<nat>) {
    && (forall j | 0 <= j < |entries| :: entries[j].idx < |records| && entries[j].handle !in issued)
    && (forall a, b | 0 <= a < b < |entries| ::
          entries[a].idx != entries[b].idx && entries[a].handle != entries[b].handle)
  }

  /** The handle of a record that has got a new one, old or new. */
  ghost predicate Involved(records: seq<Local>, after: seq<Local>, h: nat)
    requires |after| == |records|
  {
    exists i :: 0 <= i < |records| && after[i].handle != records[i].handle
                && (h == records[i].handle || h == after[i].handle)
  }

  /** A record with a new handle is registered under it, and no longer under the old one. */
  ghost predicate RenumberedOne(l: Local, l': Local, created: map<nat, Created>, handleToVa: map<nat, nat>,
                                issued: set<nat>) {
    && l' == l.(handle := l'.handle)
    && (l'.handle != l.handle ==>
         && l'.handle !in issued && l'.handle in created && l'.handle in handleToVa
         && RecordOf(created, handleToVa, l'.handle) == l'
         && l.handle !in created && l.handle !in handleToVa)
  }

  /** What the rebuild does to the tables: the records it backed have changed their handles, and nothing
      else has changed. */
  ghost predicate Renumbered(records: seq<Local>, after: seq<Local>, created: map<nat, Created>,
                             handleToVa: map<nat, nat>, created0: map<nat, Created>, handleToVa0: map<nat, nat>,
                             issued: set<nat>) {
    && |after| == |records|
    && (forall i | 0 <= i < |records| :: RenumberedOne(records[i], after[i], created, handleToVa, issued))
    && (forall h | !Involved(records, after, h) ::
          SameEntry(created, created0, h) && SameEntry(handleToVa, handleToVa0, h))
  }

  lemma {:induction false} HandedNext(k: nat, order: seq<nat>, entries: seq<Rebuilt>, records: seq<Local>,
                                      mid: seq<Local>)
    requires Handed(k, order, entries, records, mid) && k < |order|
    requires forall a, b | 0 <= a < b < |entries| :: entries[a].idx != entries[b].idx
    ensures var r := entries[order[k]];
            Handed(k + 1, order, entries, records, mid[r.idx := mid[r.idx].(handle := r.handle)])
  {
  }

  /** The next entry's handle is nobody's yet. */
  lemma {:induction false} HandleIsNew(k: nat, order: seq<nat>, entries: seq<Rebuilt>, records: seq<Local>,
                                       mid: seq<Local>, issued: set<nat>)
    requires Handed(k, order, entries, records, mid) && k < |order|
    requires NewlyHeld(entries, records, issued) && OwnHandles(records, issued)
    ensures forall i | 0 <= i < |mid| :: mid[i].handle != entries[order[k]].handle
  {
    forall i | 0 <= i < |mid|
      ensures mid[i].handle != entries[order[k]].handle
    {
      if EntryFor(entries, i) {
        var j :| 0 <= j < |entries| && entries[j].idx == i;
        assert j in order;
        var m :| 0 <= m < |order| && order[m] == j;
        if m < k {
          assert HandedOne(entries[order[m]], records, mid);
        }
      }
    }
  }

  lemma {:induction false} RenumberNext(records: seq<Local>, mid: seq<Local>, i: nat, h: nat,
                                        created: map<nat, Created>, handleToVa: map<nat, nat>,
                                        created0: map<nat, Created>, handleToVa0: map<nat, nat>, issued: set<nat>)
    requires Renumbered(records, mid, created, handleToVa, created0, handleToVa0, issued)
    requires OwnHandles(records, issued) && h !in issued
    requires i < |mid| && mid[i] == records[i] && forall j | 0 <= j < |mid| :: mid[j].handle != h
    ensures var l := records[i];
            Renumbered(records, mid[i := l.(handle := h)], created[h := Created(l.size, l.dev)] - {l.handle},
                       handleToVa[h := l.va] - {l.handle}, created0, handleToVa0, issued)
  {
    var l := records[i];
    var after, created', vas := mid[i := l.(handle := h)], created[h := Created(l.size, l.dev)] - {l.handle},
      handleToVa[h := l.va] - {l.handle};
    forall j | 0 <= j < |records|
      ensures RenumberedOne(records[j], after[j], created', vas, issued)
    {
      assert RenumberedOne(records[j], mid[j], created, handleToVa, issued);
    }
    forall x | !Involved(records, after, x)
      ensures SameEntry(created', created0, x) && SameEntry(vas, handleToVa0, x)
    {
      NotInvolved(records, mid, i, h, x);
    }
  }

  lemma {:induction false} NotInvolved(records: seq<Local>, mid: seq<Local>, i: nat, h: nat, x: nat)
    requires i < |mid| == |records| && mid[i] == records[i] && h != records[i].handle
    ensures !Involved(records, mid[i := records[i].(handle := h)], x) ==>
              !Involved(records, mid, x) && x != h && x != records[i].handle
  {
    var after := mid[i := records[i].(handle := h)];
    assert after[i].handle == h;
    if Involved(records, mid, x) {
      var j :| 0 <= j < |records| && mid[j].handle != records[j].handle
               && (x == records[j].handle || x == mid[j].handle);
      assert after[j] == mid[j];
    }
  }

  /** The tables after the copies: the new handle in, the old one out, for every entry. */
  method Renumber(p: Process, records: seq<Local>, entries: seq<Rebuilt>, order: seq<nat>, ghost issued: set<nat>)
    returns (after: seq<Local>)
    requires NewlyHeld(entries, records, issued) && OwnHandles(records, issued) && IsPermutation(order, |entries|)
    modifies p`created, p`handleToVa
    ensures Handed(|order|, order, entries, records, after)
    ensures Renumbered(records, after, p.created, p.handleToVa, old(p.created), old(p.handleToVa), issued)
  {
    after := records;
    for k := 0 to |order|
      invariant Handed(k, order, entries, records, after)
      invariant Renumbered(records, after, p.created, p.handleToVa, old(p.created), old(p.handleToVa), issued)
    {
      var r := entries[order[k]];
      var l := after[r.idx];
      HandedNext(k, order, entries, records, after);
      HandleIsNew(k, order, entries, records, after, issued);
      RenumberNext(records, after, r.idx, r.handle, p.created, p.handleToVa, old(p.created), old(p.handleToVa),
                   issued);
      p.created := p.created[r.handle := Created(l.size, l.dev)] - {l.handle};
      p.handleToVa := p.handleToVa[r.handle := l.va] - {l.handle};
      after := after[r.idx := l.(handle := r.handle)];
    }
  }

  /** A record that came back: a new handle, a new block mapped at its address with the rights of its log,
      and the bytes of its range of the buffer. */
  ghost predicate LocalBack(l: Local, l': Local, range: Option<seq<byte>>, view: View, blocks: Blocks, was: View,
                            old_: Blocks, log: map<nat, seq<AccessLog.Desc>>) {
    && l' == l.(handle := l'.handle) && l'.handle in view.handles && l'.handle !in was.issued
    && view.handles[l'.handle] in blocks && view.handles[l'.handle] !in old_
    && |blocks[view.handles[l'.handle]]| == l.size
    && l.va in view.mapped
    && view.mapped[l.va].block == view.handles[l'.handle] && view.mapped[l.va].size == l.size
    && AccessLog.GivenBack(if l.va in log then log[l.va] else [],
                           AccessLog.Desc(AccessLog.Location(AccessLog.DEVICE, l.dev), AccessLog.READ_WRITE),
                           view.mapped[l.va].rights)
    && (range.Some? ==> blocks[view.handles[l'.handle]] == range.value)
  }

  /** What becomes of record k. */
  ghost predicate LocalOutcome(records: seq<Local>, after: seq<Local>, refused: Refusals, buf: seq<byte>, k: nat,
                               view: View, blocks: Blocks, was: View, old_: Blocks, log: map<nat, seq<AccessLog.Desc>>)
    requires k < |records| == |after|
  {
    if Wanted(records, refused, k)
    then LocalBack(records[k], after[k], LA.RangeBack(records, refused, buf, k), view, blocks, was, old_, log)
    else after[k] == records[k] && records[k].va !in view.mapped
  }

  ghost predicate LocalOutcomes(records: seq<Local>, after: seq<Local>, refused: Refusals, buf: seq<byte>, view: View,
                                blocks: Blocks, was: View, old_: Blocks, log: map<nat, seq<AccessLog.Desc>>) {
    && |after| == |records|
    && forall k | 0 <= k < |records| :: LocalOutcome(records, after, refused, buf, k, view, blocks, was, old_, log)
  }

  lemma {:induction false} EntryOutcome(j: nat, entries: seq<Rebuilt>, order: seq<nat>, records: seq<Local>,
                                        after: seq<Local>, refused: Refusals, offset: nat, view: View, backed: Blocks,
                                        blocks: Blocks, was: View, old_: Blocks, buf: seq<byte>,
                                        log: map<nat, seq<AccessLog.Desc>>)
    requires BackedEntries(entries, AsExports(records), view, backed, was, old_, log) && j < |entries|
    requires Refilled(|order|, order, entries, AsExports(records), view, blocks, backed, buf, true)
    requires Placed(entries, records, refused, |records|, offset)
    requires Handed(|order|, order, entries, records, after)
    ensures var k := entries[j].idx;
            k < |records|
            && LocalBack(records[k], after[k], LA.RangeBack(records, refused, buf, k), view, blocks, was, old_, log)
  {
    var recs, r := AsExports(records), entries[j];
    assert j in order;
    var m :| 0 <= m < |order| && order[m] == j;
    assert BackedEntry(r, recs, view, backed, was, old_, log) && recs[r.idx] == AsExport(records[r.idx]);
    assert HandedOne(entries[order[m]], records, after);
    assert DataBack(entries[order[m]], SizeOf(entries[order[m]], recs), view, blocks, buf);
  }

  lemma {:induction false} OutcomesOf(entries: seq<Rebuilt>, order: seq<nat>, records: seq<Local>, after: seq<Local>,
                                      refused: Refusals, offset: nat, view: View, backed: Blocks, blocks: Blocks,
                                      was: View, old_: Blocks, buf: seq<byte>, log: map<nat, seq<AccessLog.Desc>>)
    requires BackedEntries(entries, AsExports(records), view, backed, was, old_, log) && Away(records, was)
    requires Refilled(|order|, order, entries, AsExports(records), view, blocks, backed, buf, true)
    requires Placed(entries, records, refused, |records|, offset)
    requires Chosen(entries, AsExports(records), view, was, refused, |records|, true)
    requires Handed(|order|, order, entries, records, after)
    ensures LocalOutcomes(records, after, refused, buf, view, blocks, was, old_, log)
  {
    forall k | 0 <= k < |records|
      ensures LocalOutcome(records, after, refused, buf, k, view, blocks, was, old_, log)
    {
      if Wanted(records, refused, k) {
        assert EntryFor(entries, k);
        var j :| 0 <= j < |entries| && entries[j].idx == k;
        EntryOutcome(j, entries, order, records, after, refused, offset, view, backed, blocks, was, old_, buf, log);
      } else {
        LeftOut(k, entries, records, refused, view, backed, was, old_, log);
      }
    }
  }

  lemma {:induction false} LeftOut(k: nat, entries: seq<Rebuilt>, records: seq<Local>, refused: Refusals, view: View,
                                   backed: Blocks, was: View, old_: Blocks, log: map<nat, seq<AccessLog.Desc>>)
    requires BackedEntries(entries, AsExports(records), view, backed, was, old_, log) && Away(records, was)
    requires Chosen(entries, AsExports(records), view, was, refused, |records|, true)
    requires k < |records| && !Wanted(records, refused, k)
    ensures !EntryFor(entries, k) && records[k].va !in view.mapped
  {
    forall j | 0 <= j < |entries|
      ensures entries[j].idx != k
    {
      assert BackedEntry(entries[j], AsExports(records), view, backed, was, old_, log);
    }
  }

  /** What phases A and B did: the entries, the order they were visited in, the offset reached, and the blocks in
      between. */
  datatype Refit = Refit(entries: seq<Rebuilt>, order: seq<nat>, offset: nat, backed: Blocks)

  ghost predicate Refitted(t: Refit, records: seq<Local>, refused: Refusals, buf: seq<byte>, view: View, blocks: Blocks,
                           was: View, old_: Blocks, obliging: bool, log: map<nat, seq<AccessLog.Desc>>) {
    && IsPermutation(t.order, |t.entries|)
    && BackedEntries(t.entries, AsExports(records), view, t.backed, was, old_, log)
    && Chosen(t.entries, AsExports(records), view, was, refused, |records|, obliging)
    && Refilled(|t.order|, t.order, t.entries, AsExports(records), view, blocks, t.backed, buf, obliging)
    && (obliging && Away(records, was) ==> Placed(t.entries, records, refused, |records|, t.offset))
  }

  lemma {:induction false} Concluded(t: Refit, records: seq<Local>, after: seq<Local>, refused: Refusals,
                                     buf: seq<byte>, view: View, blocks: Blocks, was: View, old_: Blocks,
                                     obliging: bool, log: map<nat, seq<AccessLog.Desc>>)
    requires Refitted(t, records, refused, buf, view, blocks, was, old_, obliging, log)
    requires Handed(|t.order|, t.order, t.entries, records, after)
    ensures obliging && Away(records, was) ==>
              LocalOutcomes(records, after, refused, buf, view, blocks, was, old_, log)
  {
    if obliging && Away(records, was) {
      OutcomesOf(t.entries, t.order, records, after, refused, t.offset, view, t.backed, blocks, was, old_, buf, log);
    }
  }

  lemma {:induction false} RefitKnown(t: Refit, records: seq<Local>, refused: Refusals, buf: seq<byte>, view: View,
                                      blocks: Blocks, was: View, old_: Blocks, obliging: bool,
                                      log: map<nat, seq<AccessLog.Desc>>)
    requires Refitted(t, records, refused, buf, view, blocks, was, old_, obliging, log)
    ensures NewlyHeld(t.entries, records, was.issued) && IsPermutation(t.order, |t.entries|)
    ensures forall va | va in view.mapped && va !in was.mapped :: va in VasOf(records, |records|)
  {
    forall va | va in view.mapped && va !in was.mapped
      ensures va in VasOf(records, |records|)
    {
      assert EntryAtVa(t.entries, AsExports(records), va);
    }
  }

  /** ipc_rebuild_local_allocs. `refused` are the records the driver refuses new memory for: they are
      skipped and stay down. */
  method RebuildLocals(p: Process, records: seq<Local>, refused: Refusals, buf: seq<byte>) returns (after: seq<Local>)
    requires p.view.Valid(p.machine.blocks) && OwnHandles(records, p.view.issued)
    modifies p`view, p`created, p`handleToVa, p.machine
    ensures OnlyAdded(p.view, p.machine.blocks, old(p.view), old(p.machine.blocks))
    ensures Renumbered(records, after, p.created, p.handleToVa, old(p.created), old(p.handleToVa),
                       old(p.view).issued)
    ensures forall va | va in p.view.mapped && va !in old(p.view).mapped :: va in VasOf(records, |records|)
    ensures p.machine.obliging && Away(records, old(p.view)) ==>
              LocalOutcomes(records, after, refused, buf, p.view, p.machine.blocks, old(p.view),
                            old(p.machine.blocks), p.log)
  {
    ghost var t;
    ghost var was, old_ := p.view, p.machine.blocks;
    var entries, order;
    entries, order, t := BackAndRefill(p, records, refused, buf);
    RefitKnown(t, records, refused, buf, p.view, p.machine.blocks, was, old_, p.machine.obliging, p.log);
    after := Renumber(p, records, entries, order, was.issued);
    Concluded(t, records, after, refused, buf, p.view, p.machine.blocks, was, old_, p.machine.obliging, p.log);
  }

  method BackAndRefill(p: Process, records: seq<Local>, refused: Refusals, buf: seq<byte>)
    returns (entries: seq<Rebuilt>, order: seq<nat>, ghost t: Refit)
    requires p.view.Valid(p.machine.blocks)
    modifies p`view, p.machine
    ensures OnlyAdded(p.view, p.machine.blocks, old(p.view), old(p.machine.blocks))
    ensures t.entries == entries && t.order == order
    ensures Refitted(t, records, refused, buf, p.view, p.machine.blocks, old(p.view), old(p.machine.blocks),
                     p.machine.obliging, p.log)
  {
    ghost var was, old_, recs, offset := p.view, p.machine.blocks, AsExports(records), 0;
    entries, offset := BackLocals(p, records, refused);
    ghost var backed := p.machine.blocks;
    EntriesReady(entries, recs, p.view, p.machine.blocks, was, old_, p.log);
    order := RebuildOrder(entries, AsExports(records));
    p.RestoreData(AsExports(records), buf, entries, order);
    RefillKeeps(entries, order, recs, p.view, backed, p.machine.blocks, was, old_, buf, p.machine.obliging, p.log);
    t := Refit(entries, order, offset, backed);
  }

  // ----- the whole cycle -----

  /** Grouping loses nobody. */
  lemma {:induction false} AllGrouped(locals: seq<Local>, records: seq<Local>, issued: set<nat>)
    requires LA.IsGrouping(locals, records)
    ensures forall h | HasRecord(locals, h) :: HasRecord(records, h)
    ensures forall k | 0 <= k < |records| :: records[k] in locals
    ensures OwnHandles(locals, issued) ==> OwnHandles(records, issued)
    ensures Apart(locals) ==> Apart(records)
  {
    LA.OrderDistinct(locals);
    forall h | HasRecord(locals, h)
      ensures HasRecord(records, h)
    {
      var i :| 0 <= i < |locals| && locals[i].handle == h;
      var k := LA.Place(locals, i);
      assert records[k].handle == h;
    }
  }

  /** Locals that are up can all be read, and dropping them empties their addresses. */
  lemma {:induction false} UpIsReadable(locals: seq<Local>, view: View, blocks: Blocks)
    requires LocalsUp(locals, view) && view.Valid(blocks)
    ensures LA.AllReadable(locals, view, blocks)
  {
  }

  lemma {:induction false} RecordsUp(locals: seq<Local>, records: seq<Local>, view: View)
    requires LocalsUp(locals, view) && LA.IsGrouping(locals, records)
    ensures LocalsUp(records, view) && Whole(records, view)
  {
    AllGrouped(locals, records, {});
    forall k | 0 <= k < |records|
      ensures LocalUp(records[k], view)
    {
      assert records[k] in locals;
    }
  }

  lemma {:induction false} ListedHandles(locals: seq<Local>, view: View, created: map<nat, Created>,
                                         handleToVa: map<nat, nat>, exports: seq<Export>)
    requires IsListing(locals, created, handleToVa, exports) && Keyed(view, created, handleToVa)
    ensures OwnHandles(locals, view.issued)
  {
    forall i | 0 <= i < |locals|
      ensures locals[i].handle in view.issued
    {
      assert IsListed(locals[i], created, handleToVa, exports);
    }
  }

  lemma {:induction false} NothingNeeded(locals: seq<Local>, view: View)
    requires LocalsUp(locals, view)
    ensures LA.Offset(locals, |locals|) == 0 ==> locals == []
  {
    if locals != [] {
      assert LocalUp(locals[|locals| - 1], view);
    }
  }

  /** Between the halves of a cycle: the records are down and can be rebuilt, the save has read them all. */
  ghost predicate Between(locals: seq<Local>, records: seq<Local>, buf: seq<byte>, view: View, was: View,
                          blocks: Blocks) {
    && LA.IsGrouping(locals, records) && LA.ReadableSaved(buf, locals, was, blocks)
    && OwnHandles(records, was.issued) && Away(records, view)
    && LessThan(view, was) && view.handles == was.handles - HandlesOf(records, |records|)
    && view.mapped == was.mapped - VasOf(records, |records|)
  }

  lemma {:induction false} NowBetween(locals: seq<Local>, records: seq<Local>, buf: seq<byte>, view: View, was: View,
                                      blocks: Blocks)
    requires LocalsUp(locals, was) && OwnHandles(locals, was.issued) && LA.IsGrouping(locals, records)
    requires LA.ReadableSaved(buf, locals, was, blocks) && LessThan(view, was)
    requires view.handles == was.handles - HandlesOf(records, |records|)
    requires view.mapped == was.mapped - VasOf(records, |records|)
    ensures Between(locals, records, buf, view, was, blocks)
  {
    AllGrouped(locals, records, was.issued);
    forall i | 0 <= i < |records|
      ensures records[i].va !in view.mapped
    {
      assert records[i].va in VasOf(records, |records|);
    }
  }

  method TakeLocals(p: Process, pinned: bool, ghost locals: seq<Local>) returns (records: seq<Local>, buf: seq<byte>)
    requires p.machine.obliging && p.view.Valid(p.machine.blocks) && Keyed(p.view, p.created, p.handleToVa)
    requires locals == LocalsOf(p.created, p.handleToVa, p.exports) && LocalsUp(locals, p.view)
    modifies p`view
    ensures Between(locals, records, buf, p.view, old(p.view), p.machine.blocks)
  {
    ghost var was := p.view;
    UpIsReadable(locals, p.view, p.machine.blocks);
    ListedHandles(locals, p.view, p.created, p.handleToVa, p.exports);
    var ok;
    ok, records, buf := TeardownLocals(p, pinned);
    NothingNeeded(locals, was);
    assert ok;
    RecordsUp(locals, records, was);
    NowBetween(locals, records, buf, p.view, was, p.machine.blocks);
  }

  /** What a whole cycle does to the records: the save has put every local into the buffer, and each record shows
      its range of it, or is gone. `was` and `old_` are the process and the blocks before the cycle. */
  ghost predicate Cycled(locals: seq<Local>, records: seq<Local>, after: seq<Local>, refused: Refusals, buf: seq<byte>,
                         view: View, blocks: Blocks, was: View, old_: Blocks, log: map<nat, seq<AccessLog.Desc>>) {
    && LA.IsGrouping(locals, records) && LA.ReadableSaved(buf, locals, was, old_)
    && OwnHandles(records, was.issued) && Apart(records)
    && LocalOutcomes(records, after, refused, buf, view, blocks, was, old_, log)
  }

  lemma {:induction false} HaveCycled(locals: seq<Local>, records: seq<Local>, after: seq<Local>, refused: Refusals,
                                      buf: seq<byte>, mid: View, view: View, blocks: Blocks, was: View, old_: Blocks,
                                      log: map<nat, seq<AccessLog.Desc>>)
    requires Between(locals, records, buf, mid, was, old_)
    requires LocalOutcomes(records, after, refused, buf, view, blocks, mid, old_, log)
    ensures Cycled(locals, records, after, refused, buf, view, blocks, was, old_, log)
  {
    forall k | 0 <= k < |records|
      ensures LocalOutcome(records, after, refused, buf, k, view, blocks, was, old_, log)
    {
      assert LocalOutcome(records, after, refused, buf, k, view, blocks, mid, old_, log);
    }
  }

  /** Record k shows its own bytes again if the sizes before it add up to the same sum at the rebuild as at the
      save. */
  lemma {:induction false} OwnBytes(locals: seq<Local>, records: seq<Local>, after: seq<Local>, refused: Refusals,
                                    buf: seq<byte>, view: View, blocks: Blocks, was: View, old_: Blocks,
                                    log: map<nat, seq<AccessLog.Desc>>, k: nat)
    requires LocalsUp(locals, was) && was.Valid(old_) && k < |records|
    requires Cycled(locals, records, after, refused, buf, view, blocks, was, old_, log)
    requires Wanted(records, refused, k)
    requires LA.RebuildOffset(records, refused, k) == LA.Offset(locals, LA.Order(locals)[k])
    ensures Shows(view, blocks, records[k].va, LA.BytesOf(records[k], was, old_))
  {
    var i := LA.Order(locals)[k];
    WholeBytes(locals[i], was, old_);
    assert LA.SavedAt(buf, locals, i, was, old_);
    OwnRange(locals, records, buf, refused, k, was, old_);
    assert LocalOutcome(records, after, refused, buf, k, view, blocks, was, old_, log);
    ShownBack(records[k], after[k], LA.RangeBack(records, refused, buf, k), view, blocks, was, old_, log);
  }

  lemma {:induction false} WholeBytes(l: Local, view: View, blocks: Blocks)
    requires LocalUp(l, view) && view.Valid(blocks)
    ensures LA.CanRead(l, view, blocks) && |LA.BytesOf(l, view, blocks)| == l.size
  {
  }

  /** A record that came back shows the range it was given. */
  lemma {:induction false} ShownBack(l: Local, l': Local, range: Option<seq<byte>>, view: View, blocks: Blocks,
                                     was: View, old_: Blocks, log: map<nat, seq<AccessLog.Desc>>)
    requires LocalBack(l, l', range, view, blocks, was, old_, log)
    ensures range.Some? ==> Shows(view, blocks, l.va, range.value)
  {
  }

  /** The range of record k is its own when the offsets agree. */
  lemma {:induction false} OwnRange(locals: seq<Local>, records: seq<Local>, buf: seq<byte>, refused: Refusals, k: nat,
                                    was: View, old_: Blocks)
    requires LA.IsGrouping(locals, records) && k < |records|
    requires LA.SavedAt(buf, locals, LA.Order(locals)[k], was, old_)
    requires |LA.BytesOf(records[k], was, old_)| == records[k].size
    ensures LA.RebuildOffset(records, refused, k) == LA.Offset(locals, LA.Order(locals)[k]) ==>
              LA.RangeBack(records, refused, buf, k) == Some(LA.BytesOf(records[k], was, old_))
  {
    var i := LA.Order(locals)[k];
    LA.HeldRange(buf, LA.Offset(locals, i), LA.BytesOf(locals[i], was, old_));
  }

  /** The local part of one teardown and one rebuild, on a driver that refuses nothing but new memory for the
      records in `refused`. */
  method LocalCycle(p: Process, refused: Refusals, pinned: bool, ghost locals: seq<Local>)
    returns (records: seq<Local>, after: seq<Local>, ghost buf: seq<byte>)
    requires p.machine.obliging && p.view.Valid(p.machine.blocks) && Keyed(p.view, p.created, p.handleToVa)
    requires locals == LocalsOf(p.created, p.handleToVa, p.exports) && LocalsUp(locals, p.view)
    modifies p`view, p`created, p`handleToVa, p.machine
    ensures p.view.Valid(p.machine.blocks) && Grown(old(p.machine.blocks), p.machine.blocks)
    ensures Cycled(locals, records, after, refused, buf, p.view, p.machine.blocks, old(p.view), old(p.machine.blocks),
                   p.log)
    ensures Renumbered(records, after, p.created, p.handleToVa, old(p.created), old(p.handleToVa),
                       old(p.view).issued)
    ensures Elsewhere(records, p.view, old(p.view))
  {
    ghost var was, old_ := p.view, p.machine.blocks;
    var saved;
    records, saved := TakeLocals(p, pinned, locals);
    ghost var mid := p.view;
    LessThanValid(mid, was, old_);
    after := RebuildLocals(p, records, refused, saved);
    buf := saved;
    HaveCycled(locals, records, after, refused, buf, mid, p.view, p.machine.blocks, was, old_, p.log);
    UnchangedElsewhere(records, p.view, mid, was);
  }

  /** Handles and mappings that are no record's are as before, and a record's old handle is gone. */
  ghost predicate Elsewhere(records: seq<Local>, view: View, was: View) {
    && was.issued <= view.issued
    && (forall va | va !in VasOf(records, |records|) :: SameEntry(view.mapped, was.mapped, va))
    && (forall h | h in was.issued && h !in HandlesOf(records, |records|) :: SameEntry(view.handles, was.handles, h))
    && (forall h | h in was.issued && h in HandlesOf(records, |records|) :: h !in view.handles)
  }

  lemma {:induction false} UnchangedElsewhere(records: seq<Local>, view: View, mid: View, was: View)
    requires LessThan(mid, was) && mid.handles == was.handles - HandlesOf(records, |records|)
    requires mid.mapped == was.mapped - VasOf(records, |records|)
    requires SubMap(mid.handles, view.handles) && SubMap(mid.mapped, view.mapped)
    requires NewHandlesOnly(view, mid) && mid.issued <= view.issued
    requires forall va | va in view.mapped && va !in mid.mapped :: va in VasOf(records, |records|)
    ensures Elsewhere(records, view, was)
  {
  }

  /** Record k is up again, under another handle. */
  ghost predicate MovedUp(records: seq<Local>, after: seq<Local>, view: View) {
    && |after| == |records|
    && forall k | 0 <= k < |records| :: after[k].handle != records[k].handle && LocalUp(after[k], view)
  }

  lemma {:induction false} AllMoved(locals: seq<Local>, records: seq<Local>, after: seq<Local>, buf: seq<byte>,
                                    view: View, blocks: Blocks, was: View, old_: Blocks,
                                    log: map<nat, seq<AccessLog.Desc>>)
    requires LocalsUp(locals, was) && Cycled(locals, records, after, Nobody(), buf, view, blocks, was, old_, log)
    ensures MovedUp(records, after, view)
  {
    AllGrouped(locals, records, was.issued);
    forall k | 0 <= k < |records|
      ensures after[k].handle != records[k].handle && LocalUp(after[k], view)
    {
      assert records[k] in locals;
      assert LocalOutcome(records, after, Nobody(), buf, k, view, blocks, was, old_, log);
    }
  }

  ghost predicate AllRecorded(records: seq<Local>, created: map<nat, Created>, handleToVa: map<nat, nat>,
                              exports: seq<Export>) {
    forall h | h in Unexported(created, handleToVa, exports) :: HasRecord(records, h)
  }

  lemma {:induction false} MovedIsInvolved(records: seq<Local>, after: seq<Local>, view: View)
    requires MovedUp(records, after, view)
    ensures forall h | HasRecord(records, h) :: Involved(records, after, h)
  {
  }

  /** What is listed after a cycle without refusals is a record of that cycle under its new handle. */
  lemma {:induction false} ListedAfter(records: seq<Local>, after: seq<Local>, view: View, issued: set<nat>,
                                       exports: seq<Export>, created: map<nat, Created>, handleToVa: map<nat, nat>,
                                       created0: map<nat, Created>, handleToVa0: map<nat, nat>, l: Local)
    requires AllRecorded(records, created0, handleToVa0, exports) && MovedUp(records, after, view)
    requires Renumbered(records, after, created, handleToVa, created0, handleToVa0, issued)
    requires IsListed(l, created, handleToVa, exports)
    ensures l in after
  {
    MovedIsInvolved(records, after, view);
    if Involved(records, after, l.handle) {
      var k :| 0 <= k < |records| && after[k].handle != records[k].handle
               && (l.handle == records[k].handle || l.handle == after[k].handle);
      assert RenumberedOne(records[k], after[k], created, handleToVa, issued);
    }
  }

  /** A cycle without refusals leaves the locals as it found them, under new handles, so there can be another. */
  lemma {:induction false} UpAgain(locals: seq<Local>, records: seq<Local>, after: seq<Local>, buf: seq<byte>,
                                   view: View, blocks: Blocks, was: View, old_: Blocks,
                                   log: map<nat, seq<AccessLog.Desc>>, exports: seq<Export>, created: map<nat, Created>,
                                   handleToVa: map<nat, nat>, created0: map<nat, Created>, handleToVa0: map<nat, nat>)
    requires IsListing(locals, created0, handleToVa0, exports) && LocalsUp(locals, was)
    requires Cycled(locals, records, after, Nobody(), buf, view, blocks, was, old_, log)
    requires Renumbered(records, after, created, handleToVa, created0, handleToVa0, was.issued)
    ensures LocalsUp(LocalsOf(created, handleToVa, exports), view)
    ensures Places(LocalsOf(created, handleToVa, exports)) == Places(locals)
    ensures forall l | l in LocalsOf(created, handleToVa, exports) :: l.handle !in was.issued
  {
    var now := LocalsOf(created, handleToVa, exports);
    AllGrouped(locals, records, was.issued);
    AllMoved(locals, records, after, buf, view, blocks, was, old_, log);
    forall i | 0 <= i < |now|
      ensures now[i] in after
    {
      ListedAfter(records, after, view, was.issued, exports, created, handleToVa, created0, handleToVa0, now[i]);
    }
    AllNew(records, after, view, created, handleToVa, created0, handleToVa0, was.issued);
    KeptVas(records, after, created, handleToVa, created0, handleToVa0, was.issued);
    AmongThem(now, after, view);
    NoneLost(locals, records, after, view, exports, created, handleToVa, created0, handleToVa0, was.issued);
    SamePlaces(locals, records, after, now, created, handleToVa, created0, handleToVa0, was.issued);
  }

  lemma {:induction false} AllNew(records: seq<Local>, after: seq<Local>, view: View, created: map<nat, Created>,
                                  handleToVa: map<nat, nat>, created0: map<nat, Created>, handleToVa0: map<nat, nat>,
                                  issued: set<nat>)
    requires Renumbered(records, after, created, handleToVa, created0, handleToVa0, issued)
    requires MovedUp(records, after, view)
    ensures forall l | l in after :: l.handle !in issued
  {
    forall k | 0 <= k < |after|
      ensures after[k].handle !in issued
    {
      assert RenumberedOne(records[k], after[k], created, handleToVa, issued);
    }
  }

  lemma {:induction false} KeptVas(records: seq<Local>, after: seq<Local>, created: map<nat, Created>,
                                   handleToVa: map<nat, nat>, created0: map<nat, Created>, handleToVa0: map<nat, nat>,
                                   issued: set<nat>)
    requires Renumbered(records, after, created, handleToVa, created0, handleToVa0, issued) && Apart(records)
    ensures Apart(after) && VasOf(after, |after|) == VasOf(records, |records|)
  {
    forall i | 0 <= i < |records|
      ensures after[i].va == records[i].va
    {
      assert RenumberedOne(records[i], after[i], created, handleToVa, issued);
    }
  }

  /** Every record is listed under its new handle. */
  lemma {:induction false} NoneLost(locals: seq<Local>, records: seq<Local>, after: seq<Local>, view: View,
                                    exports: seq<Export>, created: map<nat, Created>, handleToVa: map<nat, nat>,
                                    created0: map<nat, Created>, handleToVa0: map<nat, nat>, issued: set<nat>)
    requires IsListing(locals, created0, handleToVa0, exports) && LA.IsGrouping(locals, records)
    requires Renumbered(records, after, created, handleToVa, created0, handleToVa0, issued)
    requires MovedUp(records, after, view)
    ensures forall k | 0 <= k < |after| :: after[k] in LocalsOf(created, handleToVa, exports)
  {
    AllGrouped(locals, records, issued);
    var now := LocalsOf(created, handleToVa, exports);
    forall k | 0 <= k < |after|
      ensures after[k] in now
    {
      assert RenumberedOne(records[k], after[k], created, handleToVa, issued) && records[k] in locals;
      assert after[k].handle in Unexported(created, handleToVa, exports);
      var i :| 0 <= i < |now| && now[i].handle == after[k].handle;
      assert IsListed(now[i], created, handleToVa, exports);
    }
  }

  /** An allocation, whatever its handle. */
  datatype Place = Place(va: nat, size: nat, dev: nat)

  ghost function Places(locals: seq<Local>): set<Place> {
    set l | l in locals :: Place(l.va, l.size, l.dev)
  }

  lemma {:induction false} PlacesOf(a: seq<Local>, b: seq<Local>)
    requires forall i | 0 <= i < |a| :: SomewhereIn(a[i], b)
    ensures Places(a) <= Places(b)
  {
    forall l | l in a
      ensures Place(l.va, l.size, l.dev) in Places(b)
    {
      var i :| 0 <= i < |a| && a[i] == l;
      assert SomewhereIn(a[i], b);
    }
  }

  ghost predicate SomewhereIn(l: Local, b: seq<Local>) {
    exists j :: 0 <= j < |b| && b[j].(handle := l.handle) == l
  }

  lemma {:induction false} SamePlaces(locals: seq<Local>, records: seq<Local>, after: seq<Local>, now: seq<Local>,
                                      created: map<nat, Created>, handleToVa: map<nat, nat>,
                                      created0: map<nat, Created>, handleToVa0: map<nat, nat>, issued: set<nat>)
    requires LA.IsGrouping(locals, records)
    requires Renumbered(records, after, created, handleToVa, created0, handleToVa0, issued)
    requires forall k | 0 <= k < |after| :: after[k] in now
    requires forall i | 0 <= i < |now| :: now[i] in after
    ensures Places(now) == Places(locals)
  {
    forall i | 0 <= i < |now|
      ensures SomewhereIn(now[i], locals)
    {
      var k :| 0 <= k < |after| && after[k] == now[i];
      assert RenumberedOne(records[k], after[k], created, handleToVa, issued);
      assert locals[LA.Order(locals)[k]].(handle := now[i].handle) == now[i];
    }
    forall i | 0 <= i < |locals|
      ensures SomewhereIn(locals[i], now)
    {
      var k := LA.Place(locals, i);
      assert RenumberedOne(records[k], after[k], created, handleToVa, issued);
      var j :| 0 <= j < |now| && now[j] == after[k];
      assert now[j].(handle := locals[i].handle) == locals[i];
    }
    PlacesOf(now, locals);
    PlacesOf(locals, now);
  }

  lemma {:induction false} AmongThem(now: seq<Local>, after: seq<Local>, view: View)
    requires forall i | 0 <= i < |now| :: now[i] in after
    requires forall i, j | 0 <= i < j < |now| :: now[i].handle < now[j].handle
    requires Apart(after) && forall k | 0 <= k < |after| :: LocalUp(after[k], view)
    ensures LocalsUp(now, view)
  {
    forall i, j | 0 <= i < j < |now|
      ensures now[i].va != now[j].va
    {
      var a :| 0 <= a < |after| && after[a] == now[i];
      var b :| 0 <= b < |after| && after[b] == now[j];
      assert a < b || b < a;
    }
  }

  ghost predicate NewAreHeld(records: seq<Local>, after: seq<Local>, view: View) {
    && |after| == |records|
    && forall k | 0 <= k < |records| && after[k].handle != records[k].handle :: after[k].handle in view.handles
  }

  lemma {:induction false} CycledAreHeld(locals: seq<Local>, records: seq<Local>, after: seq<Local>, refused: Refusals,
                                         buf: seq<byte>, view: View, blocks: Blocks, was: View, old_: Blocks,
                                         log: map<nat, seq<AccessLog.Desc>>)
    requires Cycled(locals, records, after, refused, buf, view, blocks, was, old_, log)
    ensures NewAreHeld(records, after, view)
  {
    forall k | 0 <= k < |records| && after[k].handle != records[k].handle
      ensures after[k].handle in view.handles
    {
      assert LocalOutcome(records, after, refused, buf, k, view, blocks, was, old_, log);
    }
  }

  lemma {:induction false} KeyedAgain(records: seq<Local>, after: seq<Local>, view: View, blocks: Blocks, was: View,
                                      created: map<nat, Created>, handleToVa: map<nat, nat>,
                                      created0: map<nat, Created>, handleToVa0: map<nat, nat>)
    requires Renumbered(records, after, created, handleToVa, created0, handleToVa0, was.issued)
    requires NewAreHeld(records, after, view)
    requires Keyed(was, created0, handleToVa0) && view.Valid(blocks) && was.issued <= view.issued
    ensures Keyed(view, created, handleToVa)
  {
    forall h | h in created || h in handleToVa
      ensures h in created && h in view.issued && h != 0
    {
      if Involved(records, after, h) {
        var k :| 0 <= k < |records| && after[k].handle != records[k].handle
                 && (h == records[k].handle || h == after[k].handle);
        assert RenumberedOne(records[k], after[k], created, handleToVa, was.issued);
      }
    }
  }

  /** With device ids nondecreasing in handle order every local gets its own bytes back. */
  lemma {:induction false} InOrderOwnBytes(locals: seq<Local>, records: seq<Local>, after: seq<Local>, buf: seq<byte>,
                                           view: View, blocks: Blocks, was: View, old_: Blocks,
                                           log: map<nat, seq<AccessLog.Desc>>)
    requires LA.Nondecreasing(locals) && LocalsUp(locals, was) && was.Valid(old_)
    requires Cycled(locals, records, after, Nobody(), buf, view, blocks, was, old_, log)
    ensures forall i | 0 <= i < |locals| ::
            Shows(view, blocks, locals[i].va, LA.BytesOf(locals[i], was, old_))
  {
    LA.GroupingIsIdentity(locals, records);
    forall i | 0 <= i < |locals|
      ensures Shows(view, blocks, locals[i].va, LA.BytesOf(locals[i], was, old_))
    {
      LA.OrderIsIdentity(locals, i);
      LA.NoRefusals(records, Nobody(), i);
      OwnBytes(locals, records, after, Nobody(), buf, view, blocks, was, old_, log, i);
    }
  }

  ghost predicate Steady(p: Process)
    reads p, p.machine
  {
    && p.view.Valid(p.machine.blocks) && Keyed(p.view, p.created, p.handleToVa)
    && LocalsUp(LocalsOf(p.created, p.handleToVa, p.exports), p.view)
  }

  lemma {:induction false} ListedIsNoExport(l: Local, created: map<nat, Created>, handleToVa: map<nat, nat>,
                                            exports: seq<Export>)
    requires IsListed(l, created, handleToVa, exports)
    ensures !ExportedAt(exports, l.va)
  {
  }

  /** No record's address is an export's. */
  lemma {:induction false} NoExportAmong(locals: seq<Local>, records: seq<Local>, created: map<nat, Created>,
                                         handleToVa: map<nat, nat>, exports: seq<Export>)
    requires IsListing(locals, created, handleToVa, exports) && LA.IsGrouping(locals, records)
    ensures forall va | va in VasOf(records, |records|) :: !ExportedAt(exports, va)
  {
    forall va | va in VasOf(records, |records|)
      ensures !ExportedAt(exports, va)
    {
      var k: nat :| k < |records| && records[k].va == va;
      ListedIsNoExport(locals[LA.Order(locals)[k]], created, handleToVa, exports);
    }
  }

  /** So exports that are up stay up, with their bytes. */
  lemma {:induction false} ExportsStayUp(exports: seq<Export>, records: seq<Local>, view: View, blocks: Blocks,
                                         was: View, old_: Blocks, contents: seq<seq<byte>>)
    requires forall va | va in VasOf(records, |records|) :: !ExportedAt(exports, va)
    requires Elsewhere(records, view, was) && Grown(old_, blocks)
    ensures Up(exports, was, old_, contents) ==> Up(exports, view, blocks, contents)
  {
    forall i | 0 <= i < |exports| && Up(exports, was, old_, contents)
      ensures UpOne(exports[i], view, blocks, contents[i])
    {
      assert UpOne(exports[i], was, old_, contents[i]) && ExportedAt(exports, exports[i].alloc.va);
      assert SameEntry(view.mapped, was.mapped, exports[i].alloc.va);
    }
  }

  /** A cycle without refusals: every local is mapped again at its address, tracked under one new handle, and
      with device ids in order it shows its own bytes. */
  method RoundTrip(p: Process, pinned: bool, ghost locals: seq<Local>)
    returns (records: seq<Local>, after: seq<Local>, ghost buf: seq<byte>)
    requires p.machine.obliging && Steady(p) && locals == LocalsOf(p.created, p.handleToVa, p.exports)
    modifies p`view, p`created, p`handleToVa, p.machine
    ensures Steady(p) && Grown(old(p.machine.blocks), p.machine.blocks)
    ensures Places(LocalsOf(p.created, p.handleToVa, p.exports)) == Places(locals)
    ensures Cycled(locals, records, after, Nobody(), buf, p.view, p.machine.blocks, old(p.view),
                   old(p.machine.blocks), p.log)
    ensures Renumbered(records, after, p.created, p.handleToVa, old(p.created), old(p.handleToVa),
                       old(p.view).issued)
    ensures Elsewhere(records, p.view, old(p.view))
    ensures forall cs :: Up(p.exports, old(p.view), old(p.machine.blocks), cs) ==>
                           Up(p.exports, p.view, p.machine.blocks, cs)
    ensures LA.Nondecreasing(locals) ==> forall i | 0 <= i < |locals| ::
              Shows(p.view, p.machine.blocks, locals[i].va, LA.BytesOf(locals[i], old(p.view), old(p.machine.blocks)))
  {
    ghost var was, old_, created0, vas0 := p.view, p.machine.blocks, p.created, p.handleToVa;
    records, after, buf := LocalCycle(p, Nobody(), pinned, locals);
    CycledAreHeld(locals, records, after, Nobody(), buf, p.view, p.machine.blocks, was, old_, p.log);
    KeyedAgain(records, after, p.view, p.machine.blocks, was, p.created, p.handleToVa, created0, vas0);
    UpAgain(locals, records, after, buf, p.view, p.machine.blocks, was, old_, p.log, p.exports, p.created, p.handleToVa,
            created0, vas0);
    NoExportAmong(locals, records, created0, vas0, p.exports);
    forall cs
      ensures Up(p.exports, was, old_, cs) ==> Up(p.exports, p.view, p.machine.blocks, cs)
    {
      ExportsStayUp(p.exports, records, p.view, p.machine.blocks, was, old_, cs);
    }
    if LA.Nondecreasing(locals) {
      InOrderOwnBytes(locals, records, after, buf, p.view, p.machine.blocks, was, old_, p.log);
    }
  }

  /** After any number of cycles the same allocations are up and listed. */
  method RoundTrips(p: Process, pinned: bool, n: nat)
    requires p.machine.obliging && Steady(p)
    modifies p`view, p`created, p`handleToVa, p.machine
    ensures Steady(p) && Grown(old(p.machine.blocks), p.machine.blocks)
    ensures Places(LocalsOf(p.created, p.handleToVa, p.exports))
            == Places(old(LocalsOf(p.created, p.handleToVa, p.exports)))
  {
    for i := 0 to n
      invariant Steady(p) && Grown(old(p.machine.blocks), p.machine.blocks)
      invariant Places(LocalsOf(p.created, p.handleToVa, p.exports))
                == Places(old(LocalsOf(p.created, p.handleToVa, p.exports)))
    {
      var records, after, buf := RoundTrip(p, pinned, LocalsOf(p.created, p.handleToVa, p.exports));
    }
  }

  /** The failing input: two allocations of one size on devices out of order show each other's bytes after a cycle in
      which every call succeeded. */
  method SwappedRun(p: Process, pinned: bool, ghost locals: seq<Local>)
    requires p.machine.obliging && Steady(p) && locals == LocalsOf(p.created, p.handleToVa, p.exports)
    requires |locals| == 2 && locals[0].dev > locals[1].dev && locals[0].size == locals[1].size
    modifies p`view, p`created, p`handleToVa, p.machine
    ensures Steady(p)
    ensures Shows(p.view, p.machine.blocks, locals[0].va,
                  LA.BytesOf(locals[1], old(p.view), old(p.machine.blocks)))
    ensures Shows(p.view, p.machine.blocks, locals[1].va,
                  LA.BytesOf(locals[0], old(p.view), old(p.machine.blocks)))
  {
    ghost var was, old_ := p.view, p.machine.blocks;
    var records, after, buf := RoundTrip(p, pinned, locals);
    SwappedShown(locals, records, after, buf, p.view, p.machine.blocks, was, old_, p.log);
  }

  lemma {:induction false} SwappedShown(locals: seq<Local>, records: seq<Local>, after: seq<Local>, buf: seq<byte>,
                                        view: View, blocks: Blocks, was: View, old_: Blocks,
                                        log: map<nat, seq<AccessLog.Desc>>)
    requires Cycled(locals, records, after, Nobody(), buf, view, blocks, was, old_, log)
    requires LocalsUp(locals, was) && was.Valid(old_)
    requires |locals| == 2 && locals[0].dev > locals[1].dev && locals[0].size == locals[1].size
    ensures Shows(view, blocks, locals[0].va, LA.BytesOf(locals[1], was, old_))
    ensures Shows(view, blocks, locals[1].va, LA.BytesOf(locals[0], was, old_))
  {
    WholeBytes(locals[0], was, old_);
    WholeBytes(locals[1], was, old_);
    LA.SwappedBytes(locals, records, was, old_, buf, Nobody());
    assert LocalOutcome(records, after, Nobody(), buf, 0, view, blocks, was, old_, log);
    assert LocalOutcome(records, after, Nobody(), buf, 1, view, blocks, was, old_, log);
    ShownBack(records[0], after[0], LA.RangeBack(records, Nobody(), buf, 0), view, blocks, was, old_, log);
    ShownBack(records[1], after[1], LA.RangeBack(records, Nobody(), buf, 1), view, blocks, was, old_, log);
  }

  /** A record the rebuild was refused is still listed under its old handle. */
  lemma {:induction false} StillListed(locals: seq<Local>, records: seq<Local>, after: seq<Local>, exports: seq<Export>,
                                       created: map<nat, Created>, handleToVa: map<nat, nat>,
                                       created0: map<nat, Created>, handleToVa0: map<nat, nat>, issued: set<nat>,
                                       k: nat)
    requires IsListing(locals, created0, handleToVa0, exports) && LA.IsGrouping(locals, records)
    requires OwnHandles(records, issued) && k < |records|
    requires Renumbered(records, after, created, handleToVa, created0, handleToVa0, issued)
    requires after[k] == records[k]
    ensures records[k] in LocalsOf(created, handleToVa, exports)
  {
    var now, l := LocalsOf(created, handleToVa, exports), records[k];
    AllGrouped(locals, records, issued);
    NobodyElse(records, after, created, handleToVa, issued, k);
    assert l in locals && IsListed(l, created0, handleToVa0, exports);
    assert l.handle in Unexported(created, handleToVa, exports);
    var i :| 0 <= i < |now| && now[i].handle == l.handle;
    assert IsListed(now[i], created, handleToVa, exports);
  }

  lemma {:induction false} NobodyElse(records: seq<Local>, after: seq<Local>, created: map<nat, Created>,
                                      handleToVa: map<nat, nat>, issued: set<nat>, k: nat)
    requires OwnHandles(records, issued) && k < |records| == |after| && after[k] == records[k]
    requires forall i | 0 <= i < |records| :: RenumberedOne(records[i], after[i], created, handleToVa, issued)
    ensures !Involved(records, after, records[k].handle)
  {
    forall i | 0 <= i < |records| && after[i].handle != records[i].handle
      ensures records[k].handle != records[i].handle && records[k].handle != after[i].handle
    {
      assert RenumberedOne(records[i], after[i], created, handleToVa, issued);
    }
  }

  /** One refused local stands in the way of the next save: on the synchronous path nothing is torn down any more. */
  method RefusedThenSave(p: Process, refused: Refusals, ghost locals: seq<Local>) returns (ok: bool)
    requires p.machine.obliging && Steady(p) && locals == LocalsOf(p.created, p.handleToVa, p.exports)
    requires exists k :: 0 <= k < |locals| && refused(k)
    modifies p`view, p`created, p`handleToVa, p.machine
    ensures !ok
  {
    RefusedCycle(p, refused, locals);
    var records, buf;
    ok, records, buf := TeardownLocals(p, false);
  }

  method RefusedCycle(p: Process, refused: Refusals, ghost locals: seq<Local>)
    requires p.machine.obliging && Steady(p) && locals == LocalsOf(p.created, p.handleToVa, p.exports)
    requires exists k :: 0 <= k < |locals| && refused(k)
    modifies p`view, p`created, p`handleToVa, p.machine
    ensures Stuck(LocalsOf(p.created, p.handleToVa, p.exports), p.view, p.machine.blocks)
  {
    ghost var was, created0, vas0 := p.view, p.created, p.handleToVa;
    var records, after, buf := LocalCycle(p, refused, false, locals);
    OneIsStuck(locals, records, after, refused, buf, p.view, p.machine.blocks, was, old(p.machine.blocks), p.log,
               p.exports, p.created, p.handleToVa, created0, vas0);
  }

  ghost predicate Stuck(now: seq<Local>, view: View, blocks: Blocks) {
    LA.Offset(now, |now|) > 0 && !LA.AllReadable(now, view, blocks)
  }

  lemma {:induction false} OneIsStuck(locals: seq<Local>, records: seq<Local>, after: seq<Local>, refused: Refusals,
                                      buf: seq<byte>, view: View, blocks: Blocks, was: View, old_: Blocks,
                                      log: map<nat, seq<AccessLog.Desc>>, exports: seq<Export>,
                                      created: map<nat, Created>, handleToVa: map<nat, nat>,
                                      created0: map<nat, Created>, handleToVa0: map<nat, nat>)
    requires IsListing(locals, created0, handleToVa0, exports) && LocalsUp(locals, was)
    requires Cycled(locals, records, after, refused, buf, view, blocks, was, old_, log)
    requires Renumbered(records, after, created, handleToVa, created0, handleToVa0, was.issued)
    requires exists k :: 0 <= k < |locals| && refused(k)
    ensures Stuck(LocalsOf(created, handleToVa, exports), view, blocks)
  {
    var k :| 0 <= k < |locals| && refused(k);
    LA.GroupedAll(locals);
    assert LocalOutcome(records, after, refused, buf, k, view, blocks, was, old_, log);
    StillListed(locals, records, after, exports, created, handleToVa, created0, handleToVa0, was.issued, k);
    AllGrouped(locals, records, was.issued);
    var now := LocalsOf(created, handleToVa, exports);
    var i :| 0 <= i < |now| && now[i] == records[k];
    assert records[k] in locals;
    LA.OffsetGrows(now, i, |now|);
    assert !LA.CanRead(now[i], view, blocks);
  }

  /** The rebuild gives the application's handle no successor: releasing it reaches nothing, and the
      new memory stays held under a handle the application was never given. */
  method ReleaseAfterCycle(p: Process, pinned: bool, h: nat, ghost locals: seq<Local>, ghost i: nat)
    returns (ok: bool, ghost held: nat)
    requires p.machine.obliging && Steady(p) && Tables(p)
    requires locals == LocalsOf(p.created, p.handleToVa, p.exports) 
    requires i < |locals| && h == locals[i].handle && h !in p.alias
    modifies p`view, p`created, p`handleToVa, p`importedHandles, p`vaToExport, p`log, p`imports, p`exports, p`alias,
             p.machine
    ensures !ok && HeldNew(p.view, held, locals[i].va, old(p.view).issued)
  {
    held := CycleAndHold(p, pinned, h, locals, i);
    ok := HookRelease(p, h);
  }

  method CycleAndHold(p: Process, pinned: bool, h: nat, ghost locals: seq<Local>, ghost i: nat)
    returns (ghost held: nat)
    requires p.machine.obliging && Steady(p) && Tables(p)
    requires locals == LocalsOf(p.created, p.handleToVa, p.exports)
    requires i < |locals| && h == locals[i].handle
    modifies p`view, p`created, p`handleToVa, p.machine
    ensures Tables(p) && h !in p.view.handles && HeldNew(p.view, held, locals[i].va, old(p.view).issued)
  {
    ghost var was, created0 := p.view, p.created;
    var records, after, buf := RoundTrip(p, pinned, locals);
    held := NewHolder(locals, records, after, buf, p.view, p.machine.blocks, was, old(p.machine.blocks), p.log, i);
    StillTabled(records, after, p.view, was, p.exports, p.created, p.handleToVa, created0, old(p.handleToVa));
  }

  /** The memory behind va is held by a handle that was not given out before. */
  ghost predicate HeldNew(view: View, held: nat, va: nat, issued: set<nat>) {
    held !in issued && held in view.handles && va in view.mapped && view.mapped[va].block == view.handles[held]
  }

  lemma {:induction false} NewHolder(locals: seq<Local>, records: seq<Local>, after: seq<Local>, buf: seq<byte>,
                                     view: View, blocks: Blocks, was: View, old_: Blocks,
                                     log: map<nat, seq<AccessLog.Desc>>, i: nat) returns (held: nat)
    requires LocalsUp(locals, was) && Cycled(locals, records, after, Nobody(), buf, view, blocks, was, old_, log)
    requires Elsewhere(records, view, was) && i < |locals|
    ensures locals[i].handle !in view.handles && HeldNew(view, held, locals[i].va, was.issued)
  {
    var k := LA.Place(locals, i);
    assert LocalUp(locals[i], was);
    assert LocalOutcome(records, after, Nobody(), buf, k, view, blocks, was, old_, log);
    assert records[k].handle in HandlesOf(records, |records|);
    held := after[k].handle;
  }

  lemma {:induction false} StillTabled(records: seq<Local>, after: seq<Local>, view: View, was: View,
                                       exports: seq<Export>, created: map<nat, Created>, handleToVa: map<nat, nat>,
                                       created0: map<nat, Created>, handleToVa0: map<nat, nat>)
    requires TablesOk(was, exports, created0, handleToVa0) && Keyed(view, created, handleToVa)
    requires Renumbered(records, after, created, handleToVa, created0, handleToVa0, was.issued)
    requires was.issued <= view.issued
    ensures TablesOk(view, exports, created, handleToVa)
  {
    forall i | 0 <= i < |exports|
      ensures PropsOk(exports[i], view.issued, created)
    {
      assert PropsOk(exports[i], was.issued, created0);
      if Involved(records, after, exports[i].handle) {
        var k :| 0 <= k < |records| && after[k].handle != records[k].handle
                 && (exports[i].handle == records[k].handle || exports[i].handle == after[k].handle);
        assert RenumberedOne(records[k], after[k], created, handleToVa, was.issued);
      }
    }
  }
}

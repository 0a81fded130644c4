/** The cuMem tracking tables of one process and the teardown and rebuild of its exports and imports
    (src/ipc_hooks.cpp). */
module IpcProcess {
  import opened Wrappers
  import opened Layout
  import opened Ordered
  import opened Grouping
  import opened HostBuffer
  import opened Fabric
  import opened ExportLayout
  import AccessLog

  /** IpcImportRecord. */
  datatype Import = Import(va: nat, size: nat, handle: nat, access: seq<AccessLog.Desc>, tornDown: bool)

  /** CuMemCreateRecord: size and the device of the allocation properties. */
  datatype Created = Created(size: nat, device: nat)

  /** The first n bytes a process reads at va; nothing when it cannot. */
  ghost function BytesAt(view: View, blocks: Blocks, va: nat, n: nat): (bytes: seq<byte>)
    ensures bytes != [] ==> |bytes| == n
  {
    if va in view.mapped && view.mapped[va].block in blocks
      && n <= view.mapped[va].size <= |blocks[view.mapped[va].block]|
    then blocks[view.mapped[va].block][..n] else []
  }

  ghost function ContentsOf(exports: seq<Export>, view: View, blocks: Blocks): (contents: seq<seq<byte>>)
    ensures |contents| == |exports|
    ensures forall i | 0 <= i < |exports| ::
            contents[i] == BytesAt(view, blocks, exports[i].alloc.va, exports[i].alloc.size)
  {
    seq(|exports|, i requires 0 <= i < |exports| => BytesAt(view, blocks, exports[i].alloc.va, exports[i].alloc.size))
  }

  /** The record's bytes are on the device and nowhere else. */
  ghost predicate HasData(e: Export) {
    !e.tornDown && e.alloc.mapped && e.alloc.size > 0
  }

  predicate Readable(view: View, va: nat, n: nat) {
    va in view.mapped && n <= view.mapped[va].size
  }

  /** Nothing but the saved offset of active records differs. */
  ghost predicate SameBut(before: seq<Export>, after: seq<Export>) {
    |after| == |before| && forall i | 0 <= i < |before| :: SameButSaved(before[i], after[i])
  }

  ghost predicate SameButSaved(before: Export, after: Export) {
    after == before.(saved := after.saved) && (!Active(before) ==> after == before)
  }

  /** `after` is `before` with the first k records of the order marked with their offsets. */
  ghost predicate Marked(before: seq<Export>, after: seq<Export>, order: seq<nat>, k: nat) {
    && IsOrder(before, order) && SameBut(before, after) && k <= |order|
    && forall m | 0 <= m < k :: MarkedAt(before, after, order, m)
  }

  ghost predicate MarkedAt(before: seq<Export>, after: seq<Export>, order: seq<nat>, m: nat)
    requires IsOrder(before, order) && |after| == |before| && m < |order|
  {
    after[order[m]].saved == Some(OffsetAt(before, order, m))
  }

  /** The record visited m-th can be read. */
  ghost predicate ReadableAt(exports: seq<Export>, order: seq<nat>, view: View, m: nat)
    requires IsOrder(exports, order) && m < |order|
  {
    Readable(view, exports[order[m]].alloc.va, exports[order[m]].alloc.size)
  }

  lemma {:induction false} MarkKeeps(before: seq<Export>, mid: seq<Export>, i: nat, off: nat)
    requires SameBut(before, mid) && i < |mid| && Active(before[i])
    ensures SameBut(before, mid[i := mid[i].(saved := Some(off))])
  {
    forall j | 0 <= j < |mid|
      ensures SameButSaved(before[j], mid[i := mid[i].(saved := Some(off))][j])
    {
      assert SameButSaved(before[j], mid[j]);
    }
  }

  lemma {:induction false} MarkNext(before: seq<Export>, mid: seq<Export>, order: seq<nat>, k: nat)
    requires Marked(before, mid, order, k) && k < |order| && Active(before[order[k]])
    ensures var i := order[k];
            Marked(before, mid[i := mid[i].(saved := Some(OffsetAt(before, order, k)))], order, k + 1)
  {
    var i := order[k];
    var after := mid[i := mid[i].(saved := Some(OffsetAt(before, order, k)))];
    MarkKeeps(before, mid, i, OffsetAt(before, order, k));
    forall m | 0 <= m < k
      ensures MarkedAt(before, after, order, m)
    {
      assert MarkedAt(before, mid, order, m) && order[m] != order[k];
    }
  }

  /** Saving all records of the order reads every active record. */
  lemma {:induction false} AllRead(exports: seq<Export>, order: seq<nat>, view: View, room: nat)
    requires IsSaveOrder(exports, order) && OffsetAt(exports, order, |order|) <= room
    requires forall m | 0 <= m < |order| :: ReadableAt(exports, order, view, m)
    ensures CanSave(exports, view, room)
  {
    ExportsTile(exports, order);
    forall i | 0 <= i < |exports| && Active(exports[i])
      ensures Readable(view, exports[i].alloc.va, exports[i].alloc.size)
    {
      var k :| 0 <= k < |order| && order[k] == i;
      assert ReadableAt(exports, order, view, k);
    }
  }

  /** Step 2 on one record: close its descriptor. */
  function WithoutFd(e: Export): Export {
    if e.tornDown then e else e.(fd := None)
  }

  /** Step 3 on one record: a mapped one loses mapping and handle. */
  function Dropped(e: Export): Export {
    if Droppable(e) then e.(tornDown := true, handle := 0) else e
  }

  predicate Droppable(e: Export) {
    !e.tornDown && e.alloc.mapped
  }

  /** Addresses and handles of the first n records that get dropped. */
  ghost function DroppedVas(exports: seq<Export>, n: nat): (s: set<nat>)
    requires n <= |exports|
  {
    set i: nat | i < n && !exports[i].tornDown && exports[i].alloc.mapped :: exports[i].alloc.va
  }

  ghost function DroppedHandles(exports: seq<Export>, n: nat): (s: set<nat>)
    requires n <= |exports|
  {
    set i: nat | i < n && !exports[i].tornDown && exports[i].alloc.mapped :: exports[i].handle
  }

  /** The shareable descriptors of the first n records that are not down. */
  ghost function OpenFds(exports: seq<Export>, n: nat): (s: set<nat>)
    requires n <= |exports|
  {
    set i: nat | i < n && !exports[i].tornDown && exports[i].fd.Some? :: exports[i].fd.value
  }

  lemma {:induction false} FdNext(exports: seq<Export>, n: nat, fds: map<nat, nat>)
    requires n < |exports|
    ensures var e := exports[n];
            fds - OpenFds(exports, n + 1)
            == if !e.tornDown && e.fd.Some? then fds - OpenFds(exports, n) - {e.fd.value} else fds - OpenFds(exports, n)
  {
    var e := exports[n];
    if !e.tornDown && e.fd.Some? {
      assert OpenFds(exports, n + 1) == OpenFds(exports, n) + {e.fd.value};
    } else {
      assert OpenFds(exports, n + 1) == OpenFds(exports, n);
    }
  }

  lemma {:induction false} DropNext(exports: seq<Export>, n: nat)
    requires n < |exports|
    ensures DroppedVas(exports, n + 1)
            == DroppedVas(exports, n) + (if Droppable(exports[n]) then {exports[n].alloc.va} else {})
    ensures DroppedHandles(exports, n + 1)
            == DroppedHandles(exports, n) + (if Droppable(exports[n]) then {exports[n].handle} else {})
  {
  }

  /** Every mapping that gets dropped is there, at its recorded size. */
  ghost predicate AllMapped(exports: seq<Export>, view: View) {
    forall i | 0 <= i < |exports| && Droppable(exports[i]) ::
      exports[i].alloc.va in view.mapped && view.mapped[exports[i].alloc.va].size == exports[i].alloc.size
  }

  lemma {:induction false} RemoveMore<V>(m: map<nat, V>, s: set<nat>, k: nat)
    ensures m - s - {k} == m - (s + {k})
    ensures k !in m - s ==> m - (s + {k}) == m - s
  {
  }

  function TornImport(r: Import): Import {
    if r.tornDown then r else r.(tornDown := true, handle := 0)
  }

  ghost function ImportVas(imports: seq<Import>, n: nat): (s: set<nat>)
    requires n <= |imports|
  {
    set i: nat | i < n && !imports[i].tornDown :: imports[i].va
  }

  ghost function ImportHandles(imports: seq<Import>, n: nat): (s: set<nat>)
    requires n <= |imports|
  {
    set i: nat | i < n && !imports[i].tornDown :: imports[i].handle
  }

  lemma {:induction false} ImportNext(imports: seq<Import>, n: nat)
    requires n < |imports|
    ensures ImportVas(imports, n + 1) == ImportVas(imports, n) + (if imports[n].tornDown then {} else {imports[n].va})
    ensures ImportHandles(imports, n + 1)
            == ImportHandles(imports, n) + (if imports[n].tornDown then {} else {imports[n].handle})
  {
  }

  ghost predicate ImportUp(r: Import, view: View) {
    !r.tornDown && r.va in view.mapped && view.mapped[r.va].size == r.size
  }

  ghost predicate AllImportsMapped(imports: seq<Import>, view: View) {
    forall i | 0 <= i < |imports| && !imports[i].tornDown :: ImportUp(imports[i], view)
  }

  /** A torn-down record whose bytes c are kept in the buffer. */
  ghost predicate TornOne(e: Export, buf: seq<byte>, c: seq<byte>) {
    && e.tornDown && e.alloc.mapped && e.alloc.size > 0 && e.alloc.prop.Some?
    && |c| == e.alloc.size && e.saved.Some? && HoldsAt(buf, e.saved.value, c)
  }

  ghost predicate Torn(exports: seq<Export>, buf: seq<byte>, contents: seq<seq<byte>>) {
    |contents| == |exports| && forall i | 0 <= i < |exports| :: TornOne(exports[i], buf, contents[i])
  }

  /** A mapped record whose address shows the bytes c. */
  ghost predicate UpOne(e: Export, view: View, blocks: Blocks, c: seq<byte>) {
    && !e.tornDown && e.alloc.mapped && e.alloc.size > 0 && e.alloc.prop.Some?
    && |c| == e.alloc.size && Shows(view, blocks, e.alloc.va, c)
  }

  ghost predicate Up(exports: seq<Export>, view: View, blocks: Blocks, contents: seq<seq<byte>>) {
    |contents| == |exports| && forall i | 0 <= i < |exports| :: UpOne(exports[i], view, blocks, contents[i])
  }

  /** Its shareable descriptor leads to the block behind its address. */
  ghost predicate Shared(e: Export, view: View) {
    && e.fd.Some? && e.fd.value in view.fds && e.alloc.va in view.mapped
    && view.fds[e.fd.value] == view.mapped[e.alloc.va].block
  }

  ghost predicate SameAllocs(a: seq<Export>, b: seq<Export>) {
    |a| == |b| && forall i | 0 <= i < |a| :: a[i].alloc == b[i].alloc
  }

  /** Every record has kept its handle or given it up. */
  ghost predicate NoNewHandles(after: seq<Export>, before: seq<Export>) {
    |after| == |before| && forall i | 0 <= i < |before| :: after[i].handle == before[i].handle || after[i].handle == 0
  }

  ghost predicate SameRecords(a: seq<Import>, b: seq<Import>) {
    |a| == |b| && forall i | 0 <= i < |a| :: a[i].va == b[i].va && a[i].size == b[i].size && a[i].access == b[i].access
  }

  /** The addresses of all records are different. */
  ghost predicate DistinctVas(exports: seq<Export>, imports: seq<Import>) {
    && (forall i, j | 0 <= i < j < |exports| :: exports[i].alloc.va != exports[j].alloc.va)
    && (forall i, j | 0 <= i < j < |imports| :: imports[i].va != imports[j].va)
    && (forall i, j | 0 <= i < |exports| && 0 <= j < |imports| :: exports[i].alloc.va != imports[j].va)
  }

  /** What the rebuild grants on a record's address. */
  function GrantFor(log: map<nat, seq<AccessLog.Desc>>, a: Alloc): AccessLog.Rights {
    AccessLog.ExportGrant(if a.va in log then log[a.va] else [], a.seen, if a.prop.Some? then a.prop.value else 0)
  }

  /** What it is to grant: all that was logged for the address; without a log, the descriptor the record saw
      last; without that, read-write for the device of the allocation. */
  ghost predicate Regranted(log: map<nat, seq<AccessLog.Desc>>, a: Alloc, rights: AccessLog.Rights)
    requires a.prop.Some?
  {
    AccessLog.GivenBack(if a.va in log then log[a.va] else [],
                        if a.seen.Some? then a.seen.value
                        else AccessLog.Desc(AccessLog.Location(AccessLog.DEVICE, a.prop.value), AccessLog.READ_WRITE),
                        rights)
  }

  /** RebuildEntry: record idx is backed by the new handle, and its bytes are at `offset`. */
  datatype Rebuilt = Rebuilt(idx: nat, handle: nat, offset: nat)

  /** A window on the whole block with the rights given back. */
  ghost predicate BackedWindow(a: Alloc, w: Window, b: nat, log: map<nat, seq<AccessLog.Desc>>) {
    w.block == b && w.size == a.size && a.prop.Some? && Regranted(log, a, w.rights)
  }

  /** Entry r's record is mapped again, to a block that did not exist before. */
  ghost predicate BackedEntry(r: Rebuilt, exports: seq<Export>, view: View, blocks: Blocks, was: View, old_: Blocks,
                              log: map<nat, seq<AccessLog.Desc>>) {
    && r.idx < |exports| && Rebuildable(exports[r.idx])
    && r.handle in view.handles && r.handle !in was.issued
    && view.handles[r.handle] in blocks && view.handles[r.handle] !in old_
    && |blocks[view.handles[r.handle]]| == exports[r.idx].alloc.size
    && exports[r.idx].alloc.va in view.mapped && exports[r.idx].alloc.va !in was.mapped
    && BackedWindow(exports[r.idx].alloc, view.mapped[exports[r.idx].alloc.va], view.handles[r.handle], log)
  }

  ghost predicate BackedEntries(entries: seq<Rebuilt>, exports: seq<Export>, view: View, blocks: Blocks, was: View,
                                old_: Blocks, log: map<nat, seq<AccessLog.Desc>>) {
    && (forall k | 0 <= k < |entries| :: BackedEntry(entries[k], exports, view, blocks, was, old_, log))
    && (forall a, b | 0 <= a < b < |entries| :: entries[a].idx < entries[b].idx)
    && (forall a, b | 0 <= a < b < |entries| :: view.handles[entries[a].handle] != view.handles[entries[b].handle])
  }

  lemma {:induction false} BackedMore(entries: seq<Rebuilt>, exports: seq<Export>, mid: View, midBlocks: Blocks,
                                      was: View, old_: Blocks, r: Rebuilt, view: View, blocks: Blocks,
                                      log: map<nat, seq<AccessLog.Desc>>)
    requires BackedEntries(entries, exports, mid, midBlocks, was, old_, log)
    requires forall k | 0 <= k < |entries| :: entries[k].idx < r.idx
    requires mid.Valid(midBlocks) && Grown(midBlocks, blocks) && SubMap(mid.handles, view.handles)
             && SubMap(mid.mapped, view.mapped)
    requires BackedEntry(r, exports, view, blocks, was, old_, log) && view.handles[r.handle] !in midBlocks
    ensures BackedEntries(entries + [r], exports, view, blocks, was, old_, log)
  {
    var more := entries + [r];
    forall k | 0 <= k < |more|
      ensures BackedEntry(more[k], exports, view, blocks, was, old_, log)
    {
      if k < |entries| {
        assert BackedEntry(entries[k], exports, mid, midBlocks, was, old_, log);
      }
    }
    forall a, c | 0 <= a < c < |more|
      ensures view.handles[more[a].handle] != view.handles[more[c].handle]
    {
      assert BackedEntry(entries[a], exports, mid, midBlocks, was, old_, log);
    }
  }

  /** An order visits every one of n entries once. */
  ghost predicate IsPermutation(order: seq<nat>, n: nat) {
    && (forall k | 0 <= k < |order| :: order[k] < n)
    && (forall a, b | 0 <= a < b < |order| :: order[a] != order[b])
    && (forall i | 0 <= i < n :: i in order)
  }

  /** device_rebuilds: the entries by device, then in record order. */
  function RebuildOrder(entries: seq<Rebuilt>, exports: seq<Export>): (order: seq<nat>)
    requires forall k | 0 <= k < |entries| :: entries[k].idx < |exports|
    ensures IsPermutation(order, |entries|)
  {
    var keys := seq(|entries|, k requires 0 <= k < |entries| =>
      var prop := exports[entries[k].idx].alloc.prop; InGroup(if prop.Some? then prop.value else 0));
    GroupedLists(keys);
    GroupedDistinct(keys);
    Grouped(keys)
  }

  /** Entries of records with properties go by device, and then in record order. */
  lemma {:induction false} RebuiltByDevice(entries: seq<Rebuilt>, exports: seq<Export>)
    requires forall k | 0 <= k < |entries| :: entries[k].idx < |exports| && exports[entries[k].idx].alloc.prop.Some?
    ensures var order := RebuildOrder(entries, exports);
            forall a, b | 0 <= a < b < |order| ::
              ByDevice(exports[entries[order[a]].idx].alloc.prop, exports[entries[order[b]].idx].alloc.prop,
                       order[a] < order[b])
  {
    var order := RebuildOrder(entries, exports);
    var keys := seq(|entries|, k requires 0 <= k < |entries| =>
      var prop := exports[entries[k].idx].alloc.prop; InGroup(if prop.Some? then prop.value else 0));
    GroupedLists(keys);
    forall a, b | 0 <= a < b < |order|
      ensures ByDevice(exports[entries[order[a]].idx].alloc.prop, exports[entries[order[b]].idx].alloc.prop,
                       order[a] < order[b])
    {
      assert Before(keys, Grouped(keys)[a], Grouped(keys)[b]);
    }
  }

  ghost function SizeOf(r: Rebuilt, exports: seq<Export>): nat {
    if r.idx < |exports| then exports[r.idx].alloc.size else 0
  }

  /** Where the ranges of the entries end. */
  ghost function EndOf(entries: seq<Rebuilt>, exports: seq<Export>): nat {
    if entries == [] then 0 else
      var before, last := EndOf(entries[..|entries| - 1], exports), entries[|entries| - 1];
      var end := last.offset + SizeOf(last, exports);
      if before <= end then end else before
  }

  ghost function TakenAt(e: Export, end: nat): nat {
    if e.saved.Some? then e.saved.value else end
  }

  /** An entry reads from its saved offset; one without reads from behind all entries before it. */
  ghost predicate OffsetsTaken(entries: seq<Rebuilt>, exports: seq<Export>) {
    forall k | 0 <= k < |entries| :: OffsetTaken(entries, exports, k)
  }

  ghost predicate OffsetTaken(entries: seq<Rebuilt>, exports: seq<Export>, k: nat)
    requires k < |entries|
  {
    && entries[k].idx < |exports|
    && entries[k].offset == TakenAt(exports[entries[k].idx], EndOf(entries[..k], exports))
  }

  lemma {:induction false} MoreTaken(entries: seq<Rebuilt>, more: seq<Rebuilt>, exports: seq<Export>, dataOffset: nat)
    requires OffsetsTaken(entries, exports) && dataOffset == EndOf(entries, exports)
    requires more == [] || (|more| == 1 && more[0].idx < |exports|
                            && more[0].offset == TakenAt(exports[more[0].idx], dataOffset))
    ensures OffsetsTaken(entries + more, exports)
    ensures EndOf(entries + more, exports)
            == if more == [] then dataOffset
               else Max(dataOffset, more[0].offset + exports[more[0].idx].alloc.size)
  {
    var all := entries + more;
    if more == [] {
      assert all == entries;
    } else {
      forall k | 0 <= k < |all|
        ensures OffsetTaken(all, exports, k)
      {
        assert all[..k] == entries[..k];
        assert k < |entries| ==> OffsetTaken(entries, exports, k);
        assert entries[..|entries|] == entries;
      }
      assert all[..|all| - 1] == entries;
    }
  }

  ghost predicate EntryBlock(entries: seq<Rebuilt>, view: View, b: nat) {
    exists k :: 0 <= k < |entries| && entries[k].handle in view.handles && view.handles[entries[k].handle] == b
  }

  /** Entry r's block holds its range of the buffer. */
  ghost predicate DataBack(r: Rebuilt, size: nat, view: View, blocks: Blocks, buf: seq<byte>) {
    && r.handle in view.handles && view.handles[r.handle] in blocks
    && (r.offset + size <= |buf| ==> blocks[view.handles[r.handle]] == buf[r.offset..r.offset + size])
  }

  /** The first k entries of the order have their data; only entries' blocks were written. */
  ghost predicate Refilled(k: nat, order: seq<nat>, entries: seq<Rebuilt>, exports: seq<Export>, view: View,
                           blocks: Blocks, start: Blocks, buf: seq<byte>, obliging: bool)
  {
    && k <= |order| && IsPermutation(order, |entries|)
    && blocks.Keys == start.Keys && (forall b | b in start :: |blocks[b]| == |start[b]|)
    && (forall b | b in start && !EntryBlock(entries, view, b) :: blocks[b] == start[b])
    && (obliging ==>
         forall m | 0 <= m < k :: DataBack(entries[order[m]], SizeOf(entries[order[m]], exports), view, blocks, buf))
  }

  /** Writing one entry's block leaves the others' data alone. */
  lemma {:induction false} RefilledNext(k: nat, order: seq<nat>, entries: seq<Rebuilt>, exports: seq<Export>,
                                        view: View, mid: Blocks, start: Blocks, buf: seq<byte>, obliging: bool,
                                        bytes: seq<byte>)
    requires forall j | 0 <= j < |entries| :: entries[j].idx < |exports| && entries[j].handle in view.handles
    requires forall a, b | 0 <= a < b < |entries| :: view.handles[entries[a].handle] != view.handles[entries[b].handle]
    requires Refilled(k, order, entries, exports, view, mid, start, buf, obliging) && k < |order|
    requires var r := entries[order[k]];
             var size := exports[r.idx].alloc.size;
             && view.handles[r.handle] in mid && |mid[view.handles[r.handle]]| == size == |bytes|
             && r.offset + size <= |buf| && bytes == buf[r.offset..r.offset + size]
    ensures Refilled(k + 1, order, entries, exports, view, mid[view.handles[entries[order[k]].handle] := bytes], start,
            buf, obliging)
  {
  }

  /** A record after phase C. */
  ghost predicate Reexported(before: Export, after: Export, r: Rebuilt, view: View, obliging: bool) {
    && after == before.(handle := r.handle, fd := after.fd, tornDown := false)
    && r.handle in view.handles
    && (after.fd.Some? ==> after.fd.value in view.fds && view.fds[after.fd.value] == view.handles[r.handle])
    && (obliging ==> after.fd.Some?)
  }

  ghost predicate EntryFor(entries: seq<Rebuilt>, i: nat) {
    exists k :: 0 <= k < |entries| && entries[k].idx == i
  }

  /** The first k entries of the order have been exported again. */
  ghost predicate Reexporting(k: nat, order: seq<nat>, entries: seq<Rebuilt>, before: seq<Export>, exports: seq<Export>,
                              view: View, was: View, obliging: bool)
  {
    && |exports| == |before| && k <= |order| && IsPermutation(order, |entries|)
    && view == was.(fds := view.fds) && SubMap(was.fds, view.fds)
    && (forall f | f in view.fds && f !in was.fds :: view.fds[f] in was.handles.Values)
    && (forall j | 0 <= j < |entries| :: entries[j].idx < |before| && entries[j].handle in view.handles)
    && (forall m | 0 <= m < k ::
       Reexported(before[entries[order[m]].idx], exports[entries[order[m]].idx], entries[order[m]], view, obliging))
    && (forall m | k <= m < |order| :: exports[entries[order[m]].idx] == before[entries[order[m]].idx])
    && (forall i | 0 <= i < |before| && !EntryFor(entries, i) :: exports[i] == before[i])
  }

  lemma {:induction false} ReexportNext(k: nat, order: seq<nat>, entries: seq<Rebuilt>, before: seq<Export>,
                                        mid: seq<Export>, midView: View, was: View, obliging: bool, after: Export,
                                        view: View)
    requires Reexporting(k, order, entries, before, mid, midView, was, obliging) && k < |order|
    requires forall a, b | 0 <= a < b < |entries| :: entries[a].idx != entries[b].idx
    requires view == midView.(fds := view.fds) && SubMap(midView.fds, view.fds)
    requires forall f | f in view.fds && f !in midView.fds :: view.fds[f] in was.handles.Values
    requires Reexported(mid[entries[order[k]].idx], after, entries[order[k]], view, obliging)
    ensures Reexporting(k + 1, order, entries, before, mid[entries[order[k]].idx := after], view, was, obliging)
  {
  }

  /** g_rebuilt_handle_alias: the application's handle now stands for the rebuilt one. */
  function Renamed(alias: map<nat, nat>, app: nat, handle: nat): map<nat, nat> {
    if app != 0 && app != handle then alias[app := handle] else alias
  }

  ghost predicate DistinctApps(exports: seq<Export>) {
    forall i, j | 0 <= i < j < |exports| :: exports[i].alloc.app != exports[j].alloc.app
  }

  /** The tables know entry r's new handle, and the application's handle leads to it. */
  ghost predicate Tabled(r: Rebuilt, before: seq<Export>, alias: map<nat, nat>, created: map<nat, Created>,
                         handleToVa: map<nat, nat>)
    requires r.idx < |before|
  {
    var a := before[r.idx].alloc;
    && (a.app != 0 && a.app != r.handle ==> a.app in alias && alias[a.app] == r.handle)
    && r.handle in created && created[r.handle] == Created(a.size, if a.prop.Some? then a.prop.value else 0)
    && r.handle in handleToVa && handleToVa[r.handle] == a.va
  }

  /** Registered handles have been issued, and a handle with an address is registered. */
  ghost predicate Keyed(view: View, created: map<nat, Created>, handleToVa: map<nat, nat>) {
    created.Keys <= view.issued && 0 !in created && 0 in view.issued && handleToVa.Keys <= created.Keys
  }

  /** Only new handles have been registered, for addresses of exports; and a handle with an address is
      registered. */
  ghost predicate Registered(created: map<nat, Created>, handleToVa: map<nat, nat>, created0: map<nat, Created>,
                             handleToVa0: map<nat, nat>, before: seq<Export>, newly: set<nat>) {
    && created.Keys <= created0.Keys + newly
    && (forall h | h !in newly :: SameEntry(created, created0, h) && SameEntry(handleToVa, handleToVa0, h))
    && (forall h | h in handleToVa && !SameEntry(handleToVa, handleToVa0, h) :: ExportedAt(before, handleToVa[h]))
    && (handleToVa0.Keys <= created0.Keys ==> handleToVa.Keys <= created.Keys)
  }

  ghost predicate IsApp(exports: seq<Export>, h: nat) {
    h != 0 && exists i | 0 <= i < |exports| :: exports[i].alloc.app == h
  }

  /** Every other handle leads to what it led to. */
  ghost predicate Realiased(alias: map<nat, nat>, alias0: map<nat, nat>, before: seq<Export>) {
    forall h | !IsApp(before, h) :: SameEntry(alias, alias0, h)
  }

  ghost predicate Renaming(k: nat, order: seq<nat>, entries: seq<Rebuilt>, before: seq<Export>, alias: map<nat, nat>,
                           created: map<nat, Created>, handleToVa: map<nat, nat>)
  {
    && k <= |order| && IsPermutation(order, |entries|)
    && (forall j | 0 <= j < |entries| :: entries[j].idx < |before|)
    && (forall m | 0 <= m < k :: Tabled(entries[order[m]], before, alias, created, handleToVa))
  }

  lemma {:induction false} RenameNext(k: nat, order: seq<nat>, entries: seq<Rebuilt>, before: seq<Export>,
                                      alias: map<nat, nat>, created: map<nat, Created>, handleToVa: map<nat, nat>)
    requires Renaming(k, order, entries, before, alias, created, handleToVa) && k < |order| && DistinctApps(before)
    requires forall a, b | 0 <= a < b < |entries| ::
             entries[a].idx != entries[b].idx && entries[a].handle != entries[b].handle
    ensures var r := entries[order[k]];
            var a := before[r.idx].alloc;
            Renaming(k + 1, order, entries, before, Renamed(alias, a.app, r.handle),
                     created[r.handle := Created(a.size, if a.prop.Some? then a.prop.value else 0)],
                       handleToVa[r.handle := a.va])
  {
  }

  /** Every record has a block of its own, which did not exist before. */
  ghost predicate OwnBlocks(exports: seq<Export>, view: View, old_: Blocks) {
    && (forall i | 0 <= i < |exports| ::
       exports[i].alloc.va in view.mapped && view.mapped[exports[i].alloc.va].block !in old_)
    && (forall i, j | 0 <= i < j < |exports| ::
          view.mapped[exports[i].alloc.va].block != view.mapped[exports[j].alloc.va].block)
  }

  /** The application's handle of every record leads to the handle of the record, which is the one
      that keeps the memory behind its address; no other handle was ever taken for it. */
  ghost predicate OwnedOne(e: Export, view: View, alias: map<nat, nat>) {
    && e.alloc.app != 0 && e.alloc.app in view.issued
    && e.handle in view.handles && e.alloc.va in view.mapped && view.handles[e.handle] == view.mapped[e.alloc.va].block
    && (if e.alloc.app in alias then alias[e.alloc.app] else e.alloc.app) == e.handle
    && (e.alloc.app in view.handles ==> e.alloc.app == e.handle)
  }

  ghost predicate Owned(exports: seq<Export>, view: View, alias: map<nat, nat>) {
    DistinctApps(exports) && forall i | 0 <= i < |exports| :: OwnedOne(exports[i], view, alias)
  }

  /** No two records have one handle. */
  ghost predicate Exclusive(exports: seq<Export>) {
    forall i, j | 0 <= i < j < |exports| :: exports[i].handle != exports[j].handle
  }

  /** Different blocks are kept by different handles. */
  lemma {:induction false} OwnBlocksExclusive(exports: seq<Export>, view: View, alias: map<nat, nat>, old_: Blocks)
    requires Owned(exports, view, alias) && OwnBlocks(exports, view, old_)
    ensures Exclusive(exports)
  {
    forall i, j | 0 <= i < j < |exports|
      ensures exports[i].handle != exports[j].handle
    {
      assert OwnedOne(exports[i], view, alias) && OwnedOne(exports[j], view, alias);
    }
  }

  /** An application's handle is live only as the handle of its own record. The record may have been
      released. */
  ghost predicate Traceable(exports: seq<Export>, view: View) {
    && DistinctApps(exports)
    && forall i | 0 <= i < |exports| :: TraceableOne(exports[i], view)
  }

  ghost predicate TraceableOne(e: Export, view: View) {
    e.alloc.app != 0 && e.alloc.app in view.issued && (e.alloc.app in view.handles ==> e.alloc.app == e.handle)
  }

  lemma {:induction false} OwnedIsTraceable(exports: seq<Export>, view: View, alias: map<nat, nat>)
    requires Owned(exports, view, alias)
    ensures Traceable(exports, view)
  {
  }

  /** After a teardown the application's handles lead nowhere. */
  ghost predicate Orphaned(exports: seq<Export>, view: View) {
    && DistinctApps(exports)
    && forall i | 0 <= i < |exports| ::
       exports[i].alloc.app != 0 && exports[i].alloc.app in view.issued && exports[i].alloc.app !in view.handles
  }

  function Resolve(alias: map<nat, nat>, h: nat): nat {
    if h in alias then alias[h] else h
  }

  /** The tables of a process that the phases work on. */
  datatype Snapshot = Snapshot(view: View, exports: seq<Export>, imports: seq<Import>, alias: map<nat, nat>,
                               log: map<nat, seq<AccessLog.Desc>>, exportBuf: seq<byte>,
                               created: map<nat, Created>, handleToVa: map<nat, nat>)

  /** Everything the process exports and imports is up, at different addresses. */
  ghost predicate IsUp(s: Snapshot, blocks: Blocks, contents: seq<seq<byte>>) {
    && s.view.Valid(blocks)
    && Up(s.exports, s.view, blocks, contents)
    && (forall i | 0 <= i < |s.imports| :: ImportUp(s.imports[i], s.view))
    && DistinctVas(s.exports, s.imports)
  }

  /** Everything is torn down, the bytes of the exports are in the buffer, and the addresses are
      free. */
  ghost predicate IsTorn(s: Snapshot, blocks: Blocks, contents: seq<seq<byte>>) {
    && s.view.Valid(blocks)
    && Torn(s.exports, s.exportBuf, contents)
    && (forall i | 0 <= i < |s.imports| :: s.imports[i].tornDown)
    && DistinctVas(s.exports, s.imports)
    && (forall i | 0 <= i < |s.exports| :: s.exports[i].alloc.va !in s.view.mapped)
    && (forall i | 0 <= i < |s.imports| :: s.imports[i].va !in s.view.mapped)
  }

  class Process {
    const machine: Machine
    const pid: nat
    var view: View
    var exports: seq<Export>               // g_ipc_exports
    var imports: seq<Import>               // g_ipc_imports
    var created: map<nat, Created>         // g_created_allocs
    var handleToVa: map<nat, nat>          // g_handle_to_va
    var importedHandles: set<nat>          // g_imported_handles
    var vaToImport: map<nat, nat>          // g_vaddr_to_import_idx
    var vaToExport: map<nat, nat>          // g_vaddr_to_export_idx
    var alias: map<nat, nat>               // g_rebuilt_handle_alias
    var log: map<nat, seq<AccessLog.Desc>> // g_va_access_descs
    var exportBuf: seq<byte>               // g_ipc_export_data_buf; empty: none

    constructor (machine: Machine, pid: nat)
      ensures this.machine == machine && this.pid == pid
      ensures exports == [] && imports == [] && created == map[] && handleToVa == map[] && importedHandles == {}
              && alias == map[] && log == map[] && vaToImport == map[] && vaToExport == map[]
      ensures view == View(map[], map[], map[], {0}) && exportBuf == []
    {
      this.machine, this.pid := machine, pid;
      view := View(map[], map[], map[], {0});
      exports, imports, created, handleToVa, importedHandles := [], [], map[], map[], {};
      vaToImport, vaToExport, alias, log, exportBuf := map[], map[], map[], map[], [];
    }

    /** Step 1 of ipc_save_and_teardown_all_exports: copy the active records out, device by device,
        with a running offset; an unreadable one aborts. Without a driver refusal it succeeds if and
        only if the buffer is large enough and every active record is readable: one record whose
        buffer the application has freed aborts the whole teardown. */
    method SaveExports() returns (ok: bool)
      requires view.Valid(machine.blocks)
      modifies this`exports, this`exportBuf
      ensures |exportBuf| == |old(exportBuf)|
      ensures SameBut(old(exports), exports)
      ensures ok ==> Marked(old(exports), exports, SaveOrder(old(exports)), |SaveOrder(old(exports))|)
      ensures ok ==>
                SavedUpTo(exportBuf, old(exports), SaveOrder(old(exports)),
                ContentsOf(old(exports), view, machine.blocks), |SaveOrder(old(exports))|)
      ensures ok ==> CanSave(old(exports), view, |exportBuf|)
      ensures machine.obliging && CanSave(old(exports), view, |exportBuf|) ==> ok
    {
      ok := SaveAlong(SaveOrder(exports));
    }

    method SaveAlong(order: seq<nat>) returns (ok: bool)
      requires view.Valid(machine.blocks) && IsSaveOrder(exports, order)
      modifies this`exports, this`exportBuf
      ensures |exportBuf| == |old(exportBuf)|
      ensures SameBut(old(exports), exports)
      ensures ok ==> Marked(old(exports), exports, order, |order|)
      ensures ok ==> SavedUpTo(exportBuf, old(exports), order, ContentsOf(old(exports), view, machine.blocks), |order|)
      ensures ok ==> CanSave(old(exports), view, |exportBuf|)
      ensures machine.obliging && CanSave(old(exports), view, |exportBuf|) ==> ok
    {
      ghost var contents := ContentsOf(exports, view, machine.blocks);
      ExportsTile(exports, order);
      if OffsetAt(exports, order, |order|) > |exportBuf| {
        return false;
      }
      ghost var offset;
      ok, offset := SaveLoop(order, contents);
      if ok {
        AllRead(old(exports), order, view, |exportBuf|);
      }
    }

    method SaveLoop(order: seq<nat>, ghost contents: seq<seq<byte>>) returns (ok: bool, offset: nat)
      requires view.Valid(machine.blocks) && IsSaveOrder(exports, order)
               && contents == ContentsOf(exports, view, machine.blocks)
      requires OffsetAt(exports, order, |order|) <= |exportBuf|
      modifies this`exports, this`exportBuf
      ensures |exportBuf| == |old(exportBuf)| && SameBut(old(exports), exports)
      ensures ok ==> Saving(old(exports), order, contents, |old(exportBuf)|, |order|, offset)
      ensures machine.obliging && CanSave(old(exports), view, |exportBuf|) ==> ok
    {
      ok, offset := true, 0;
      for k := 0 to |order|
        invariant Saving(old(exports), order, contents, |old(exportBuf)|, k, offset)
      {
        ok, offset := SaveOne(order[k], offset, old(exports), order, contents, |old(exportBuf)|, k);
        if !ok {
          return;
        }
      }
      ok := true;
    }

    /** The first k records of the order have been saved. */
    ghost predicate Saving(before: seq<Export>, order: seq<nat>, contents: seq<seq<byte>>, room: nat, k: nat,
                           offset: nat)
      reads this`exports, this`exportBuf, this`view
    {
      && Marked(before, exports, order, k) && offset == OffsetAt(before, order, k)
         && OffsetAt(before, order, |order|) <= room
      && |exportBuf| == room && SavedUpTo(exportBuf, before, order, contents, k)
      && forall m | 0 <= m < k :: ReadableAt(before, order, view, m)
    }

    /** Save the record visited k-th. */
    method SaveOne(i: nat, offset: nat, ghost before: seq<Export>, ghost order: seq<nat>,
                   ghost contents: seq<seq<byte>>, ghost room: nat, ghost k: nat) returns (ok: bool, next: nat)
      requires view.Valid(machine.blocks)
      requires contents == ContentsOf(before, view, machine.blocks)
      requires Saving(before, order, contents, room, k, offset) && k < |order| && i == order[k] && Active(before[i])
      modifies this`exports, this`exportBuf
      ensures |exportBuf| == room && SameBut(before, exports)
      ensures ok ==> Saving(before, order, contents, room, k + 1, next)
      ensures machine.obliging && Readable(view, before[i].alloc.va, before[i].alloc.size) ==> ok
    {
      var e := exports[i];
      assert SameButSaved(before[i], e);
      MarkNext(before, exports, order, k);
      OffsetNext(before, order, k);
      exports := exports[i := e.(saved := Some(offset))];
      ok := machine.Accepts();
      ok, next := ok && Readable(view, e.alloc.va, e.alloc.size), offset + e.alloc.size;
      if ok {
        CopyOut(i, offset, before, order, contents, k);
      }
    }

    /** cuMemcpyDtoH of one readable record. */
    method CopyOut(i: nat, offset: nat, ghost before: seq<Export>, ghost order: seq<nat>,
                   ghost contents: seq<seq<byte>>, ghost k: nat)
      requires view.Valid(machine.blocks) && |exports| == |before| && i < |exports|
               && exports[i].alloc == before[i].alloc
      requires contents == ContentsOf(before, view, machine.blocks) && SavedUpTo(exportBuf, before, order, contents, k)
      requires k < |order| && i == order[k] && offset == OffsetAt(before, order, k)
               && OffsetAt(before, order, |order|) <= |exportBuf|
      requires Readable(view, exports[i].alloc.va, exports[i].alloc.size)
      modifies this`exportBuf
      ensures |exportBuf| == |old(exportBuf)| && SavedUpTo(exportBuf, before, order, contents, k + 1)
    {
      var e := exports[i];
      var bytes := machine.blocks[view.mapped[e.alloc.va].block][..e.alloc.size];
      assert bytes == contents[i];
      RangesApart(before, order, k, |order|);
      SaveOneMore(exportBuf, before, order, contents, k);
      exportBuf := Splice(exportBuf, offset, bytes);
    }

    /** Step 2: close the descriptors. */
    method CloseFds()
      modifies this`exports, this`view
      ensures |exports| == |old(exports)| && forall i | 0 <= i < |exports| :: exports[i] == WithoutFd(old(exports)[i])
      ensures LessThan(view, old(view)) && view.handles == old(view).handles && view.mapped == old(view).mapped
      ensures view.fds == old(view).fds - OpenFds(old(exports), |exports|)
    {
      assert OpenFds(exports, 0) == {} && view.fds - {} == view.fds;
      for i := 0 to |exports|
        invariant |exports| == |old(exports)|
        invariant forall k | 0 <= k < |exports| ::
                  exports[k] == if k < i then WithoutFd(old(exports)[k]) else old(exports)[k]
        invariant LessThan(view, old(view)) && view.handles == old(view).handles && view.mapped == old(view).mapped
        invariant view.fds == old(view).fds - OpenFds(old(exports), i)
      {
        var e := exports[i];
        FdNext(old(exports), i, old(view).fds);
        if !e.tornDown && e.fd.Some? {
          view := view.Close(e.fd.value);
        }
        exports := exports[i := WithoutFd(e)];
      }
    }

    /** cuMemUnmap and cuMemRelease of one mapping; a refusal is only logged. */
    method Drop(va: nat, size: nat, handle: nat)
      modifies this`view
      ensures LessThan(view, old(view)) && view.fds == old(view).fds
      ensures machine.obliging ==> view.handles == old(view).handles - {handle}
      ensures machine.obliging && (va in old(view).mapped ==> old(view).mapped[va].size == size) ==>
                view.mapped == old(view).mapped - {va}
      ensures va in old(view).mapped && old(view).mapped[va].size != size ==> view.mapped == old(view).mapped
    {
      var yes := machine.Accepts();
      if yes && va in view.mapped && view.mapped[va].size == size {
        view := view.Unmap(va);
      } else {
        RemoveMore(view.mapped, {}, va);
        assert view.mapped - {} == view.mapped;
      }
      yes := machine.Accepts();
      if yes {
        view := view.Release(handle);
      }
    }

    /** Step 3: unmap and release the mapped records. The addresses stay reserved. */
    method DropExports()
      modifies this`exports, this`view
      ensures |exports| == |old(exports)| && forall i | 0 <= i < |exports| :: exports[i] == Dropped(old(exports)[i])
      ensures LessThan(view, old(view)) && view.fds == old(view).fds
      ensures machine.obliging ==> view.handles == old(view).handles - DroppedHandles(old(exports), |exports|)
      ensures machine.obliging && AllMapped(old(exports), old(view)) ==>
                view.mapped == old(view).mapped - DroppedVas(old(exports), |exports|)
    {
      assert DroppedVas(exports, 0) == {} && DroppedHandles(exports, 0) == {};
      assert view.mapped - {} == view.mapped && view.handles - {} == view.handles;
      for i := 0 to |exports|
        invariant |exports| == |old(exports)|
        invariant forall k | 0 <= k < |exports| ::
                  exports[k] == if k < i then Dropped(old(exports)[k]) else old(exports)[k]
        invariant LessThan(view, old(view)) && view.fds == old(view).fds
        invariant machine.obliging ==> view.handles == old(view).handles - DroppedHandles(old(exports), i)
        invariant machine.obliging && AllMapped(old(exports), old(view)) ==>
                    view.mapped == old(view).mapped - DroppedVas(old(exports), i)
      {
        DropOne(i, old(exports), old(view));
      }
    }

    method DropOne(i: nat, ghost before: seq<Export>, ghost was: View)
      requires i < |exports| == |before| && exports[i] == before[i] && LessThan(view, was)
      requires machine.obliging ==> view.handles == was.handles - DroppedHandles(before, i)
      requires machine.obliging && AllMapped(before, was) ==> view.mapped == was.mapped - DroppedVas(before, i)
      modifies this`exports, this`view
      ensures exports == old(exports)[i := Dropped(before[i])]
      ensures LessThan(view, was) && view.fds == old(view).fds
      ensures machine.obliging ==> view.handles == was.handles - DroppedHandles(before, i + 1)
      ensures machine.obliging && AllMapped(before, was) ==> view.mapped == was.mapped - DroppedVas(before, i + 1)
    {
      var e := exports[i];
      DropNext(before, i);
      if Droppable(e) {
        RemoveMore(was.handles, DroppedHandles(before, i), e.handle);
        RemoveMore(was.mapped, DroppedVas(before, i), e.alloc.va);
        Drop(e.alloc.va, e.alloc.size, e.handle);
      } else {
        assert DroppedVas(before, i) + {} == DroppedVas(before, i)
               && DroppedHandles(before, i) + {} == DroppedHandles(before, i);
      }
      exports := exports[i := Dropped(e)];
    }

    /** ipc_save_and_teardown_all_exports. */
    method SaveAndTeardown() returns (ok: bool)
      requires view.Valid(machine.blocks)
      modifies this`exports, this`view, this`exportBuf
      ensures |exports| == |old(exports)| && SameAllocs(exports, old(exports)) && LessThan(view, old(view))
      ensures NoNewHandles(exports, old(exports))
      ensures machine.obliging && CanSave(old(exports), old(view), |old(exportBuf)|) ==> ok
      ensures !ok ==> SameBut(old(exports), exports) && view == old(view)
      ensures |exportBuf| == |old(exportBuf)|
      ensures ok ==> CanSave(old(exports), old(view), |old(exportBuf)|)
      ensures ok ==>
                SavedAndDown(old(exports), exports, exportBuf, ContentsOf(old(exports), old(view), machine.blocks))
      ensures ok && machine.obliging ==> view.handles == old(view).handles - DroppedHandles(old(exports), |exports|)
      ensures ok && machine.obliging && AllMapped(old(exports), old(view)) ==>
                view.mapped == old(view).mapped - DroppedVas(old(exports), |exports|)
      ensures ok ==> view.fds == old(view).fds - OpenFds(old(exports), |exports|)
    {
      ghost var contents := ContentsOf(exports, view, machine.blocks);
      ok := SaveExports();
      if ok {
        ghost var marked := exports;
        Dismantle();
        SameDroppable(old(exports), marked);
        MarkedDown(old(exports), marked, exports, exportBuf, contents);
      }
    }

    /** Steps 2 and 3. */
    method Dismantle()
      modifies this`exports, this`view
      ensures |exports| == |old(exports)| && forall i | 0 <= i < |exports| ::
              exports[i] == Dropped(WithoutFd(old(exports)[i]))
      ensures LessThan(view, old(view))
      ensures machine.obliging ==> view.handles == old(view).handles - DroppedHandles(old(exports), |exports|)
      ensures machine.obliging && AllMapped(old(exports), old(view)) ==>
                view.mapped == old(view).mapped - DroppedVas(old(exports), |exports|)
      ensures view.fds == old(view).fds - OpenFds(old(exports), |exports|)
    {
      CloseFds();
      SameClosed(old(exports), exports);
      DropExports();
    }

    /** The export part of the teardown handler: a buffer of exactly ipc_get_export_data_size bytes,
        then save and tear down. When it fails, no export has been torn down. */
    method TeardownExports() returns (ok: bool)
      requires view.Valid(machine.blocks)
      modifies this`exports, this`view, this`exportBuf
      ensures |exports| == |old(exports)| && SameAllocs(exports, old(exports)) && LessThan(view, old(view))
      ensures NoNewHandles(exports, old(exports))
      ensures machine.obliging && DataReadable(old(exports), old(view)) ==> ok
      ensures ok ==> DataReadable(old(exports), old(view))
      ensures !ok ==> SameBut(old(exports), exports) && view == old(view)
      ensures DataSize(old(exports), |exports|) == 0 && old(exportBuf) == [] ==>
                exports == old(exports) && view == old(view) && exportBuf == []
      ensures ok && DataSize(old(exports), |exports|) > 0 ==>
                && |exportBuf| == DataSize(old(exports), |exports|)
                && SavedAndDown(old(exports), exports, exportBuf, ContentsOf(old(exports), old(view), machine.blocks))
      ensures ok && machine.obliging && DataSize(old(exports), |exports|) > 0 ==>
                view.handles == old(view).handles - DroppedHandles(old(exports), |exports|)
      ensures ok && machine.obliging && DataSize(old(exports), |exports|) > 0 && AllMapped(old(exports), old(view)) ==>
                view.mapped == old(view).mapped - DroppedVas(old(exports), |exports|)
      ensures ok && DataSize(old(exports), |exports|) > 0 ==>
                view.fds == old(view).fds - OpenFds(old(exports), |exports|)
    {
      var needed := DataSize(exports, |exports|);
      NothingToSave(exports, |exports|);
      if needed > 0 {
        var yes := machine.Accepts();
        exportBuf := if yes then seq(needed, i => 0) else [];
      }
      if exportBuf != [] {
        ok := SaveAndTeardown();
      } else {
        ok := needed == 0;
      }
    }

    /** ipc_teardown_all_imports. The addresses stay reserved. */
    method TeardownImports()
      modifies this`imports, this`view
      ensures |imports| == |old(imports)| && forall i | 0 <= i < |imports| ::
                imports[i] == if old(imports)[i].tornDown then old(imports)[i]
                              else old(imports)[i].(tornDown := true, handle := 0)
      ensures LessThan(view, old(view)) && view.fds == old(view).fds
      ensures machine.obliging && AllImportsMapped(old(imports), old(view)) ==>
                view.mapped == old(view).mapped - ImportVas(old(imports), |imports|)
      ensures machine.obliging ==> view.handles == old(view).handles - ImportHandles(old(imports), |imports|)
    {
      assert ImportVas(imports, 0) == {} && view.mapped - {} == view.mapped;
      assert ImportHandles(imports, 0) == {} && view.handles - {} == view.handles;
      for i := 0 to |imports|
        invariant |imports| == |old(imports)|
        invariant forall k | 0 <= k < |imports| ::
                  imports[k] == if k < i then TornImport(old(imports)[k]) else old(imports)[k]
        invariant LessThan(view, old(view)) && view.fds == old(view).fds
        invariant machine.obliging && AllImportsMapped(old(imports), old(view)) ==>
                    view.mapped == old(view).mapped - ImportVas(old(imports), i)
        invariant machine.obliging ==> view.handles == old(view).handles - ImportHandles(old(imports), i)
      {
        var r := imports[i];
        ImportNext(old(imports), i);
        if !r.tornDown {
          RemoveMore(old(view).mapped, ImportVas(old(imports), i), r.va);
          RemoveMore(old(view).handles, ImportHandles(old(imports), i), r.handle);
          Drop(r.va, r.size, r.handle);
        } else {
          assert ImportVas(old(imports), i) + {} == ImportVas(old(imports), i);
          assert ImportHandles(old(imports), i) + {} == ImportHandles(old(imports), i);
        }
        imports := imports[i := TornImport(r)];
      }
    }

    function Now(): Snapshot
      reads this
    {
      Snapshot(view, exports, imports, alias, log, exportBuf, created, handleToVa)
    }

    ghost predicate AllUp(contents: seq<seq<byte>>)
      reads this, machine
    {
      IsUp(Now(), machine.blocks, contents)
    }

    ghost predicate AllTorn(contents: seq<seq<byte>>)
      reads this, machine
    {
      IsTorn(Now(), machine.blocks, contents)
    }

    /** The teardown handler, imports first. */
    method Teardown(ghost contents: seq<seq<byte>>) returns (ok: bool)
      requires machine.obliging && AllUp(contents)
      modifies this`exports, this`imports, this`view, this`exportBuf
      ensures ok && AllTorn(contents)
      ensures SameAllocs(exports, old(exports)) && SameRecords(imports, old(imports))
      ensures Traceable(old(exports), old(view)) ==> Orphaned(exports, view)
      ensures view.issued == old(view).issued
    {
      TakeImports(contents);
      ok := TakeExports(contents);
      if Traceable(old(exports), old(view)) {
        NoneLeft(old(exports), exports, old(view), view);
      }
    }

    /** The exports, once the imports are gone. */
    method TakeExports(ghost contents: seq<seq<byte>>) returns (ok: bool)
      requires machine.obliging && ExportsUp(contents)
      modifies this`exports, this`view, this`exportBuf
      ensures ok && AllTorn(contents) && LessThan(view, old(view)) && SameAllocs(exports, old(exports))
      ensures forall i | 0 <= i < |exports| :: old(exports)[i].handle !in view.handles
      ensures old(exports) != [] ==>
                && view.mapped == old(view).mapped - DroppedVas(old(exports), |exports|)
                && view.handles == old(view).handles - DroppedHandles(old(exports), |exports|)
      ensures old(exports) == [] && old(exportBuf) == [] ==> view == old(view)
    {
      ghost var was := view;
      NeedsSpace(exports, view, machine.blocks, contents);
      ok := TeardownExports();
      AllDownNow(old(exports), was, Now(), machine.blocks, contents);
    }

    /** The exports are up, the imports are not. */
    ghost predicate ExportsUp(contents: seq<seq<byte>>)
      reads this, machine
    {
      && view.Valid(machine.blocks) && Up(exports, view, machine.blocks, contents) && DistinctVas(exports, imports)
      && forall i | 0 <= i < |imports| :: imports[i].tornDown && imports[i].va !in view.mapped
    }

    method TakeImports(ghost contents: seq<seq<byte>>)
      requires machine.obliging && AllUp(contents)
      modifies this`imports, this`view
      ensures ExportsUp(contents) && SameRecords(imports, old(imports)) && LessThan(view, old(view))
    {
      ghost var was := view;
      TeardownImports();
      LessThanValid(view, was, machine.blocks);
      StillUp(exports, imports, old(imports), was, view, machine.blocks, contents);
    }

    /** Create, map, grant for one record. A refused map gives the new handle back. `refused` is whether
        the driver refuses the new memory. */
    method BackOne(recs: seq<Export>, i: nat, dataOffset: nat, refused: bool) returns (ok: bool, r: Rebuilt)
      requires view.Valid(machine.blocks) && i < |recs| && Rebuildable(recs[i])
      modifies this`view, machine
      ensures view.Valid(machine.blocks) && Grown(old(machine.blocks), machine.blocks)
      ensures view.fds == old(view).fds && old(view).issued <= view.issued
      ensures !ok ==> view.handles == old(view).handles && view.mapped == old(view).mapped
      ensures ok ==> var va := recs[i].alloc.va;
                && BackedEntry(r, recs, view, machine.blocks, old(view), old(machine.blocks), log) && r.idx == i
                && view.handles == old(view).handles[r.handle := view.handles[r.handle]]
                && view.mapped == old(view).mapped[va := view.mapped[va]]
                && r.offset == if recs[i].saved.Some? then recs[i].saved.value else dataOffset
      ensures refused ==> !ok
      ensures machine.obliging && !refused && recs[i].alloc.va !in old(view).mapped ==> ok
    {
      var e := recs[i];
      r := Rebuilt(i, 0, if e.saved.Some? then e.saved.value else dataOffset);
      ok := machine.Accepts();
      if !ok || refused {
        return false, r;
      }
      var h := machine.NewHandle(view);
      var b := machine.NewBlock(e.alloc.size);
      r := r.(handle := h);
      view := view.Create(h, b);
      ok := machine.Accepts();
      if !ok || e.alloc.va in view.mapped {
        view := view.Release(h);
        assert view.handles == old(view).handles;
        return false, r;
      }
      view := view.Map(e.alloc.va, h, e.alloc.size).Grant(e.alloc.va, GrantFor(log, e.alloc));
      assert view.mapped == old(view).mapped[e.alloc.va := Window(b, e.alloc.size, GrantFor(log, e.alloc))];
    }

    /** Phase A of ipc_rebuild_and_restore_all_exports: back every torn-down record, in record order. */
    method BackExports(refused: Refusals) returns (entries: seq<Rebuilt>)
      requires view.Valid(machine.blocks)
      modifies this`view, machine
      ensures view.Valid(machine.blocks) && Grown(old(machine.blocks), machine.blocks)
      ensures view.fds == old(view).fds && old(view).issued <= view.issued
      ensures SubMap(old(view).handles, view.handles) && SubMap(old(view).mapped, view.mapped)
              && NewHandlesOnly(view, old(view))
      ensures BackedEntries(entries, exports, view, machine.blocks, old(view), old(machine.blocks), log)
      ensures Chosen(entries, exports, view, old(view), refused, |exports|, machine.obliging)
      ensures OffsetsTaken(entries, exports)
    {
      entries := [];
      var dataOffset := 0;
      for i := 0 to |exports|
        invariant Backing(i, entries, exports, log, view, machine.blocks, old(view), old(machine.blocks),
                          refused, machine.obliging)
        invariant OffsetsTaken(entries, exports) && dataOffset == EndOf(entries, exports)
      {
        var more := BackRecord(i, entries, dataOffset, refused, old(view), old(machine.blocks));
        MoreTaken(entries, more, exports, dataOffset);
        if more != [] {
          dataOffset := Max(dataOffset, more[0].offset + exports[i].alloc.size);
        }
        entries := entries + more;
      }
    }

    /** The entry of record i, if it can be rebuilt and is not refused. */
    method BackRecord(i: nat, ghost entries: seq<Rebuilt>, dataOffset: nat, refused: Refusals, ghost was: View,
                      ghost before: Blocks) returns (more: seq<Rebuilt>)
      requires i < |exports|
               && Backing(i, entries, exports, log, view, machine.blocks, was, before, refused, machine.obliging)
      modifies this`view, machine
      ensures more == [] || (|more| == 1 && more[0].idx == i && more[0].offset == TakenAt(exports[i], dataOffset))
      ensures Backing(i + 1, entries + more, exports, log, view, machine.blocks, was, before, refused,
                      machine.obliging)
    {
      ghost var mid, midBlocks := view, machine.blocks;
      var ok, r := false, Rebuilt(i, 0, 0);
      if Rebuildable(exports[i]) {
        FreeSoFar(i, entries, exports, log, mid, midBlocks, was, before, refused, machine.obliging);
        ok, r := BackOne(exports, i, dataOffset, refused(i));
      }
      more := if ok then [r] else [];
      if ok {
        BackingAdd(i, entries, r, exports, log, mid, midBlocks, view, machine.blocks, was, before, refused,
                   machine.obliging);
      } else {
        BackingSkip(i, entries, exports, log, mid, midBlocks, view, machine.blocks, was, before, refused,
                    machine.obliging);
        assert entries + more == entries;
      }
    }

    /** Phase B: copy the data back, device by device. */
    method RestoreData(recs: seq<Export>, buf: seq<byte>, entries: seq<Rebuilt>, order: seq<nat>)
      requires AllReady(entries, recs, view, machine.blocks) && IsPermutation(order, |entries|)
      modifies machine
      ensures Refilled(|order|, order, entries, recs, view, machine.blocks, old(machine.blocks), buf,
              machine.obliging)
    {
      for k := 0 to |order|
        invariant Refilled(k, order, entries, recs, view, machine.blocks, old(machine.blocks), buf,
                  machine.obliging)
        invariant AllReady(entries, recs, view, machine.blocks)
      {
        CopyIn(recs, buf, k, entries, order, old(machine.blocks));
      }
    }

    /** cuMemcpyHtoD of one entry; a refusal is only logged, and a range beyond the buffer is skipped. */
    method CopyIn(recs: seq<Export>, buf: seq<byte>, k: nat, entries: seq<Rebuilt>, order: seq<nat>,
                  ghost start: Blocks)
      requires AllReady(entries, recs, view, machine.blocks)
      requires k < |order|
               && Refilled(k, order, entries, recs, view, machine.blocks, start, buf, machine.obliging)
      modifies machine
      ensures Refilled(k + 1, order, entries, recs, view, machine.blocks, start, buf, machine.obliging)
      ensures AllReady(entries, recs, view, machine.blocks)
    {
      var r := entries[order[k]];
      assert DataReady(r, recs, view, machine.blocks);
      var a := recs[r.idx].alloc;
      var yes := machine.Accepts();
      if yes && r.offset + a.size <= |buf| {
        var bytes := buf[r.offset..r.offset + a.size];
        RefilledNext(k, order, entries, recs, view, machine.blocks, start, buf, machine.obliging, bytes);
        machine.blocks := machine.blocks[view.mapped[a.va].block := bytes];
      }
    }

    /** Phase C: export the new allocations again and bring the tables up to date. */
    method Reexport(entries: seq<Rebuilt>, order: seq<nat>, ghost newly: set<nat>)
      requires ReadyToExport(entries, exports, view) && IsPermutation(order, |entries|)
      requires forall j | 0 <= j < |entries| :: entries[j].handle in newly
      requires view.Valid(machine.blocks)
      modifies this`exports, this`view, this`alias, this`created, this`handleToVa
      ensures view.Valid(machine.blocks) && view == old(view).(fds := view.fds) && SubMap(old(view).fds, view.fds)
      ensures Reexporting(|order|, order, entries, old(exports), exports, view, old(view), machine.obliging)
      ensures DistinctApps(old(exports)) ==> Renaming(|order|, order, entries, old(exports), alias, created, handleToVa)
      ensures Registered(created, handleToVa, old(created), old(handleToVa), old(exports), newly)
      ensures Realiased(alias, old(alias), old(exports))
    {
      for k := 0 to |order|
        invariant Reexporting(k, order, entries, old(exports), exports, view, old(view), machine.obliging)
        invariant Registered(created, handleToVa, old(created), old(handleToVa), old(exports), newly)
        invariant Realiased(alias, old(alias), old(exports))
        invariant DistinctApps(old(exports)) ==> Renaming(k, order, entries, old(exports), alias, created, handleToVa)
      {
        ReexportOne(k, entries, order, old(exports), old(view), old(created), old(handleToVa), newly);
      }
      StillValid(old(view), view, machine.blocks);
    }

    method ReexportOne(k: nat, entries: seq<Rebuilt>, order: seq<nat>, ghost before: seq<Export>, ghost was: View,
                       ghost created0: map<nat, Created>, ghost handleToVa0: map<nat, nat>, ghost newly: set<nat>)
      requires ReadyToExport(entries, before, was)
      requires forall j | 0 <= j < |entries| :: entries[j].handle in newly
      requires Registered(created, handleToVa, created0, handleToVa0, before, newly)
      requires k < |order| && Reexporting(k, order, entries, before, exports, view, was, machine.obliging)
      requires DistinctApps(before) ==> Renaming(k, order, entries, before, alias, created, handleToVa)
      modifies this`exports, this`view, this`alias, this`created, this`handleToVa
      ensures Reexporting(k + 1, order, entries, before, exports, view, was, machine.obliging)
      ensures DistinctApps(before) ==> Renaming(k + 1, order, entries, before, alias, created, handleToVa)
      ensures Registered(created, handleToVa, created0, handleToVa0, before, newly)
      ensures Realiased(alias, old(alias), before)
    {
      var r := entries[order[k]];
      var e := exports[r.idx];
      var fd: Option<nat> := None;
      ghost var midView := view;
      var yes := machine.Accepts();
      if yes {
        var f := machine.NewFd(view);
        view := view.Open(f, view.handles[r.handle]);
        fd := Some(f);
      }
      var after := e.(handle := r.handle, fd := fd, tornDown := false);
      ReexportNext(k, order, entries, before, exports, midView, was, machine.obliging, after, view);
      exports := exports[r.idx := after];
      Register(k, entries, order, before, e.alloc, created0, handleToVa0, newly);
    }

    /** Bring the handle-keyed tables up to date for one entry. */
    method Register(k: nat, entries: seq<Rebuilt>, order: seq<nat>, ghost before: seq<Export>, a: Alloc,
                    ghost created0: map<nat, Created>, ghost handleToVa0: map<nat, nat>, ghost newly: set<nat>)
      requires k < |order| && IsPermutation(order, |entries|)
      requires forall j | 0 <= j < |entries| ::
                 entries[j].idx < |before| && before[entries[j].idx].alloc.mapped && entries[j].handle in newly
      requires forall i, j | 0 <= i < j < |entries| ::
               entries[i].idx != entries[j].idx && entries[i].handle != entries[j].handle
      requires a == before[entries[order[k]].idx].alloc
      requires DistinctApps(before) ==> Renaming(k, order, entries, before, alias, created, handleToVa)
      requires Registered(created, handleToVa, created0, handleToVa0, before, newly)
      modifies this`alias, this`created, this`handleToVa
      ensures DistinctApps(before) ==> Renaming(k + 1, order, entries, before, alias, created, handleToVa)
      ensures Registered(created, handleToVa, created0, handleToVa0, before, newly)
      ensures Realiased(alias, old(alias), before)
    {
      var r := entries[order[k]];
      if DistinctApps(before) {
        RenameNext(k, order, entries, before, alias, created, handleToVa);
      }
      alias := Renamed(alias, a.app, r.handle);
      created := created[r.handle := Created(a.size, if a.prop.Some? then a.prop.value else 0)];
      handleToVa := handleToVa[r.handle := a.va];
    }

    /** ipc_rebuild_and_restore_all_exports. `refused` are the records for which the driver refuses new
        memory: such a record is skipped, stays down, and is not reported. */
    method RebuildAndRestore(refused: Refusals) returns (rebuilt: nat)
      requires view.Valid(machine.blocks)
      modifies this`exports, this`view, this`alias, this`created, this`handleToVa, machine
      ensures view.Valid(machine.blocks) && Grown(old(machine.blocks), machine.blocks)
      ensures SameAllocs(exports, old(exports)) && SubMap(old(view).mapped, view.mapped)
              && SubMap(old(view).fds, view.fds)
      ensures OnlyRebuilt(old(exports), exports, view, old(view), refused)
      ensures Registered(created, handleToVa, old(created), old(handleToVa), old(exports),
                         view.issued - old(view).issued)
              && old(view).issued <= view.issued && Realiased(alias, old(alias), old(exports))
      ensures machine.obliging ==>
                AllBackable(old(exports), exports, view, machine.blocks, old(view), exportBuf, log, refused)
      ensures machine.obliging && AllFree(old(exports), old(view), refused) ==>
                OwnBlocks(exports, view, old(machine.blocks))
      ensures machine.obliging && AllFree(old(exports), old(view), refused) && Orphaned(old(exports), old(view)) ==>
                Owned(exports, view, alias)
    {
      ghost var t;
      rebuilt, t := Phases(refused);
      Conclude(t, old(exports), exports, view, machine.blocks, old(view), old(machine.blocks), exportBuf, refused,
               machine.obliging, log, alias, created, handleToVa);
    }

    method Phases(refused: Refusals) returns (rebuilt: nat, ghost t: Trace)
      requires view.Valid(machine.blocks)
      modifies this`exports, this`view, this`alias, this`created, this`handleToVa, machine
      ensures view.Valid(machine.blocks) && Grown(old(machine.blocks), machine.blocks)
      ensures SubMap(old(view).mapped, view.mapped) && SubMap(old(view).fds, view.fds)
      ensures Registered(created, handleToVa, old(created), old(handleToVa), old(exports),
                         view.issued - old(view).issued)
              && old(view).issued <= view.issued && Realiased(alias, old(alias), old(exports))
      ensures Traced(t, old(exports), exports, view, machine.blocks, old(view), old(machine.blocks), exportBuf,
                     refused, machine.obliging, log)
      ensures DistinctApps(old(exports)) ==>
                Renaming(|t.order|, t.order, t.entries, old(exports), alias, created, handleToVa)
    {
      ghost var backed;
      var entries, order;
      entries, order, backed := BackAndRefill(refused);
      rebuilt := |entries|;
      t := Trace(entries, order, view, backed);
      Reexport(entries, order, view.issued - old(view).issued);
    }

    /** Phases A and B. `backed` are the blocks in between. */
    method BackAndRefill(refused: Refusals) returns (entries: seq<Rebuilt>, order: seq<nat>, ghost backed: Blocks)
      requires view.Valid(machine.blocks)
      modifies this`view, machine
      ensures view.Valid(machine.blocks) && Grown(old(machine.blocks), machine.blocks)
      ensures view.fds == old(view).fds && SubMap(old(view).mapped, view.mapped)
      ensures old(view).issued <= view.issued && NewHandlesOnly(view, old(view))
      ensures BackedEntries(entries, exports, view, backed, old(view), old(machine.blocks), log)
      ensures Refilled(|order|, order, entries, exports, view, machine.blocks, backed, exportBuf, machine.obliging)
      ensures ReadyToExport(entries, exports, view) && IsPermutation(order, |entries|)
      ensures forall j | 0 <= j < |entries| :: entries[j].handle in view.issued - old(view).issued
      ensures Chosen(entries, exports, view, old(view), refused, |exports|, machine.obliging)
    {
      entries := BackExports(refused);
      backed := machine.blocks;
      EntriesReady(entries, exports, view, machine.blocks, old(view), old(machine.blocks), log);
      EntriesNew(entries, exports, view, machine.blocks, old(view), old(machine.blocks), log);
      order := RebuildOrder(entries, exports);
      RestoreData(exports, exportBuf, entries, order);
      RefillKeeps(entries, order, exports, view, backed, machine.blocks, old(view), old(machine.blocks), exportBuf,
        machine.obliging, log);
    }
  }

  /** Record i is up again, at a new block that holds its range of the buffer, with the rights of its
      log, and can be fetched through its descriptor. */
  ghost predicate RestoredOne(before: Export, after: Export, view: View, blocks: Blocks, buf: seq<byte>,
                              log: map<nat, seq<AccessLog.Desc>>) {
    && before.tornDown && before.alloc.mapped && before.alloc.size > 0 && before.alloc.prop.Some?
    && before.saved.Some?
    && after == before.(handle := after.handle, fd := after.fd, tornDown := false)
    && after.handle in view.handles && Shared(after, view)
    && after.alloc.va in view.mapped
    && BackedWindow(after.alloc, view.mapped[after.alloc.va], view.handles[after.handle], log)
    && DataBack(Rebuilt(0, after.handle, before.saved.value), after.alloc.size, view, blocks, buf)
    && |blocks[view.handles[after.handle]]| == after.alloc.size
  }

  /** Record i can be rebuilt and has a saved offset, its address is free and no other record's, and the
      driver finds memory for it. */
  ghost predicate Backable(exports: seq<Export>, i: nat, was: View, refused: Refusals) {
    && i < |exports| && !refused(i)
    && exports[i].tornDown && exports[i].alloc.mapped && exports[i].alloc.size > 0 && exports[i].alloc.prop.Some?
    && exports[i].saved.Some?
    && exports[i].alloc.va !in was.mapped
    && forall j | 0 <= j < |exports| && j != i && Rebuildable(exports[j]) :: exports[j].alloc.va != exports[i].alloc.va
  }

  /** Every record of which this is true comes back, whatever becomes of the others. */
  ghost predicate AllBackable(before: seq<Export>, exports: seq<Export>, view: View, blocks: Blocks, was: View,
                              buf: seq<byte>, log: map<nat, seq<AccessLog.Desc>>, refused: Refusals) {
    && |exports| == |before|
    && forall i | 0 <= i < |exports| && Backable(before, i, was, refused) ::
         RestoredOne(before[i], exports[i], view, blocks, buf, log)
  }

  /** Whatever is refused, a record that changed could be rebuilt, and is up; refused records do not
      change; and only the addresses of records that changed are newly mapped. */
  ghost predicate OnlyRebuilt(before: seq<Export>, exports: seq<Export>, view: View, was: View, refused: Refusals) {
    && |exports| == |before|
    && (forall i | 0 <= i < |exports| && exports[i] != before[i] ::
          && before[i].tornDown && before[i].alloc.mapped && before[i].alloc.size > 0 && before[i].alloc.prop.Some?
          && Active(exports[i]) && exports[i].alloc.va in view.mapped && !refused(i))
    && (forall va | va in view.mapped && va !in was.mapped :: ChangedAt(before, exports, va))
  }

  ghost predicate ChangedAt(before: seq<Export>, exports: seq<Export>, va: nat)
    requires |exports| == |before|
  {
    exists i :: 0 <= i < |exports| && exports[i] != before[i] && exports[i].alloc.va == va
  }

  /** The entries among the first n records: every backable one has an entry with its saved offset, no
      refused one has any, and nothing else is newly mapped. */
  ghost predicate Chosen(entries: seq<Rebuilt>, exports: seq<Export>, view: View, was: View, refused: Refusals, n: nat,
                         obliging: bool) {
    && (forall k | 0 <= k < |entries| :: entries[k].idx < n && !refused(entries[k].idx))
    && (forall va | va in view.mapped && va !in was.mapped :: EntryAtVa(entries, exports, va))
    && (obliging ==> forall i | 0 <= i < n && Backable(exports, i, was, refused) :: EntryWith(entries, exports, i))
  }

  ghost predicate EntryAtVa(entries: seq<Rebuilt>, exports: seq<Export>, va: nat) {
    exists k :: 0 <= k < |entries| && entries[k].idx < |exports| && exports[entries[k].idx].alloc.va == va
  }

  ghost predicate EntryWith(entries: seq<Rebuilt>, exports: seq<Export>, i: nat) {
    exists k :: 0 <= k < |entries| && entries[k].idx == i && i < |exports|
      && exports[i].saved == Some(entries[k].offset)
  }

  lemma {:induction false} EntriesNew(entries: seq<Rebuilt>, exports: seq<Export>, view: View, blocks: Blocks,
                                      was: View, old_: Blocks, log: map<nat, seq<AccessLog.Desc>>)
    requires BackedEntries(entries, exports, view, blocks, was, old_, log) && view.Valid(blocks)
    ensures forall j | 0 <= j < |entries| :: entries[j].handle in view.issued - was.issued
  {
  }

  lemma {:induction false} EntriesReady(entries: seq<Rebuilt>, exports: seq<Export>, view: View, blocks: Blocks,
                                        was: View, old_: Blocks, log: map<nat, seq<AccessLog.Desc>>)
    requires BackedEntries(entries, exports, view, blocks, was, old_, log)
    ensures AllReady(entries, exports, view, blocks) && ReadyToExport(entries, exports, view)
  {
  }

  /** Copying the data back touches none of the blocks there were before the rebuild. */
  lemma {:induction false} RefillKeeps(entries: seq<Rebuilt>, order: seq<nat>, exports: seq<Export>, view: View,
                                       backed: Blocks, blocks: Blocks, was: View, old_: Blocks, buf: seq<byte>,
                                       obliging: bool, log: map<nat, seq<AccessLog.Desc>>)
    requires BackedEntries(entries, exports, view, backed, was, old_, log) && view.Valid(backed) && Grown(old_, backed)
    requires Refilled(|order|, order, entries, exports, view, blocks, backed, buf, obliging)
    ensures view.Valid(blocks) && Grown(old_, blocks)
  {
  }

  /** What a rebuild did: the entries, the order they were visited in, and the process and the blocks
      before the last phase and after the first. */
  datatype Trace = Trace(entries: seq<Rebuilt>, order: seq<nat>, mid: View, backed: Blocks)

  ghost predicate Traced(t: Trace, before: seq<Export>, exports: seq<Export>, view: View, blocks: Blocks, was: View,
                         old_: Blocks, buf: seq<byte>, refused: Refusals, obliging: bool,
                         log: map<nat, seq<AccessLog.Desc>>)
  {
    && BackedEntries(t.entries, before, t.mid, t.backed, was, old_, log)
    && Refilled(|t.order|, t.order, t.entries, before, t.mid, blocks, t.backed, buf, obliging)
    && Reexporting(|t.order|, t.order, t.entries, before, exports, view, t.mid, obliging)
    && was.issued <= t.mid.issued && NewHandlesOnly(t.mid, was)
    && Chosen(t.entries, before, t.mid, was, refused, |before|, obliging)
  }

  lemma {:induction false} Conclude(t: Trace, before: seq<Export>, exports: seq<Export>, view: View, blocks: Blocks,
                                    was: View, old_: Blocks, buf: seq<byte>, refused: Refusals, obliging: bool,
                                    log: map<nat, seq<AccessLog.Desc>>, alias: map<nat, nat>,
                                    created: map<nat, Created>, handleToVa: map<nat, nat>)
    requires Traced(t, before, exports, view, blocks, was, old_, buf, refused, obliging, log)
    requires DistinctApps(before) ==> Renaming(|t.order|, t.order, t.entries, before, alias, created, handleToVa)
    ensures SameAllocs(exports, before) && OnlyRebuilt(before, exports, view, was, refused)
    ensures obliging ==> AllBackable(before, exports, view, blocks, was, buf, log, refused)
    ensures obliging && AllFree(before, was, refused) ==> OwnBlocks(exports, view, old_)
    ensures obliging && AllFree(before, was, refused) && Orphaned(before, was) ==> Owned(exports, view, alias)
  {
    RebuildOutcome(t, before, exports, view, blocks, was, old_, buf, refused, obliging, log);
    if obliging && AllFree(before, was, refused) {
      FreeIsBackable(before, was, refused);
      NewBlocks(t.entries, before, exports, t.mid, view, t.backed, was, old_, refused, log);
      NewOwners(t.entries, t.order, before, exports, t.mid, view, t.backed, was, old_, refused, log, alias, created,
                handleToVa);
    }
  }

  /** The three phases together. */
  lemma {:induction false} RebuildOutcome(t: Trace, before: seq<Export>, exports: seq<Export>, view: View,
                                          blocks: Blocks, was: View, old_: Blocks, buf: seq<byte>, refused: Refusals,
                                          obliging: bool, log: map<nat, seq<AccessLog.Desc>>)
    requires Traced(t, before, exports, view, blocks, was, old_, buf, refused, obliging, log)
    ensures SameAllocs(exports, before)
    ensures OnlyRebuilt(before, exports, view, was, refused)
    ensures obliging ==> AllBackable(before, exports, view, blocks, was, buf, log, refused)
  {
    forall i | 0 <= i < |exports|
      ensures exports[i].alloc == before[i].alloc
      ensures exports[i] != before[i] ==>
                Rebuildable(before[i]) && Active(exports[i]) && exports[i].alloc.va in view.mapped && !refused(i)
    {
      if EntryFor(t.entries, i) {
        var j :| 0 <= j < |t.entries| && t.entries[j].idx == i;
        RebuildOutcomeAt(j, t.entries, t.order, before, exports, t.mid, view, t.backed, blocks, was, old_, buf,
                         obliging, log);
      }
    }
    NewlyMapped(t, before, exports, view, blocks, was, old_, buf, refused, obliging, log);
    if obliging {
      BackableBack(t, before, exports, view, blocks, was, old_, buf, refused, log);
    }
  }

  lemma {:induction false} NewlyMapped(t: Trace, before: seq<Export>, exports: seq<Export>, view: View, blocks: Blocks,
                                       was: View, old_: Blocks, buf: seq<byte>, refused: Refusals, obliging: bool,
                                       log: map<nat, seq<AccessLog.Desc>>)
    requires Traced(t, before, exports, view, blocks, was, old_, buf, refused, obliging, log)
    ensures forall va | va in view.mapped && va !in was.mapped :: ChangedAt(before, exports, va)
  {
    forall va | va in view.mapped && va !in was.mapped
      ensures ChangedAt(before, exports, va)
    {
      assert EntryAtVa(t.entries, before, va);
      var k :| 0 <= k < |t.entries| && t.entries[k].idx < |before| && before[t.entries[k].idx].alloc.va == va;
      RebuildOutcomeAt(k, t.entries, t.order, before, exports, t.mid, view, t.backed, blocks, was, old_, buf,
                       obliging, log);
    }
  }

  lemma {:induction false} BackableBack(t: Trace, before: seq<Export>, exports: seq<Export>, view: View, blocks: Blocks,
                                        was: View, old_: Blocks, buf: seq<byte>, refused: Refusals,
                                        log: map<nat, seq<AccessLog.Desc>>)
    requires Traced(t, before, exports, view, blocks, was, old_, buf, refused, true, log)
    ensures AllBackable(before, exports, view, blocks, was, buf, log, refused)
  {
    forall i | 0 <= i < |exports| && Backable(before, i, was, refused)
      ensures RestoredOne(before[i], exports[i], view, blocks, buf, log)
    {
      assert EntryWith(t.entries, before, i);
      var k :| 0 <= k < |t.entries| && t.entries[k].idx == i && before[i].saved == Some(t.entries[k].offset);
      RebuildOutcomeAt(k, t.entries, t.order, before, exports, t.mid, view, t.backed, blocks, was, old_, buf, true,
                       log);
    }
  }

  lemma {:induction false} RebuildOutcomeAt(j: nat, entries: seq<Rebuilt>, order: seq<nat>, before: seq<Export>,
                                            exports: seq<Export>, mid: View, view: View, backed: Blocks, blocks: Blocks,
                                            was: View, old_: Blocks, buf: seq<byte>, obliging: bool,
                                            log: map<nat, seq<AccessLog.Desc>>)
    requires BackedEntries(entries, before, mid, backed, was, old_, log) && j < |entries|
    requires Refilled(|order|, order, entries, before, mid, blocks, backed, buf, obliging)
    requires Reexporting(|order|, order, entries, before, exports, view, mid, obliging)
    ensures var i := entries[j].idx;
            && i < |before| && Rebuildable(before[i]) && exports[i].alloc == before[i].alloc && Active(exports[i])
            && exports[i].alloc.va in view.mapped
            && (obliging && before[i].saved == Some(entries[j].offset) ==>
                 RestoredOne(before[i], exports[i], view, blocks, buf, log))
  {
    assert j in order;
    var m :| 0 <= m < |order| && order[m] == j;
    var r := entries[j];
    assert BackedEntry(r, before, mid, backed, was, old_, log);
    assert Reexported(before[r.idx], exports[r.idx], entries[order[m]], view, obliging);
    if obliging {
      assert DataBack(entries[order[m]], SizeOf(entries[order[m]], before), mid, blocks, buf);
    }
  }

  /** Entry r is mapped to its own block, which is as large as the record. */
  ghost predicate DataReady(r: Rebuilt, exports: seq<Export>, view: View, blocks: Blocks) {
    && r.idx < |exports| && r.handle in view.handles && view.handles[r.handle] in blocks
    && |blocks[view.handles[r.handle]]| == exports[r.idx].alloc.size
    && exports[r.idx].alloc.va in view.mapped && view.mapped[exports[r.idx].alloc.va].block == view.handles[r.handle]
  }

  ghost predicate ReadyToExport(entries: seq<Rebuilt>, exports: seq<Export>, view: View) {
    && (forall j | 0 <= j < |entries| ::
          && entries[j].idx < |exports| && exports[entries[j].idx].alloc.mapped
          && entries[j].handle in view.handles)
    && (forall a, b | 0 <= a < b < |entries| ::
       entries[a].idx != entries[b].idx && entries[a].handle != entries[b].handle)
  }

  lemma {:induction false} NewBlocks(entries: seq<Rebuilt>, before: seq<Export>, exports: seq<Export>, mid: View,
                                     view: View, backed: Blocks, was: View, old_: Blocks, refused: Refusals,
                                     log: map<nat, seq<AccessLog.Desc>>)
    requires BackedEntries(entries, before, mid, backed, was, old_, log)
    requires forall i | 0 <= i < |before| :: EntryWith(entries, before, i)
    requires view.mapped == mid.mapped && SameAllocs(exports, before)
    ensures OwnBlocks(exports, view, old_)
  {
    forall i, j | 0 <= i < j < |exports|
      ensures exports[i].alloc.va in view.mapped && exports[j].alloc.va in view.mapped
      ensures view.mapped[exports[i].alloc.va].block != view.mapped[exports[j].alloc.va].block
    {
      assert EntryWith(entries, before, i) && EntryWith(entries, before, j);
      var a :| 0 <= a < |entries| && entries[a].idx == i;
      var b :| 0 <= b < |entries| && entries[b].idx == j;
      assert BackedEntry(entries[a], before, mid, backed, was, old_, log);
      assert BackedEntry(entries[b], before, mid, backed, was, old_, log);
      assert a < b;
    }
    forall i | 0 <= i < |exports|
      ensures exports[i].alloc.va in view.mapped && view.mapped[exports[i].alloc.va].block !in old_
    {
      assert EntryWith(entries, before, i);
      var a :| 0 <= a < |entries| && entries[a].idx == i;
      assert BackedEntry(entries[a], before, mid, backed, was, old_, log);
    }
  }

  lemma {:induction false} NewOwners(entries: seq<Rebuilt>, order: seq<nat>, before: seq<Export>, exports: seq<Export>,
                                     mid: View, view: View, backed: Blocks, was: View, old_: Blocks, refused: Refusals,
                                     log: map<nat, seq<AccessLog.Desc>>, alias: map<nat, nat>,
                                     created: map<nat, Created>, handleToVa: map<nat, nat>)
    requires BackedEntries(entries, before, mid, backed, was, old_, log)
    requires forall i | 0 <= i < |before| :: EntryWith(entries, before, i)
    requires Reexporting(|order|, order, entries, before, exports, view, mid, true) && SameAllocs(exports, before)
    requires was.issued <= mid.issued && NewHandlesOnly(mid, was)
    requires DistinctApps(before) ==> Renaming(|order|, order, entries, before, alias, created, handleToVa)
    ensures Orphaned(before, was) ==> Owned(exports, view, alias)
  {
    forall i | 0 <= i < |exports| && Orphaned(before, was)
      ensures OwnedOne(exports[i], view, alias)
    {
      assert EntryWith(entries, before, i);
      var k :| 0 <= k < |entries| && entries[k].idx == i;
      assert BackedEntry(entries[k], before, mid, backed, was, old_, log);
      assert k in order;
      var m :| 0 <= m < |order| && order[m] == k;
      assert Reexported(before[entries[order[m]].idx], exports[entries[order[m]].idx], entries[order[m]], view, true);
      assert Tabled(entries[order[m]], before, alias, created, handleToVa);
    }
  }

  /** Handles held since then were never given out before. */
  ghost predicate NewHandlesOnly(view: View, was: View) {
    forall h | h in view.handles && h !in was.handles :: h !in was.issued
  }

  /** Descriptors for live handles keep a process valid. */
  lemma {:induction false} StillValid(mid: View, view: View, blocks: Blocks)
    requires mid.Valid(blocks) && view == mid.(fds := view.fds) && SubMap(mid.fds, view.fds)
    requires forall f | f in view.fds && f !in mid.fds :: view.fds[f] in mid.handles.Values
    ensures view.Valid(blocks)
  {
  }

  ghost predicate AllReady(entries: seq<Rebuilt>, exports: seq<Export>, view: View, blocks: Blocks) {
    && (forall k | 0 <= k < |entries| :: DataReady(entries[k], exports, view, blocks))
    && (forall a, b | 0 <= a < b < |entries| ::
          && entries[a].handle in view.handles && entries[b].handle in view.handles
          && view.handles[entries[a].handle] != view.handles[entries[b].handle])
  }

  /** The first i records have been visited; `entries` are the ones backed. */
  ghost predicate Backing(i: nat, entries: seq<Rebuilt>, exports: seq<Export>, log: map<nat, seq<AccessLog.Desc>>,
                          view: View, blocks: Blocks, was: View, before: Blocks, refused: Refusals, obliging: bool)
  {
    && i <= |exports| && OnlyAdded(view, blocks, was, before)
    && BackedEntries(entries, exports, view, blocks, was, before, log)
    && Chosen(entries, exports, view, was, refused, i, obliging)
  }

  /** Handles, mappings and blocks have only been added. */
  ghost predicate OnlyAdded(view: View, blocks: Blocks, was: View, before: Blocks) {
    && view.Valid(blocks) && Grown(before, blocks)
    && view.fds == was.fds && was.issued <= view.issued
    && SubMap(was.handles, view.handles) && SubMap(was.mapped, view.mapped)
    && NewHandlesOnly(view, was)
  }

  lemma {:induction false} AddedOne(mid: View, midBlocks: Blocks, view: View, blocks: Blocks, was: View, before: Blocks,
                                    h: nat, va: nat)
    requires OnlyAdded(mid, midBlocks, was, before)
    requires view.Valid(blocks) && Grown(midBlocks, blocks) && view.fds == mid.fds && mid.issued <= view.issued
    requires h in view.handles && h !in mid.issued && view.handles == mid.handles[h := view.handles[h]]
    requires va in view.mapped && va !in mid.mapped && view.mapped == mid.mapped[va := view.mapped[va]]
    ensures OnlyAdded(view, blocks, was, before)
    ensures SubMap(mid.handles, view.handles) && SubMap(mid.mapped, view.mapped)
  {
  }

  lemma {:induction false} ChosenOne(entries: seq<Rebuilt>, r: Rebuilt, exports: seq<Export>, mid: View, view: View,
                                     was: View, refused: Refusals, i: nat, obliging: bool)
    requires i < |exports| && Chosen(entries, exports, mid, was, refused, i, obliging) && r.idx == i && !refused(i)
    requires exports[i].alloc.va in view.mapped
    requires view.mapped == mid.mapped[exports[i].alloc.va := view.mapped[exports[i].alloc.va]]
    requires exports[i].saved.Some? ==> r.offset == exports[i].saved.value
    ensures Chosen(entries + [r], exports, view, was, refused, i + 1, obliging)
  {
    var more := entries + [r];
    assert more[|entries|] == r;
    forall va | va in view.mapped && va !in was.mapped
      ensures EntryAtVa(more, exports, va)
    {
      if va != exports[i].alloc.va {
        var k :| 0 <= k < |entries| && entries[k].idx < |exports| && exports[entries[k].idx].alloc.va == va;
        assert more[k] == entries[k];
      }
    }
    forall j | 0 <= j < i + 1 && Backable(exports, j, was, refused) && obliging
      ensures EntryWith(more, exports, j)
    {
      if j < i {
        assert EntryWith(entries, exports, j);
        var k :| 0 <= k < |entries| && entries[k].idx == j && exports[j].saved == Some(entries[k].offset);
        assert more[k] == entries[k];
      }
    }
  }

  /** Nothing is mapped yet at the address of a backable record visited next. */
  lemma {:induction false} FreeSoFar(i: nat, entries: seq<Rebuilt>, exports: seq<Export>,
                                     log: map<nat, seq<AccessLog.Desc>>, view: View, blocks: Blocks, was: View,
                                     before: Blocks, refused: Refusals, obliging: bool)
    requires i < |exports| && Backing(i, entries, exports, log, view, blocks, was, before, refused, obliging)
    ensures Backable(exports, i, was, refused) ==> exports[i].alloc.va !in view.mapped
  {
  }

  /** A record that is not backed leaves mappings and handles alone. */
  lemma {:induction false} BackingSkip(i: nat, entries: seq<Rebuilt>, exports: seq<Export>,
                                       log: map<nat, seq<AccessLog.Desc>>, mid: View, midBlocks: Blocks, view: View,
                                       blocks: Blocks, was: View, before: Blocks, refused: Refusals, obliging: bool)
    requires i < |exports| && Backing(i, entries, exports, log, mid, midBlocks, was, before, refused, obliging)
    requires view.Valid(blocks) && Grown(midBlocks, blocks)
    requires view.handles == mid.handles && view.mapped == mid.mapped && view.fds == mid.fds
             && mid.issued <= view.issued
    requires !(obliging && Backable(exports, i, was, refused))
    ensures Backing(i + 1, entries, exports, log, view, blocks, was, before, refused, obliging)
  {
    forall k | 0 <= k < |entries|
      ensures BackedEntry(entries[k], exports, view, blocks, was, before, log)
    {
      assert BackedEntry(entries[k], exports, mid, midBlocks, was, before, log);
    }
  }

  lemma {:induction false} BackingAdd(i: nat, entries: seq<Rebuilt>, r: Rebuilt, exports: seq<Export>,
                                      log: map<nat, seq<AccessLog.Desc>>, mid: View, midBlocks: Blocks, view: View,
                                      blocks: Blocks, was: View, before: Blocks, refused: Refusals, obliging: bool)
    requires i < |exports| && Backing(i, entries, exports, log, mid, midBlocks, was, before, refused, obliging)
    requires view.Valid(blocks) && Grown(midBlocks, blocks) && view.fds == mid.fds && mid.issued <= view.issued
    requires BackedEntry(r, exports, view, blocks, mid, midBlocks, log) && r.idx == i && !refused(i)
    requires view.handles == mid.handles[r.handle := view.handles[r.handle]]
    requires view.mapped == mid.mapped[exports[i].alloc.va := view.mapped[exports[i].alloc.va]]
    requires exports[i].saved.Some? ==> r.offset == exports[i].saved.value
    ensures Backing(i + 1, entries + [r], exports, log, view, blocks, was, before, refused, obliging)
  {
    StillNew(r, exports, mid, midBlocks, view, blocks, was, before, log);
    AddedOne(mid, midBlocks, view, blocks, was, before, r.handle, exports[i].alloc.va);
    ChosenOne(entries, r, exports, mid, view, was, refused, i, obliging);
    BackedMore(entries, exports, mid, midBlocks, was, before, r, view, blocks, log);
  }

  /** What is new after the middle is new after the start. */
  lemma {:induction false} StillNew(r: Rebuilt, exports: seq<Export>, mid: View, midBlocks: Blocks, view: View,
                                    blocks: Blocks, was: View, before: Blocks, log: map<nat, seq<AccessLog.Desc>>)
    requires BackedEntry(r, exports, view, blocks, mid, midBlocks, log)
    requires was.issued <= mid.issued && SubMap(was.mapped, mid.mapped) && Grown(before, midBlocks)
    ensures BackedEntry(r, exports, view, blocks, was, before, log)
  {
  }

  /** All records can be rebuilt, at different addresses where nothing is mapped, and none is refused. */
  ghost predicate AllFree(exports: seq<Export>, view: View, refused: Refusals) {
    && (forall i | 0 <= i < |exports| ::
          Rebuildable(exports[i]) && exports[i].saved.Some? && exports[i].alloc.va !in view.mapped && !refused(i))
    && (forall i, j | 0 <= i < j < |exports| :: exports[i].alloc.va != exports[j].alloc.va)
  }

  lemma {:induction false} FreeIsBackable(exports: seq<Export>, view: View, refused: Refusals)
    requires AllFree(exports, view, refused)
    ensures forall i | 0 <= i < |exports| :: Backable(exports, i, view, refused)
  {
  }

  /** Neither the save nor closing descriptors changes which records get dropped, or where they are. */
  lemma {:induction false} SameDroppable(before: seq<Export>, marked: seq<Export>)
    requires SameBut(before, marked)
    ensures SameAllocs(before, marked)
    ensures DroppedVas(marked, |marked|) == DroppedVas(before, |before|)
    ensures DroppedHandles(marked, |marked|) == DroppedHandles(before, |before|)
    ensures forall view :: AllMapped(before, view) ==> AllMapped(marked, view)
    ensures OpenFds(marked, |marked|) == OpenFds(before, |before|)
  {
  }

  lemma {:induction false} SameClosed(before: seq<Export>, closed: seq<Export>)
    requires |closed| == |before| && forall i | 0 <= i < |closed| :: closed[i] == WithoutFd(before[i])
    ensures SameAllocs(before, closed)
    ensures DroppedVas(closed, |closed|) == DroppedVas(before, |before|)
    ensures DroppedHandles(closed, |closed|) == DroppedHandles(before, |before|)
    ensures forall view :: AllMapped(before, view) ==> AllMapped(closed, view)
  {
  }

  /** What a successful save and teardown leaves: every active record is down, at its offset of the
      buffer; a record that was down before keeps its old offset. */
  ghost predicate SavedAndDown(before: seq<Export>, after: seq<Export>, buf: seq<byte>, contents: seq<seq<byte>>) {
    && |after| == |before| && SavedUpTo(buf, before, SaveOrder(before), contents, |SaveOrder(before)|)
    && (forall m | 0 <= m < |SaveOrder(before)| :: MarkedAt(before, after, SaveOrder(before), m))
    && (forall i | 0 <= i < |before| :: DownFrom(before[i], after[i]))
  }

  ghost predicate DownFrom(before: Export, after: Export) {
    if !before.tornDown && before.alloc.mapped
    then after == before.(saved := after.saved, fd := None, tornDown := true, handle := 0)
    else if !before.tornDown then after == before.(fd := None)
    else after == before
  }

  lemma {:induction false} MarkedDown(before: seq<Export>, marked: seq<Export>, after: seq<Export>, buf: seq<byte>,
                                      contents: seq<seq<byte>>)
    requires var order := SaveOrder(before);
             Marked(before, marked, order, |order|) && SavedUpTo(buf, before, order, contents, |order|)
    requires |after| == |before| && forall i | 0 <= i < |after| :: after[i] == Dropped(WithoutFd(marked[i]))
    ensures SavedAndDown(before, after, buf, contents) && SameAllocs(after, before) && NoNewHandles(after, before)
  {
    forall i | 0 <= i < |before|
      ensures DownOne(before[i], marked[i], after[i])
    {
      assert SameButSaved(before[i], marked[i]);
    }
    MarksStay(before, marked, after, SaveOrder(before));
  }

  /** A record that is torn down keeps the offset its bytes were saved at. */
  ghost predicate DownOne(before: Export, marked: Export, after: Export) {
    && DownFrom(before, after) && after.alloc == before.alloc && after.saved == marked.saved
    && (after.handle == before.handle || after.handle == 0)
  }

  lemma {:induction false} MarksStay(before: seq<Export>, marked: seq<Export>, after: seq<Export>, order: seq<nat>)
    requires Marked(before, marked, order, |order|) && |after| == |before|
    requires forall i | 0 <= i < |before| :: DownOne(before[i], marked[i], after[i])
    ensures forall m | 0 <= m < |order| :: MarkedAt(before, after, order, m)
  {
    forall m | 0 <= m < |order|
      ensures MarkedAt(before, after, order, m)
    {
      assert MarkedAt(before, marked, order, m) && DownOne(before[order[m]], marked[order[m]], after[order[m]]);
    }
  }

  /** Every record that was active has its bytes in the buffer. */
  lemma {:induction false} SavedIsTorn(before: seq<Export>, after: seq<Export>, buf: seq<byte>,
                                       contents: seq<seq<byte>>, i: nat)
    requires SavedAndDown(before, after, buf, contents) && i < |before| && Active(before[i])
    requires before[i].alloc.prop.Some?
    ensures TornOne(after[i], buf, contents[i])
  {
    var order := SaveOrder(before);
    var k :| 0 <= k < |order| && order[k] == i;
    assert MarkedAt(before, after, order, k) && RecordSaved(buf, before, order, contents, k);
    assert DownFrom(before[i], after[i]);
  }

  lemma {:induction false} AllSavedTorn(before: seq<Export>, after: seq<Export>, buf: seq<byte>,
                                        contents: seq<seq<byte>>)
    requires SavedAndDown(before, after, buf, contents)
    requires forall i | 0 <= i < |before| :: Active(before[i]) && before[i].alloc.prop.Some?
    ensures Torn(after, buf, contents)
  {
    forall i | 0 <= i < |after|
      ensures TornOne(after[i], buf, contents[i])
    {
      SavedIsTorn(before, after, buf, contents, i);
    }
  }

  lemma {:induction false} NothingToSave(exports: seq<Export>, n: nat)
    requires n <= |exports|
    ensures DataSize(exports, n) == 0 ==> forall i | 0 <= i < n :: !Active(exports[i])
  {
    if n > 0 {
      NothingToSave(exports, n - 1);
    }
  }

  /** Taking the imports down leaves the exports up. */
  lemma {:induction false} StillUp(exports: seq<Export>, torn: seq<Import>, imports: seq<Import>, was: View, view: View,
                                   blocks: Blocks, contents: seq<seq<byte>>)
    requires Up(exports, was, blocks, contents) && DistinctVas(exports, imports)
    requires |torn| == |imports| && forall i | 0 <= i < |imports| ::
             !imports[i].tornDown && torn[i] == TornImport(imports[i])
    requires view.mapped == was.mapped - ImportVas(imports, |imports|)
    ensures Up(exports, view, blocks, contents) && DistinctVas(exports, torn) && SameRecords(torn, imports)
    ensures forall i | 0 <= i < |torn| :: torn[i].tornDown && torn[i].va !in view.mapped
  {
  }

  /** Exports that are up can all be saved, and their contents are what the save reads. */
  lemma {:induction false} NeedsSpace(exports: seq<Export>, view: View, blocks: Blocks, contents: seq<seq<byte>>)
    requires Up(exports, view, blocks, contents)
    ensures exports != [] ==> DataSize(exports, |exports|) > 0
    ensures AllMapped(exports, view) && ContentsOf(exports, view, blocks) == contents
    ensures forall i | 0 <= i < |exports| ::
            Active(exports[i]) && Readable(view, exports[i].alloc.va, exports[i].alloc.size)
            && exports[i].alloc.prop.Some?
  {
  }

  lemma {:induction false} AllDropped<V, W>(exports: seq<Export>, mapped: map<nat, V>, handles: map<nat, W>)
    requires forall i | 0 <= i < |exports| :: Active(exports[i])
    ensures forall i | 0 <= i < |exports| :: exports[i].alloc.va !in mapped - DroppedVas(exports, |exports|)
    ensures forall i | 0 <= i < |exports| :: exports[i].handle !in handles - DroppedHandles(exports, |exports|)
  {
  }

  /** What TeardownExports leaves, when all exports were up and the imports already gone. */
  lemma {:induction false} AllDownNow(before: seq<Export>, was: View, s: Snapshot, blocks: Blocks,
                                      contents: seq<seq<byte>>)
    requires was.Valid(blocks) && Up(before, was, blocks, contents) && contents == ContentsOf(before, was, blocks)
    requires LessThan(s.view, was) && SameAllocs(s.exports, before)
    requires before != [] ==>
               && SavedAndDown(before, s.exports, s.exportBuf, contents)
               && s.view.mapped == was.mapped - DroppedVas(before, |before|)
               && s.view.handles == was.handles - DroppedHandles(before, |before|)
    requires DistinctVas(before, s.imports)
    requires forall i | 0 <= i < |s.imports| :: s.imports[i].tornDown && s.imports[i].va !in was.mapped
    ensures IsTorn(s, blocks, contents)
    ensures forall i | 0 <= i < |before| :: before[i].handle !in s.view.handles
  {
    LessThanValid(s.view, was, blocks);
    NeedsSpace(before, was, blocks, contents);
    if before != [] {
      AllDropped(before, was.mapped, was.handles);
      AllSavedTorn(before, s.exports, s.exportBuf, contents);
    }
  }

  lemma {:induction false} NoneLeft(before: seq<Export>, exports: seq<Export>, was: View, view: View)
    requires Traceable(before, was) && LessThan(view, was) && SameAllocs(exports, before)
    requires forall i | 0 <= i < |before| :: before[i].handle !in view.handles
    ensures Orphaned(exports, view)
  {
  }

  /** What the save step needs. */
  ghost predicate CanSave(exports: seq<Export>, view: View, room: nat) {
    && DataSize(exports, |exports|) <= room
    && DataReadable(exports, view)
  }

  /** Every address that holds data can be read. */
  ghost predicate DataReadable(exports: seq<Export>, view: View) {
    forall i | 0 <= i < |exports| && HasData(exports[i]) ::
      Readable(view, exports[i].alloc.va, exports[i].alloc.size)
  }
}

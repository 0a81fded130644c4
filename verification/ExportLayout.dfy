/** The export records of a process and where their bytes go in the host buffer
    (src/ipc_hooks.cpp). */
module ExportLayout {
  import opened Wrappers
  import opened Layout
  import opened Ordered
  import opened Grouping
  import opened HostBuffer
  import AccessLog

  /** What an export record knows about its allocation: the handle the application was given, its
      mapping if there is one (size is mapped_size, which equals the created size), the device of
      the saved allocation properties, and the descriptor of the last SetAccess call on the record. */
  datatype Alloc = Alloc(app: nat, va: nat, size: nat, mapped: bool, prop: Option<nat>,
                         seen: Option<AccessLog.Desc>)

  /** IpcExportRecord: the allocation, its current handle and descriptor, and the teardown state. */
  datatype Export = Export(alloc: Alloc, handle: nat, fd: Option<nat>, tornDown: bool, saved: Option<nat>)

  /** A record whose bytes have to be saved. */
  predicate Active(e: Export) {
    !e.tornDown && e.alloc.mapped && e.alloc.size > 0
  }

  /** A record that can be rebuilt. */
  predicate Rebuildable(e: Export) {
    e.tornDown && e.alloc.mapped && e.alloc.size > 0 && e.alloc.prop.Some?
  }

  predicate ExportedAt(exports: seq<Export>, va: nat) {
    exists i | 0 <= i < |exports| :: exports[i].alloc.mapped && exports[i].alloc.va == va
  }

  /** ipc_get_export_data_size, over the first n records. */
  function DataSize(exports: seq<Export>, n: nat): nat
    requires n <= |exports|
  {
    if n == 0 then 0 else DataSize(exports, n - 1) + (if Active(exports[n - 1]) then exports[n - 1].alloc.size else 0)
  }

  /** The device groups of ipc_save_and_teardown_all_exports; records without properties go to group
      -1, which comes first. */
  function SaveKeys(exports: seq<Export>): (keys: seq<Key>)
    ensures |keys| == |exports|
  {
    seq(|exports|, i requires 0 <= i < |exports| =>
      if !Active(exports[i]) then Skipped
      else InGroup(if exports[i].alloc.prop.Some? then exports[i].alloc.prop.value + 1 else 0))
  }

  function SizesOf(exports: seq<Export>): (sizes: seq<nat>)
    ensures |sizes| == |exports|
  {
    seq(|exports|, i requires 0 <= i < |exports| => exports[i].alloc.size)
  }

  /** An order visits records of the list, none twice. */
  ghost predicate IsOrder(exports: seq<Export>, order: seq<nat>) {
    && (forall k | 0 <= k < |order| :: order[k] < |exports|)
    && (forall a, b | 0 <= a < b < |order| :: order[a] != order[b])
  }

  /** It visits exactly the active ones. */
  ghost predicate IsSaveOrder(exports: seq<Export>, order: seq<nat>) {
    && IsOrder(exports, order)
    && (forall k | 0 <= k < |order| :: Active(exports[order[k]]))
    && (forall i | 0 <= i < |exports| && Active(exports[i]) :: i in order)
  }

  /** The order in which the records are saved: by device group, then in record order. */
  function SaveOrder(exports: seq<Export>): (order: seq<nat>)
    ensures IsSaveOrder(exports, order)
  {
    GroupedLists(SaveKeys(exports));
    GroupedDistinct(SaveKeys(exports));
    Grouped(SaveKeys(exports))
  }

  /** The saves go by device, records without properties first, and then in record order. */
  lemma {:induction false} SavedByDevice(exports: seq<Export>)
    ensures forall a, b | 0 <= a < b < |SaveOrder(exports)| ::
            ByDevice(exports[SaveOrder(exports)[a]].alloc.prop, exports[SaveOrder(exports)[b]].alloc.prop,
                     SaveOrder(exports)[a] < SaveOrder(exports)[b])
  {
    var order := SaveOrder(exports);
    GroupedLists(SaveKeys(exports));
    forall a, b | 0 <= a < b < |order|
      ensures ByDevice(exports[order[a]].alloc.prop, exports[order[b]].alloc.prop, order[a] < order[b])
    {
      assert Before(SaveKeys(exports), order[a], order[b]);
    }
  }

  /** The first of two records is on a lower device, or on the same one and comes earlier. */
  ghost predicate ByDevice(first: Option<nat>, second: Option<nat>, earlier: bool) {
    match (first, second)
    case (None, Some(_)) => true
    case (Some(d), Some(e)) => d < e || (d == e && earlier)
    case (None, None) => earlier
    case (Some(_), None) => false
  }

  /** Where the record visited k-th is saved. */
  function OffsetAt(exports: seq<Export>, order: seq<nat>, k: nat): nat
    requires IsOrder(exports, order) && k <= |order|
  {
    SumAlong(SizesOf(exports), order, k)
  }

  ghost function ActiveSet(exports: seq<Export>, n: nat): (s: set<nat>)
    requires n <= |exports|
    ensures forall i: nat :: i in s <==> i < n && Active(exports[i])
  {
    set i: nat | i < n && Active(exports[i])
  }

  lemma {:induction false} DataSizeIsSumOf(exports: seq<Export>, n: nat)
    requires n <= |exports|
    ensures DataSize(exports, n) == SumOf(SizesOf(exports), ActiveSet(exports, n))
  {
    if n > 0 {
      DataSizeIsSumOf(exports, n - 1);
      var s := ActiveSet(exports, n);
      if Active(exports[n - 1]) {
        SumOfRemove(SizesOf(exports), s, n - 1);
        assert s - {n - 1} == ActiveSet(exports, n - 1);
      } else {
        assert s == ActiveSet(exports, n - 1);
      }
    }
  }

  /** For any mix of devices the saved ranges tile [0, ipc_get_export_data_size): the first begins at
      0, each begins where the one before it ends, and the last ends at the total. */
  lemma {:induction false} ExportsTile(exports: seq<Export>, order: seq<nat>)
    requires IsSaveOrder(exports, order)
    ensures OffsetAt(exports, order, 0) == 0
    ensures forall k | 0 <= k < |order| ::
            OffsetAt(exports, order, k + 1) == OffsetAt(exports, order, k) + exports[order[k]].alloc.size
    ensures OffsetAt(exports, order, |order|) == DataSize(exports, |exports|)
  {
    var n := |exports|;
    SumAlongIsSumOf(SizesOf(exports), order, |order|);
    DataSizeIsSumOf(exports, n);
    assert FirstOf(order, |order|) == ActiveSet(exports, n);
  }

  lemma {:induction false} OffsetNext(exports: seq<Export>, order: seq<nat>, k: nat)
    requires IsOrder(exports, order) && k < |order|
    ensures OffsetAt(exports, order, k + 1) == OffsetAt(exports, order, k) + exports[order[k]].alloc.size
  {
  }

  /** Ranges of two records do not overlap. */
  lemma {:induction false} RangesApart(exports: seq<Export>, order: seq<nat>, k: nat, l: nat)
    requires IsOrder(exports, order) && k < l <= |order|
    ensures OffsetAt(exports, order, k) + exports[order[k]].alloc.size <= OffsetAt(exports, order, l)
  {
    SumAlongGrows(SizesOf(exports), order, k, l);
  }

  /** The record visited m-th is in the buffer, at its offset. `contents` are the bytes the records'
      addresses show. */
  ghost predicate RecordSaved(buf: seq<byte>, exports: seq<Export>, order: seq<nat>, contents: seq<seq<byte>>, m: nat)
    requires IsOrder(exports, order) && m < |order| && |contents| == |exports|
  {
    var i := order[m];
    |contents[i]| == exports[i].alloc.size && HoldsAt(buf, OffsetAt(exports, order, m), contents[i])
  }

  ghost predicate SavedUpTo(buf: seq<byte>, exports: seq<Export>, order: seq<nat>, contents: seq<seq<byte>>, k: nat) {
    && IsOrder(exports, order) && k <= |order| && |contents| == |exports|
    && forall m | 0 <= m < k :: RecordSaved(buf, exports, order, contents, m)
  }

  lemma {:induction false} StillSaved(buf: seq<byte>, exports: seq<Export>, order: seq<nat>, contents: seq<seq<byte>>,
                                      m: nat, k: nat, v: seq<byte>)
    requires IsOrder(exports, order) && m < k < |order| && |contents| == |exports|
    requires RecordSaved(buf, exports, order, contents, m)
    requires OffsetAt(exports, order, k) + |v| <= |buf|
    ensures RecordSaved(Splice(buf, OffsetAt(exports, order, k), v), exports, order, contents, m)
  {
    RangesApart(exports, order, m, k);
    StillHolds(buf, OffsetAt(exports, order, k), v, OffsetAt(exports, order, m), contents[order[m]]);
  }

  lemma {:induction false} SaveOneMore(buf: seq<byte>, exports: seq<Export>, order: seq<nat>, contents: seq<seq<byte>>,
                                       k: nat)
    requires SavedUpTo(buf, exports, order, contents, k) && k < |order|
    requires |contents[order[k]]| == exports[order[k]].alloc.size
    requires OffsetAt(exports, order, k) + exports[order[k]].alloc.size <= |buf|
    ensures SavedUpTo(Splice(buf, OffsetAt(exports, order, k), contents[order[k]]), exports, order, contents, k + 1)
  {
    var v := contents[order[k]];
    forall m | 0 <= m < k
      ensures RecordSaved(Splice(buf, OffsetAt(exports, order, k), v), exports, order, contents, m)
    {
      StillSaved(buf, exports, order, contents, m, k, v);
    }
  }
}

/** Saving and rebuilding cuMem allocations that were never exported (src/ipc_hooks.cpp). Save hands
    out buffer offsets in handle order and then groups by device; rebuild sums sizes up again in
    grouped order. */
module LocalAllocs {
  import opened Wrappers
  import opened Layout
  import opened Ordered
  import opened Grouping
  import opened HostBuffer
  import opened Fabric
  import opened IpcProcess

  /** CuMemLocalAllocRecord. */
  datatype Local = Local(handle: nat, va: nat, size: nat, dev: nat)

  function Keys(locals: seq<Local>): (s: seq<Key>)
    ensures |s| == |locals| && forall i | 0 <= i < |locals| :: s[i] == InGroup(locals[i].dev)
  {
    if locals == [] then [] else Keys(locals[..|locals| - 1]) + [InGroup(locals[|locals| - 1].dev)]
  }

  /** The order in which save leaves the records in g_local_allocs. */
  function Order(locals: seq<Local>): (q: seq<nat>)
    ensures forall k | 0 <= k < |q| :: q[k] < |locals|
  {
    GroupedLists(Keys(locals));
    Grouped(Keys(locals))
  }

  /** Offset of record i of a list: the sum of the sizes before it. Save uses it on the records in
      handle order, rebuild on the records in grouped order. */
  function Offset(records: seq<Local>, i: nat): nat
    requires i <= |records|
  {
    if i == 0 then 0 else Offset(records, i - 1) + records[i - 1].size
  }

  lemma {:induction false} OffsetGrows(records: seq<Local>, i: nat, j: nat)
    requires i < j <= |records|
    ensures Offset(records, i) + records[i].size <= Offset(records, j)
  {
    if i + 1 < j {
      OffsetGrows(records, i, j - 1);
    }
  }

  /** The records in grouped order. */
  ghost predicate IsGrouping(locals: seq<Local>, records: seq<Local>) {
    |records| == |Order(locals)| && forall k | 0 <= k < |records| :: records[k] == locals[Order(locals)[k]]
  }

  ghost predicate Nondecreasing(locals: seq<Local>) {
    forall i, j | 0 <= i < j < |locals| :: locals[i].dev <= locals[j].dev
  }

  /** Every record has its place in the order. */
  lemma {:induction false} Place(locals: seq<Local>, i: nat) returns (k: nat)
    requires i < |locals|
    ensures k < |Order(locals)| && Order(locals)[k] == i
  {
    k := PositionOf(Keys(locals), i);
  }

  /** The order is by device, then by handle. */
  lemma {:induction false} OrderedPair(locals: seq<Local>, a: nat, b: nat)
    requires a < b < |Order(locals)|
    ensures var i, j := Order(locals)[a], Order(locals)[b];
            locals[i].dev < locals[j].dev || (locals[i].dev == locals[j].dev && i < j)
  {
    GroupedLists(Keys(locals));
    assert Before(Keys(locals), Order(locals)[a], Order(locals)[b]);
  }

  lemma {:induction false} BeforeIsBelow(locals: seq<Local>, i: nat, j: nat)
    requires Nondecreasing(locals) && i < |locals| && j < |locals|
    requires locals[i].dev < locals[j].dev || (locals[i].dev == locals[j].dev && i < j)
    ensures i < j
  {
  }

  /** With devices in order, grouping changes nothing. */
  lemma {:induction false} OrderIsIdentity(locals: seq<Local>, k: nat)
    requires Nondecreasing(locals) && k < |locals|
    ensures k < |Order(locals)| && Order(locals)[k] == k
    decreases k
  {
    var q := Order(locals);
    var p := Place(locals, k);
    if p < k {
      OrderIsIdentity(locals, p);
    } else if k < p {
      // whatever stands at position k comes before k, so it also stands at its own position
      OrderedPair(locals, k, p);
      BeforeIsBelow(locals, q[k], k);
      OrderIsIdentity(locals, q[k]);
      OrderedPair(locals, q[k], k);
    }
  }

  lemma {:induction false} GroupingIsIdentity(locals: seq<Local>, records: seq<Local>)
    requires Nondecreasing(locals) && IsGrouping(locals, records)
    ensures records == locals
  {
    forall k | 0 <= k < |locals|
      ensures k < |records| && records[k] == locals[k]
    {
      OrderIsIdentity(locals, k);
    }
    if |locals| < |records| {
      var k := |locals|;
      var i := Order(locals)[k];
      OrderIsIdentity(locals, i);
      OrderedPair(locals, i, k);
    }
  }

  /** Rebuild reads record k of the grouped order from where save wrote it. */
  ghost predicate OffsetsAgree(locals: seq<Local>, records: seq<Local>, k: nat)
    requires k < |records| && IsGrouping(locals, records)
  {
    Offset(records, k) == Offset(locals, Order(locals)[k])
  }

  /** An inversion puts the later record first, and then the two offsets cannot both agree. */
  lemma {:induction false} InversionDisagrees(locals: seq<Local>, records: seq<Local>, i: nat, j: nat)
    requires IsGrouping(locals, records) && forall m | 0 <= m < |locals| :: locals[m].size > 0
    requires i < j < |locals| && locals[i].dev > locals[j].dev
    ensures exists k :: 0 <= k < |records| && !OffsetsAgree(locals, records, k)
  {
    var a := Place(locals, j);
    var b := Place(locals, i);
    if b < a {
      OrderedPair(locals, b, a);
    }
    OffsetGrows(records, a, b);
    OffsetGrows(locals, i, j);
    assert !OffsetsAgree(locals, records, a) || !OffsetsAgree(locals, records, b);
  }

  /** The offset rebuild reads from is the offset save wrote to, for every record, if and only if
      device ids are nondecreasing in handle order. */
  lemma {:induction false} OffsetsAgreeExactlyWhen(locals: seq<Local>, records: seq<Local>)
    requires IsGrouping(locals, records) && forall i | 0 <= i < |locals| :: locals[i].size > 0
    ensures (forall k | 0 <= k < |records| :: OffsetsAgree(locals, records, k)) <==> Nondecreasing(locals)
  {
    if Nondecreasing(locals) {
      GroupingIsIdentity(locals, records);
      forall k | 0 <= k < |records|
        ensures OffsetsAgree(locals, records, k)
      {
        OrderIsIdentity(locals, k);
      }
    } else {
      var i, j :| 0 <= i < j < |locals| && locals[i].dev > locals[j].dev;
      InversionDisagrees(locals, records, i, j);
    }
  }

  // ----- the save and rebuild loops -----

  /** The bytes of record l as the process reads them. */
  ghost function BytesOf(l: Local, view: View, blocks: Blocks): seq<byte> {
    BytesAt(view, blocks, l.va, l.size)
  }

  predicate CanRead(l: Local, view: View, blocks: Blocks) {
    l.va in view.mapped && view.mapped[l.va].block in blocks
      && l.size <= view.mapped[l.va].size <= |blocks[view.mapped[l.va].block]|
  }

  /** Record i's bytes are in the buffer, where the save puts them. */
  ghost predicate SavedAt(buf: seq<byte>, locals: seq<Local>, i: nat, view: View, blocks: Blocks) {
    i < |locals| && CanRead(locals[i], view, blocks)
      && HoldsAt(buf, Offset(locals, i), BytesOf(locals[i], view, blocks))
  }

  /** Record i's range of the buffer is what it was. */
  ghost predicate UntouchedAt(buf: seq<byte>, buffer: seq<byte>, locals: seq<Local>, i: nat) {
    && i < |locals| && Offset(locals, i) + locals[i].size <= |buffer|
    && HoldsAt(buf, Offset(locals, i), buffer[Offset(locals, i)..Offset(locals, i) + locals[i].size])
  }

  ghost predicate IsSaved(buf: seq<byte>, buffer: seq<byte>, locals: seq<Local>, i: nat, view: View, blocks: Blocks,
                          taken: bool) {
    if taken then SavedAt(buf, locals, i, view, blocks) else UntouchedAt(buf, buffer, locals, i)
  }

  /** The records before position |taken| of the order have been visited; those taken are saved, and the
      ranges of all others are untouched. */
  ghost predicate Saving(buf: seq<byte>, buffer: seq<byte>, locals: seq<Local>, order: seq<nat>, view: View,
                         blocks: Blocks, taken: seq<bool>) {
    && |taken| <= |order| && |buf| == |buffer| && Offset(locals, |locals|) <= |buffer|
    && (forall m | 0 <= m < |order| :: order[m] < |locals|)
    && (forall a, b | 0 <= a < b < |order| :: order[a] != order[b])
    && forall m | 0 <= m < |order| :: IsSaved(buf, buffer, locals, order[m], view, blocks, m < |taken| && taken[m])
  }

  /** Writing one record leaves the others' ranges alone. */
  lemma {:induction false} StillThere(buf: seq<byte>, buffer: seq<byte>, locals: seq<Local>, i: nat, v: seq<byte>,
                                      m: nat, view: View, blocks: Blocks, taken: bool)
    requires i < |locals| && m < |locals| && m != i && IsSaved(buf, buffer, locals, m, view, blocks, taken)
    requires |v| == locals[i].size && Offset(locals, i) + |v| <= |buf|
    ensures IsSaved(Splice(buf, Offset(locals, i), v), buffer, locals, m, view, blocks, taken)
  {
    if m < i {
      OffsetGrows(locals, m, i);
    } else {
      OffsetGrows(locals, i, m);
    }
    var bytes := if taken then BytesOf(locals[m], view, blocks)
                 else buffer[Offset(locals, m)..Offset(locals, m) + locals[m].size];
    StillHolds(buf, Offset(locals, i), v, Offset(locals, m), bytes);
  }

  lemma {:induction false} TakeNext(buf: seq<byte>, buffer: seq<byte>, locals: seq<Local>, order: seq<nat>, view: View,
                                    blocks: Blocks, taken: seq<bool>)
    requires Saving(buf, buffer, locals, order, view, blocks, taken) && |taken| < |order|
    requires CanRead(locals[order[|taken|]], view, blocks)
    ensures Offset(locals, order[|taken|]) + locals[order[|taken|]].size <= |buf|
    ensures Saving(Splice(buf, Offset(locals, order[|taken|]), BytesOf(locals[order[|taken|]], view, blocks)), buffer,
            locals, order, view, blocks, taken + [true])
  {
    var k := |taken|;
    var i := order[k];
    OffsetGrows(locals, i, |locals|);
    var next, more := Splice(buf, Offset(locals, i), BytesOf(locals[i], view, blocks)), taken + [true];
    forall m | 0 <= m < |order|
      ensures IsSaved(next, buffer, locals, order[m], view, blocks, m < |more| && more[m])
    {
      if m != k {
        assert order[m] != order[k];
        StillThere(buf, buffer, locals, i, BytesOf(locals[i], view, blocks), order[m], view, blocks,
                   m < |taken| && taken[m]);
      }
    }
  }

  lemma {:induction false} LeaveNext(buf: seq<byte>, buffer: seq<byte>, locals: seq<Local>, order: seq<nat>, view: View,
                                     blocks: Blocks, taken: seq<bool>)
    requires Saving(buf, buffer, locals, order, view, blocks, taken) && |taken| < |order|
    ensures Saving(buf, buffer, locals, order, view, blocks, taken + [false])
  {
  }

  lemma {:induction false} SavingStarts(buffer: seq<byte>, locals: seq<Local>, order: seq<nat>, view: View,
                                        blocks: Blocks)
    requires Offset(locals, |locals|) <= |buffer| && forall m | 0 <= m < |order| :: order[m] < |locals|
    requires forall a, b | 0 <= a < b < |order| :: order[a] != order[b]
    ensures Saving(buffer, buffer, locals, order, view, blocks, [])
  {
    AllUntouched(buffer, locals, order);
  }

  lemma {:induction false} OrderDistinct(locals: seq<Local>)
    ensures forall a, b | 0 <= a < b < |Order(locals)| :: Order(locals)[a] != Order(locals)[b]
  {
    forall a, b | 0 <= a < b < |Order(locals)|
      ensures Order(locals)[a] != Order(locals)[b]
    {
      OrderedPair(locals, a, b);
    }
  }

  /** The order is as long as the list. */
  lemma {:induction false} GroupedAll(locals: seq<Local>)
    ensures |Order(locals)| == |locals|
  {
    var q := Order(locals);
    OrderDistinct(locals);
    FirstCount(q, |q|);
    forall i: nat | i < |locals|
      ensures i in FirstOf(q, |q|)
    {
      var k := Place(locals, i);
    }
    assert FirstOf(q, |q|) == Below(|locals|);
  }

  ghost function Below(n: nat): (s: set<nat>)
    ensures |s| == n && forall i: nat :: i in s <==> i < n
  {
    if n == 0 then {} else Below(n - 1) + {n - 1}
  }

  lemma {:induction false} AllUntouched(buffer: seq<byte>, locals: seq<Local>, order: seq<nat>)
    requires Offset(locals, |locals|) <= |buffer| && forall m | 0 <= m < |order| :: order[m] < |locals|
    ensures forall m | 0 <= m < |order| :: UntouchedAt(buffer, buffer, locals, order[m])
  {
    forall m | 0 <= m < |order|
      ensures UntouchedAt(buffer, buffer, locals, order[m])
    {
      OffsetGrows(locals, order[m], |locals|);
    }
  }

  ghost predicate AllReadable(locals: seq<Local>, view: View, blocks: Blocks) {
    forall i | 0 <= i < |locals| :: CanRead(locals[i], view, blocks)
  }

  /** Every record's outcome. */
  ghost predicate Outcomes(buf: seq<byte>, buffer: seq<byte>, locals: seq<Local>, view: View, blocks: Blocks) {
    forall i | 0 <= i < |locals| :: SavedAt(buf, locals, i, view, blocks) || UntouchedAt(buf, buffer, locals, i)
  }

  ghost predicate ReadableSaved(buf: seq<byte>, locals: seq<Local>, view: View, blocks: Blocks) {
    forall i | 0 <= i < |locals| && CanRead(locals[i], view, blocks) :: SavedAt(buf, locals, i, view, blocks)
  }

  /** ipc_save_and_teardown_local_allocs up to the teardown: copy every allocation out, device by
      device, at the offset handed out in handle order. On the synchronous path one failed copy fails
      the save; on the pinned asynchronous path it is logged, the range stays as it was, and the save
      succeeds without that record's bytes. */
  method SaveLocals(machine: Machine, view: View, locals: seq<Local>, buffer: seq<byte>, pinned: bool)
    returns (ok: bool, records: seq<Local>, buf: seq<byte>)
    ensures |buf| == |buffer|
    ensures ok ==>
              IsGrouping(locals, records) && Offset(locals, |locals|) <= |buffer|
              && Outcomes(buf, buffer, locals, view, machine.blocks)
    ensures ok && !pinned ==>
              AllReadable(locals, view, machine.blocks) && ReadableSaved(buf, locals, view, machine.blocks)
    ensures ok && machine.obliging ==> ReadableSaved(buf, locals, view, machine.blocks)
    ensures pinned ==> (ok <==> Offset(locals, |locals|) <= |buffer|)
    ensures machine.obliging && !pinned ==>
              (ok <==> Offset(locals, |locals|) <= |buffer| && AllReadable(locals, view, machine.blocks))
  {
    records, buf := [], buffer;
    ok := Offset(locals, |locals|) <= |buffer|;
    if !ok {
      return;
    }
    var order := Order(locals);
    OrderDistinct(locals);
    SavingStarts(buffer, locals, order, view, machine.blocks);
    ghost var taken;
    ok, records, buf, taken := SaveAlong(machine, view, locals, order, buffer, pinned);
    if ok {
      AllVisited(buf, buffer, locals, order, view, machine.blocks, taken, pinned, machine.obliging);
    }
  }

  method SaveAlong(machine: Machine, view: View, locals: seq<Local>, order: seq<nat>, buffer: seq<byte>, pinned: bool)
    returns (ok: bool, records: seq<Local>, buf: seq<byte>, ghost taken: seq<bool>)
    requires Saving(buffer, buffer, locals, order, view, machine.blocks, [])
    ensures |buf| == |buffer|
    ensures ok ==>
              Visited(buf, buffer, locals, order, view, machine.blocks, taken, records, pinned, machine.obliging)
              && |taken| == |order|
    ensures pinned ==> ok
    ensures machine.obliging && AllReadable(locals, view, machine.blocks) ==> ok
  {
    ok, records, buf, taken := true, [], buffer, [];
    for k := 0 to |order|
      invariant |taken| == k
                && Visited(buf, buffer, locals, order, view, machine.blocks, taken, records, pinned, machine.obliging)
    {
      ok, buf, taken := SaveOne(machine, view, locals, order, k, buf, buffer, pinned, taken, records);
      if !ok {
        return;
      }
      records := records + [locals[order[k]]];
    }
  }

  /** The state of the save loop. */
  ghost predicate Visited(buf: seq<byte>, buffer: seq<byte>, locals: seq<Local>, order: seq<nat>, view: View,
                          blocks: Blocks, taken: seq<bool>, records: seq<Local>, pinned: bool, obliging: bool)
  {
    && Saving(buf, buffer, locals, order, view, blocks, taken) && |records| == |taken|
    && (forall m | 0 <= m < |records| :: records[m] == locals[order[m]])
    && (forall m | 0 <= m < |taken| :: Excused(locals[order[m]], view, blocks, taken[m], pinned, obliging))
  }

  /** A record is left out only on the pinned path, and without refusals only when it cannot be read. */
  ghost predicate Excused(l: Local, view: View, blocks: Blocks, taken: bool, pinned: bool, obliging: bool) {
    taken || (pinned && (obliging ==> !CanRead(l, view, blocks)))
  }

  method SaveOne(machine: Machine, view: View, locals: seq<Local>, order: seq<nat>, k: nat, buf: seq<byte>,
                 ghost buffer: seq<byte>, pinned: bool, ghost taken: seq<bool>, ghost records: seq<Local>)
    returns (ok: bool, buf': seq<byte>, ghost taken': seq<bool>)
    requires k == |taken| < |order|
             && Visited(buf, buffer, locals, order, view, machine.blocks, taken, records, pinned, machine.obliging)
    ensures |buf'| == |buffer| && (pinned ==> ok)
    ensures machine.obliging && CanRead(locals[order[k]], view, machine.blocks) ==> ok
    ensures ok ==> |taken'| == k + 1
    ensures ok ==>
              Visited(buf', buffer, locals, order, view, machine.blocks, taken', records + [locals[order[k]]], pinned,
              machine.obliging)
  {
    var l := locals[order[k]];
    ok := machine.Accepts();
    ok, buf', taken' := ok && CanRead(l, view, machine.blocks), buf, taken;
    if ok {
      TakeNext(buf, buffer, locals, order, view, machine.blocks, taken);
      buf' := Splice(buf, Offset(locals, order[k]), machine.blocks[view.mapped[l.va].block][..l.size]);
      taken' := taken + [true];
    } else if pinned {
      LeaveNext(buf, buffer, locals, order, view, machine.blocks, taken);
      ok, taken' := true, taken + [false];
    }
  }

  lemma {:induction false} AllVisited(buf: seq<byte>, buffer: seq<byte>, locals: seq<Local>, order: seq<nat>,
                                      view: View, blocks: Blocks, taken: seq<bool>, pinned: bool, obliging: bool)
    requires Saving(buf, buffer, locals, order, view, blocks, taken) && |taken| == |order| && order == Order(locals)
    requires forall m | 0 <= m < |order| :: Excused(locals[order[m]], view, blocks, taken[m], pinned, obliging)
    ensures Outcomes(buf, buffer, locals, view, blocks)
    ensures !pinned ==> AllReadable(locals, view, blocks)
    ensures !pinned || obliging ==> ReadableSaved(buf, locals, view, blocks)
  {
    forall i | 0 <= i < |locals|
      ensures SavedAt(buf, locals, i, view, blocks) || UntouchedAt(buf, buffer, locals, i)
      ensures !pinned || (obliging && CanRead(locals[i], view, blocks)) ==> SavedAt(buf, locals, i, view, blocks)
    {
      var k := Place(locals, i);
      assert IsSaved(buf, buffer, locals, order[k], view, blocks, taken[k])
             && Excused(locals[order[k]], view, blocks, taken[k], pinned, obliging);
    }
  }

  /** Where rebuild reads record k from: the sizes of the records rebuilt before it. A refused record
      does not count. */
  function RebuildOffset(records: seq<Local>, refused: Refusals, k: nat): nat
    requires k <= |records|
  {
    if k == 0 then 0 else RebuildOffset(records, refused, k - 1) + (if refused(k - 1) then 0 else records[k - 1].size)
  }

  /** One refusal moves every later record's range. */
  lemma {:induction false} RefusalShifts(records: seq<Local>, refused: Refusals, k: nat)
    requires k <= |records| && forall i | 0 <= i < |records| :: records[i].size > 0
    ensures RebuildOffset(records, refused, k) <= Offset(records, k)
    ensures RebuildOffset(records, refused, k) == Offset(records, k) <==> forall j | 0 <= j < k :: !refused(j)
  {
    if k > 0 {
      RefusalShifts(records, refused, k - 1);
    }
  }

  /** What the data half of ipc_rebuild_local_allocs copies into record k's new block; None: the buffer is
      too short, and nothing is copied. */
  ghost function RangeBack(records: seq<Local>, refused: Refusals, buf: seq<byte>, k: nat): Option<seq<byte>>
    requires k < |records|
  {
    RangeAt(buf, RebuildOffset(records, refused, k), records[k].size)
  }

  ghost function RangeAt(buf: seq<byte>, off: nat, size: nat): Option<seq<byte>> {
    if off + size <= |buf| then Some(buf[off..off + size]) else None
  }

  lemma {:induction false} HeldRange(buf: seq<byte>, off: nat, bytes: seq<byte>)
    requires HoldsAt(buf, off, bytes)
    ensures RangeAt(buf, off, |bytes|) == Some(bytes)
  {
  }

  /** The buffer holds `contents`, each at the offset save hands out. */
  ghost predicate Packed(buf: seq<byte>, locals: seq<Local>, contents: seq<seq<byte>>) {
    && |contents| == |locals| && |buf| == Offset(locals, |locals|)
    && forall i | 0 <= i < |locals| ::
         |contents[i]| == locals[i].size && HoldsAt(buf, Offset(locals, i), contents[i])
  }

  /** Whatever was saved, record k gets its own bytes. */
  ghost predicate AlwaysOwn(locals: seq<Local>, records: seq<Local>, refused: Refusals, k: nat)
    requires k < |records| && IsGrouping(locals, records)
  {
    forall contents, buf | Packed(buf, locals, contents) ::
      RangeBack(records, refused, buf, k) == Some(contents[Order(locals)[k]])
  }

  /** A buffer of n zeros with ones in one range, cut into the locals' contents. */
  function OnesIn(n: nat, from: nat, size: nat): (buf: seq<byte>)
    ensures |buf| == n && forall p | 0 <= p < n :: buf[p] == if from <= p < from + size then 1 else 0
  {
    seq(n, p => if from <= p < from + size then 1 else 0)
  }

  function SliceOf(buf: seq<byte>, off: nat, size: nat): (s: seq<byte>)
    ensures off + size <= |buf| ==> |s| == size && HoldsAt(buf, off, s) && RangeAt(buf, off, size) == Some(s)
  {
    if off + size <= |buf| then buf[off..off + size] else []
  }

  function Cut(buf: seq<byte>, locals: seq<Local>): (contents: seq<seq<byte>>)
    ensures |contents| == |locals|
    ensures forall i | 0 <= i < |locals| :: contents[i] == SliceOf(buf, Offset(locals, i), locals[i].size)
  {
    seq(|locals|, i requires 0 <= i < |locals| => SliceOf(buf, Offset(locals, i), locals[i].size))
  }

  lemma {:induction false} CutIsPacked(buf: seq<byte>, locals: seq<Local>)
    requires |buf| == Offset(locals, |locals|)
    ensures Packed(buf, locals, Cut(buf, locals))
  {
    forall i | 0 <= i < |locals|
      ensures Offset(locals, i) + locals[i].size <= |buf|
    {
      OffsetGrows(locals, i, |locals|);
    }
  }

  /** Only the range itself is all ones. */
  lemma {:induction false} OnlyThere(n: nat, from: nat, off: nat, size: nat)
    requires from + size <= n && size > 0
    ensures RangeAt(OnesIn(n, from, size), off, size) == RangeAt(OnesIn(n, from, size), from, size) ==> off == from
  {
    var buf := OnesIn(n, from, size);
    if off + size <= n && off != from {
      var p := if off < from then 0 else size - 1;
      assert buf[off..off + size][p] == 0 && buf[from..from + size][p] == 1;
    }
  }

  /** Record k gets its own bytes back, whatever the bytes of all records were, if and only if the sizes of the
      records rebuilt before it add up to the offset it was saved at. */
  lemma {:induction false} OwnBytesExactlyWhen(locals: seq<Local>, records: seq<Local>, refused: Refusals, k: nat)
    requires IsGrouping(locals, records) && k < |records| && records[k].size > 0
    ensures AlwaysOwn(locals, records, refused, k)
            <==> RebuildOffset(records, refused, k) == Offset(locals, Order(locals)[k])
  {
    var i := Order(locals)[k];
    var from, off, n := Offset(locals, i), RebuildOffset(records, refused, k), Offset(locals, |locals|);
    if off == from {
      forall contents, buf | Packed(buf, locals, contents)
        ensures RangeBack(records, refused, buf, k) == Some(contents[i])
      {
        HeldRange(buf, from, contents[i]);
      }
    } else {
      OffsetGrows(locals, i, |locals|);
      var buf := OnesIn(n, from, records[k].size);
      var contents := Cut(buf, locals);
      CutIsPacked(buf, locals);
      OnlyThere(n, from, off, records[k].size);
      assert RangeBack(records, refused, buf, k) != Some(contents[i]);
    }
  }

  lemma {:induction false} NoRefusals(records: seq<Local>, refused: Refusals, k: nat)
    requires k <= |records| && forall j | 0 <= j < k :: !refused(j)
    ensures RebuildOffset(records, refused, k) == Offset(records, k)
  {
    if k > 0 {
      NoRefusals(records, refused, k - 1);
    }
  }

  /** With two devices out of order, two allocations of equal size come back with each other's
      bytes. */
  lemma {:induction false} SwappedBytes(locals: seq<Local>, records: seq<Local>, view: View, blocks: Blocks,
                                        buf: seq<byte>, refused: Refusals)
    requires |locals| == 2 && locals[0].dev > locals[1].dev && locals[0].size == locals[1].size > 0
    requires IsGrouping(locals, records) && !refused(0)
    requires SavedAt(buf, locals, 0, view, blocks) && SavedAt(buf, locals, 1, view, blocks)
    ensures |records| == 2 && records[0] == locals[1] && records[1] == locals[0]
    ensures RangeBack(records, refused, buf, 0) == Some(BytesOf(locals[0], view, blocks))
    ensures RangeBack(records, refused, buf, 1) == Some(BytesOf(locals[1], view, blocks))
  {
    TwoOutOfOrder(locals);
    assert records[0] == locals[1] && records[1] == locals[0];
    SwappedRanges(locals[0], locals[1], locals, records, view, blocks, buf, refused);
  }

  lemma {:induction false} SwappedRanges(a: Local, b: Local, locals: seq<Local>, records: seq<Local>, view: View,
                                         blocks: Blocks, buf: seq<byte>, refused: Refusals)
    requires locals == [a, b] && records == [b, a] && a.size == b.size && !refused(0)
    requires SavedAt(buf, locals, 0, view, blocks) && SavedAt(buf, locals, 1, view, blocks)
    ensures RangeBack(records, refused, buf, 0) == Some(BytesOf(a, view, blocks))
    ensures RangeBack(records, refused, buf, 1) == Some(BytesOf(b, view, blocks))
  {
  }

  /** The record of the smaller device comes first, and the other one next. */
  lemma {:induction false} FirstOfTwo(locals: seq<Local>)
    requires |locals| == 2 && locals[0].dev > locals[1].dev
    ensures |Order(locals)| > 0 && Order(locals)[0] == 1
  {
    var a := Place(locals, 1);
    if 0 < a {
      OrderedPair(locals, 0, a);
    }
  }

  lemma {:induction false} SecondOfTwo(locals: seq<Local>)
    requires |locals| == 2 && locals[0].dev > locals[1].dev && |Order(locals)| > 0 && Order(locals)[0] == 1
    ensures |Order(locals)| > 1 && Order(locals)[1] == 0
  {
    var b := Place(locals, 0);
    OrderedPair(locals, 0, 1);
    if 1 < b {
      OrderedPair(locals, 1, b);
    }
  }

  lemma {:induction false} TwoOutOfOrder(locals: seq<Local>)
    requires |locals| == 2 && locals[0].dev > locals[1].dev
    ensures Order(locals) == [1, 0]
  {
    FirstOfTwo(locals);
    SecondOfTwo(locals);
    if 2 < |Order(locals)| {
      OrderedPair(locals, 1, 2);
    }
  }
}

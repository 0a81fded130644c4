/** Which exports keep their bytes when the driver refuses memory for some of them in a rebuild: teardown
    (ipc_save_and_teardown_all_exports) and rebuild (ipc_rebuild_and_restore_all_exports, both in
    src/ipc_hooks.cpp), over records of which some are up, some are down and some were never mapped. */
module Survival {
  import opened Wrappers
  import opened Layout
  import opened Ordered
  import opened HostBuffer
  import opened Fabric
  import opened ExportLayout
  import opened IpcProcess
  import AccessLog

  /** Mapped at its size. */
  ghost predicate IsUpRecord(e: Export, view: View) {
    && HasData(e) && e.alloc.prop.Some?
    && e.alloc.va in view.mapped && view.mapped[e.alloc.va].size == e.alloc.size
  }

  /** Torn down, with an offset from some save, and its address free. */
  ghost predicate IsDownRecord(e: Export, view: View) {
    && e.tornDown && e.alloc.mapped && e.alloc.size > 0 && e.alloc.prop.Some? && e.saved.Some?
    && e.alloc.va !in view.mapped
  }

  ghost predicate DistinctMapped(exports: seq<Export>) {
    forall i, j | 0 <= i < |exports| && 0 <= j < |exports| && i != j && exports[i].alloc.mapped
      && exports[j].alloc.mapped ::
      exports[i].alloc.va != exports[j].alloc.va
  }

  /** Every record that was ever mapped is up or down, at an address of its own. */
  ghost predicate Settled(exports: seq<Export>, view: View) {
    && DistinctMapped(exports)
    && forall i | 0 <= i < |exports| && exports[i].alloc.mapped ::
         IsUpRecord(exports[i], view) || IsDownRecord(exports[i], view)
  }

  ghost predicate AllDownRecords(exports: seq<Export>, view: View) {
    && DistinctMapped(exports)
    && forall i | 0 <= i < |exports| && exports[i].alloc.mapped :: IsDownRecord(exports[i], view)
  }

  lemma {:induction false} SettledDown(before: seq<Export>, was: View, exports: seq<Export>, view: View, buf: seq<byte>,
                                       contents: seq<seq<byte>>)
    requires Settled(before, was) && SavedAndDown(before, exports, buf, contents) && LessThan(view, was)
    requires view.mapped == was.mapped - DroppedVas(before, |before|)
    ensures AllDownRecords(exports, view)
  {
    forall i | 0 <= i < |exports| && exports[i].alloc.mapped
      ensures IsDownRecord(exports[i], view)
    {
      assert DownFrom(before[i], exports[i]);
      if Active(before[i]) {
        var order := SaveOrder(before);
        var k :| 0 <= k < |order| && order[k] == i;
        assert MarkedAt(before, exports, order, k);
        assert before[i].alloc.va in DroppedVas(before, |before|);
      }
    }
    forall i, j | 0 <= i < |exports| && 0 <= j < |exports| && i != j && exports[i].alloc.mapped
      && exports[j].alloc.mapped
      ensures exports[i].alloc.va != exports[j].alloc.va
    {
      assert DownFrom(before[i], exports[i]) && DownFrom(before[j], exports[j]);
    }
  }

  /** A teardown from a settled state succeeds, and takes every export down that is up. */
  method TakeDown(p: Process) returns (ok: bool)
    requires p.machine.obliging && p.view.Valid(p.machine.blocks) && Settled(p.exports, p.view)
    modifies p`exports, p`view, p`exportBuf
    ensures ok && p.view.Valid(p.machine.blocks)
    ensures DataSize(old(p.exports), |old(p.exports)|) == 0 && old(p.exportBuf) == [] ==>
              p.exports == old(p.exports) && p.view == old(p.view) && p.exportBuf == []
    ensures DataSize(old(p.exports), |old(p.exports)|) > 0 ==>
              Taken(old(p.exports), p.exports, p.view, p.exportBuf,
                    ContentsOf(old(p.exports), old(p.view), p.machine.blocks))
  {
    ghost var was := p.view;
    SettledReady(p.exports, p.view);
    ok := p.TeardownExports();
    LessThanValid(p.view, was, p.machine.blocks);
    if DataSize(old(p.exports), |old(p.exports)|) > 0 {
      SettledDown(old(p.exports), was, p.exports, p.view, p.exportBuf,
                  ContentsOf(old(p.exports), was, p.machine.blocks));
    }
  }

  /** The same with a buffer of the right size already there. */
  method TakeDownInto(p: Process) returns (ok: bool)
    requires p.machine.obliging && p.view.Valid(p.machine.blocks) && Settled(p.exports, p.view)
    requires |p.exportBuf| == DataSize(p.exports, |p.exports|)
    modifies p`exports, p`view, p`exportBuf
    ensures ok && p.view.Valid(p.machine.blocks)
    ensures Taken(old(p.exports), p.exports, p.view, p.exportBuf,
                  ContentsOf(old(p.exports), old(p.view), p.machine.blocks))
  {
    ghost var was := p.view;
    SettledReady(p.exports, p.view);
    ok := p.SaveAndTeardown();
    LessThanValid(p.view, was, p.machine.blocks);
    SettledDown(old(p.exports), was, p.exports, p.view, p.exportBuf, ContentsOf(old(p.exports), was, p.machine.blocks));
  }

  ghost predicate Taken(before: seq<Export>, exports: seq<Export>, view: View, buf: seq<byte>,
                        contents: seq<seq<byte>>) {
    && AllDownRecords(exports, view) && |buf| == DataSize(before, |before|)
    && SavedAndDown(before, exports, buf, contents)
  }

  lemma {:induction false} SettledReady(exports: seq<Export>, view: View)
    requires Settled(exports, view)
    ensures AllMapped(exports, view)
    ensures forall i | 0 <= i < |exports| && Active(exports[i]) ::
              Readable(view, exports[i].alloc.va, exports[i].alloc.size)
  {
  }

  /** What a rebuild makes of one record: refused, it stays as it was; otherwise it is up, and shows what
      the buffer holds at its saved offset, if that lies in the buffer. */
  ghost predicate BackOrNot(before: Export, after: Export, view: View, blocks: Blocks, buf: seq<byte>, refused: bool) {
    if !before.alloc.mapped || refused then after == before
    else
      && IsUpRecord(after, view) && after.alloc == before.alloc && before.saved.Some? && after.saved == before.saved
      && (before.saved.value + before.alloc.size <= |buf| ==>
            BytesAt(view, blocks, before.alloc.va, before.alloc.size)
            == buf[before.saved.value..before.saved.value + before.alloc.size])
  }

  ghost predicate AllBackOrNot(before: seq<Export>, exports: seq<Export>, view: View, blocks: Blocks, buf: seq<byte>,
                               refused: Refusals) {
    && |exports| == |before|
    && forall i | 0 <= i < |before| :: BackOrNot(before[i], exports[i], view, blocks, buf, refused(i))
  }

  lemma {:induction false} RestoredIsBack(before: seq<Export>, exports: seq<Export>, view: View, blocks: Blocks,
                                          was: View, buf: seq<byte>, log: map<nat, seq<AccessLog.Desc>>,
                                          refused: Refusals, i: nat)
    requires view.Valid(blocks) && AllDownRecords(before, was) && i < |before|
    requires OnlyRebuilt(before, exports, view, was, refused)
    requires AllBackable(before, exports, view, blocks, was, buf, log, refused)
    ensures BackOrNot(before[i], exports[i], view, blocks, buf, refused(i))
  {
    if before[i].alloc.mapped && !refused(i) {
      assert Backable(before, i, was, refused);
      assert RestoredOne(before[i], exports[i], view, blocks, buf, log);
    }
  }

  lemma {:induction false} RefusedStaysFree(before: seq<Export>, exports: seq<Export>, view: View, was: View,
                                            refused: Refusals, i: nat)
    requires AllDownRecords(before, was) && OnlyRebuilt(before, exports, view, was, refused)
    requires SameAllocs(exports, before) && i < |before| && before[i].alloc.mapped && refused(i)
    ensures before[i].alloc.va !in view.mapped
  {
  }

  lemma {:induction false} SettledAgain(before: seq<Export>, exports: seq<Export>, view: View, blocks: Blocks,
                                        was: View, buf: seq<byte>, refused: Refusals)
    requires SameAllocs(exports, before)
    requires AllDownRecords(before, was) && OnlyRebuilt(before, exports, view, was, refused)
    requires AllBackOrNot(before, exports, view, blocks, buf, refused)
    ensures Settled(exports, view)
  {
    forall i | 0 <= i < |exports|
      ensures exports[i].alloc == before[i].alloc
      ensures exports[i].alloc.mapped ==> IsUpRecord(exports[i], view) || IsDownRecord(exports[i], view)
    {
      assert BackOrNot(before[i], exports[i], view, blocks, buf, refused(i));
      if exports[i].alloc.mapped && refused(i) {
        RefusedStaysFree(before, exports, view, was, refused, i);
      }
    }
  }

  /** A rebuild when everything is down brings back exactly the records that are not refused. */
  method BringBack(p: Process, refused: Refusals)
    requires p.machine.obliging && p.view.Valid(p.machine.blocks) && AllDownRecords(p.exports, p.view)
    modifies p`exports, p`view, p`alias, p`created, p`handleToVa, p.machine
    ensures p.view.Valid(p.machine.blocks) && Settled(p.exports, p.view)
    ensures AllBackOrNot(old(p.exports), p.exports, p.view, p.machine.blocks, p.exportBuf, refused)
  {
    var _ := p.RebuildAndRestore(refused);
    forall i | 0 <= i < |p.exports|
      ensures BackOrNot(old(p.exports)[i], p.exports[i], p.view, p.machine.blocks, p.exportBuf, refused(i))
    {
      RestoredIsBack(old(p.exports), p.exports, p.view, p.machine.blocks, old(p.view), p.exportBuf, p.log, refused, i);
    }
    SettledAgain(old(p.exports), p.exports, p.view, p.machine.blocks, old(p.view), p.exportBuf, refused);
  }

  // ----- one cycle -----

  /** `mid` are the records after the teardown, `buf` what the save left in the buffer. */
  ghost predicate Cycled(before: seq<Export>, mid: seq<Export>, exports: seq<Export>, view: View, blocks: Blocks,
                         buf: seq<byte>, contents: seq<seq<byte>>, refused: Refusals) {
    && |buf| == DataSize(before, |before|) && SavedAndDown(before, mid, buf, contents)
    && AllBackOrNot(mid, exports, view, blocks, buf, refused)
  }

  /** The export parts of the teardown and of the export handler: without any data to save there is no
      buffer, and then nothing is rebuilt either; the buffer is given up after the rebuild. */
  method CycleOnce(p: Process, refused: Refusals) returns (ghost mid: seq<Export>, ghost buf: seq<byte>)
    requires p.machine.obliging && p.view.Valid(p.machine.blocks) && Settled(p.exports, p.view) && p.exportBuf == []
    modifies p`exports, p`view, p`exportBuf, p`alias, p`created, p`handleToVa, p.machine
    ensures p.view.Valid(p.machine.blocks) && Settled(p.exports, p.view) && p.exportBuf == []
    ensures DataSize(old(p.exports), |old(p.exports)|) > 0 ==>
              Cycled(old(p.exports), mid, p.exports, p.view, p.machine.blocks, buf,
                     ContentsOf(old(p.exports), old(p.view), old(p.machine.blocks)), refused)
    ensures DataSize(old(p.exports), |old(p.exports)|) == 0 ==> p.exports == old(p.exports) && p.view == old(p.view)
  {
    var _ := TakeDown(p);
    mid, buf := p.exports, p.exportBuf;
    if p.exportBuf != [] {
      BringBack(p, refused);
      p.exportBuf := [];
    }
  }

  /** A record's bytes c are at its address, or in the buffer at its offset. */
  ghost predicate HasBytes(e: Export, view: View, blocks: Blocks, buf: seq<byte>, c: seq<byte>) {
    UpOne(e, view, blocks, c) || TornOne(e, buf, c)
  }

  /** An export that was up has its bytes after a cycle if and only if it was not refused: a refused one
      is down, and the buffer with its bytes is gone. */
  lemma {:induction false} SurvivesExactlyWhen(before: seq<Export>, was: View, old_: Blocks, mid: seq<Export>,
                                               exports: seq<Export>, view: View, blocks: Blocks, buf: seq<byte>,
                                               refused: Refusals, i: nat)
    requires was.Valid(old_) && view.Valid(blocks) && i < |before| && IsUpRecord(before[i], was)
    requires Cycled(before, mid, exports, view, blocks, buf, ContentsOf(before, was, old_), refused)
    ensures HasBytes(exports[i], view, blocks, [], ContentsOf(before, was, old_)[i]) <==> !refused(i)
  {
    var contents := ContentsOf(before, was, old_);
    SavedIsTorn(before, mid, buf, contents, i);
    assert BackOrNot(mid[i], exports[i], view, blocks, buf, refused(i));
    if refused(i) {
      NothingHeld(mid[i], view, blocks, buf, contents[i]);
    } else {
      BackShows(mid[i], exports[i], view, blocks, buf, contents[i]);
    }
  }

  /** A record that is down has nothing when there is no buffer. */
  lemma {:induction false} NothingHeld(e: Export, view: View, blocks: Blocks, buf: seq<byte>, c: seq<byte>)
    requires TornOne(e, buf, c)
    ensures !HasBytes(e, view, blocks, [], c)
  {
  }

  lemma {:induction false} BackShows(before: Export, after: Export, view: View, blocks: Blocks, buf: seq<byte>,
                                     c: seq<byte>)
    requires view.Valid(blocks) && TornOne(before, buf, c) && BackOrNot(before, after, view, blocks, buf, false)
    ensures UpOne(after, view, blocks, c)
  {
  }

  lemma {:induction false} SomethingToSave(exports: seq<Export>, n: nat, i: nat)
    requires i < n <= |exports| && Active(exports[i])
    ensures DataSize(exports, n) > 0
  {
    if i < n - 1 {
      SomethingToSave(exports, n - 1, i);
    }
  }

  /** Which of the records have not been refused in any of the first n cycles. */
  ghost predicate NeverRefused(refused: nat -> Refusals, n: nat, i: nat) {
    forall k | 0 <= k < n :: !refused(k)(i)
  }

  ghost predicate UnrefusedUp(exports: seq<Export>, view: View, blocks: Blocks, first: seq<Export>, was: View,
                              contents: seq<seq<byte>>, refused: nat -> Refusals, n: nat) {
    && |exports| == |first| == |contents|
    && forall i | 0 <= i < |first| && IsUpRecord(first[i], was) && NeverRefused(refused, n, i) ::
         UpOne(exports[i], view, blocks, contents[i])
  }

  /** Whatever is refused in any of any number of cycles, a record that is never refused itself keeps its
      bytes. */
  method CycleMany(p: Process, n: nat, refused: nat -> Refusals)
    requires p.machine.obliging && p.view.Valid(p.machine.blocks) && Settled(p.exports, p.view) && p.exportBuf == []
    modifies p`exports, p`view, p`exportBuf, p`alias, p`created, p`handleToVa, p.machine
    ensures p.view.Valid(p.machine.blocks) && Settled(p.exports, p.view) && p.exportBuf == []
    ensures UnrefusedUp(p.exports, p.view, p.machine.blocks, old(p.exports), old(p.view),
                        ContentsOf(old(p.exports), old(p.view), old(p.machine.blocks)), refused, n)
  {
    ghost var contents := ContentsOf(p.exports, p.view, p.machine.blocks);
    for k := 0 to n
      invariant p.view.Valid(p.machine.blocks) && Settled(p.exports, p.view) && p.exportBuf == []
      invariant UnrefusedUp(p.exports, p.view, p.machine.blocks, old(p.exports), old(p.view), contents, refused, k)
    {
      CycleNext(p, k, refused, old(p.exports), old(p.view), contents);
    }
  }

  method CycleNext(p: Process, k: nat, refused: nat -> Refusals, ghost first: seq<Export>, ghost was: View,
                   ghost contents: seq<seq<byte>>)
    requires p.machine.obliging && p.view.Valid(p.machine.blocks) && Settled(p.exports, p.view) && p.exportBuf == []
    requires UnrefusedUp(p.exports, p.view, p.machine.blocks, first, was, contents, refused, k)
    modifies p`exports, p`view, p`exportBuf, p`alias, p`created, p`handleToVa, p.machine
    ensures p.view.Valid(p.machine.blocks) && Settled(p.exports, p.view) && p.exportBuf == []
    ensures UnrefusedUp(p.exports, p.view, p.machine.blocks, first, was, contents, refused, k + 1)
  {
    ghost var before, view, blocks := p.exports, p.view, p.machine.blocks;
    ghost var mid, buf;
    mid, buf := CycleOnce(p, refused(k));
    StillUnrefused(before, view, blocks, mid, p.exports, p.view, p.machine.blocks, buf, first, was, contents, refused,
      k);
  }

  lemma {:induction false} StillUnrefused(before: seq<Export>, was: View, old_: Blocks, mid: seq<Export>,
                                          exports: seq<Export>, view: View, blocks: Blocks, buf: seq<byte>,
                                          first: seq<Export>, start: View, contents: seq<seq<byte>>,
                                          refused: nat -> Refusals, k: nat)
    requires was.Valid(old_) && view.Valid(blocks)
    requires UnrefusedUp(before, was, old_, first, start, contents, refused, k)
    requires DataSize(before, |before|) > 0 ==>
               Cycled(before, mid, exports, view, blocks, buf, ContentsOf(before, was, old_), refused(k))
    requires DataSize(before, |before|) == 0 ==> exports == before
    ensures UnrefusedUp(exports, view, blocks, first, start, contents, refused, k + 1)
  {
    forall i | 0 <= i < |first| && IsUpRecord(first[i], start) && NeverRefused(refused, k + 1, i)
      ensures UpOne(exports[i], view, blocks, contents[i])
    {
      assert NeverRefused(refused, k, i) && UpOne(before[i], was, old_, contents[i]);
      SomethingToSave(before, |before|, i);
      SurvivesExactlyWhen(before, was, old_, mid, exports, view, blocks, buf, refused(k), i);
      assert ContentsOf(before, was, old_)[i] == contents[i];
      assert BackOrNot(mid[i], exports[i], view, blocks, buf, refused(k)(i));
    }
  }

  // ----- records that were refused once -----

  /** What a save may leave of the bytes `contents` of the records. */
  ghost predicate Saves(before: seq<Export>, contents: seq<seq<byte>>, buf: seq<byte>) {
    && |contents| == |before| && (forall i | 0 <= i < |before| :: |contents[i]| == before[i].alloc.size)
    && |buf| == DataSize(before, |before|) && SavedUpTo(buf, before, SaveOrder(before), contents, |SaveOrder(before)|)
  }

  /** Whatever bytes the records had at a save, record i's own ones are at offset `off` of the buffer. */
  ghost predicate AlwaysOwn(before: seq<Export>, i: nat, off: nat) {
    forall contents, buf | i < |before| && Saves(before, contents, buf) :: HoldsAt(buf, off, contents[i])
  }

  function Filled(n: nat, b: byte): (s: seq<byte>)
    ensures |s| == n && forall i | 0 <= i < n :: s[i] == b
  {
    seq(n, i => b)
  }

  /** All records hold zeros, except that record i holds ones. */
  function OnesAt(exports: seq<Export>, i: nat): (contents: seq<seq<byte>>)
    ensures |contents| == |exports|
    ensures forall j | 0 <= j < |exports| :: contents[j] == Filled(exports[j].alloc.size, if j == i then 1 else 0)
  {
    seq(|exports|, j requires 0 <= j < |exports| => Filled(exports[j].alloc.size, if j == i then 1 else 0))
  }

  lemma {:induction false} FilledHolds(n: nat, b: byte, off: nat, len: nat)
    requires off + len <= n
    ensures HoldsAt(Filled(n, b), off, Filled(len, b))
  {
    assert Filled(n, b)[off..off + len] == Filled(len, b);
  }

  lemma {:induction false} OnesNotThere(n: nat, off: nat, len: nat)
    requires len > 0
    ensures !HoldsAt(Filled(n, 0), off, Filled(len, 1))
  {
    if off + len <= n {
      assert Filled(n, 0)[off..off + len][0] == 0;
    }
  }

  /** A save that does not visit record i leaves a buffer of zeros. */
  lemma {:induction false} ZerosSaved(before: seq<Export>, order: seq<nat>, i: nat, n: nat)
    requires IsSaveOrder(before, order) && i < |before| && !Active(before[i]) && OffsetAt(before, order, |order|) == n
    ensures SavedUpTo(Filled(n, 0), before, order, OnesAt(before, i), |order|)
  {
    forall m | 0 <= m < |order|
      ensures RecordSaved(Filled(n, 0), before, order, OnesAt(before, i), m)
    {
      RangesApart(before, order, m, |order|);
      assert order[m] != i;
      FilledHolds(n, 0, OffsetAt(before, order, m), before[order[m]].alloc.size);
    }
  }

  lemma {:induction false} ZerosSave(before: seq<Export>, i: nat)
    requires i < |before| && !Active(before[i])
    ensures Saves(before, OnesAt(before, i), Filled(DataSize(before, |before|), 0))
  {
    ExportsTile(before, SaveOrder(before));
    ZerosSaved(before, SaveOrder(before), i, DataSize(before, |before|));
  }

  lemma {:induction false} UpIsOwn(before: seq<Export>, mid: seq<Export>, order: seq<nat>, i: nat)
    requires IsSaveOrder(before, order) && order == SaveOrder(before) && i < |before| == |mid| && Active(before[i])
    requires (forall m | 0 <= m < |order| :: MarkedAt(before, mid, order, m)) && mid[i].saved.Some?
    ensures AlwaysOwn(before, i, mid[i].saved.value)
  {
    var k :| 0 <= k < |order| && order[k] == i;
    assert MarkedAt(before, mid, order, k);
    forall contents, buf | Saves(before, contents, buf)
      ensures HoldsAt(buf, mid[i].saved.value, contents[i])
    {
      assert RecordSaved(buf, before, order, contents, k);
    }
  }

  /** A record that is down after a teardown finds its own bytes at its saved offset, whatever the bytes of
      all records were, if and only if it was up before that teardown. One that was down already keeps the
      offset of an earlier save, where the buffer now holds bytes of the others. */
  lemma {:induction false} OwnBytesExactlyWhen(before: seq<Export>, mid: seq<Export>, buf: seq<byte>,
                                               contents: seq<seq<byte>>, i: nat)
    requires SavedAndDown(before, mid, buf, contents) && i < |before|
    requires Rebuildable(mid[i]) && mid[i].saved.Some?
    ensures AlwaysOwn(before, i, mid[i].saved.value) <==> Active(before[i])
  {
    assert DownFrom(before[i], mid[i]);
    if Active(before[i]) {
      UpIsOwn(before, mid, SaveOrder(before), i);
    } else {
      ZerosSave(before, i);
      OnesNotThere(DataSize(before, |before|), mid[i].saved.value, before[i].alloc.size);
    }
  }

  /** Two exports that are up, at different addresses, of one size. */
  ghost predicate TwoUp(p: Process, contents: seq<seq<byte>>)
    reads p, p.machine
  {
    && p.view.Valid(p.machine.blocks) && p.exportBuf == [] && Settled(p.exports, p.view)
    && |p.exports| == 2 && IsUpRecord(p.exports[0], p.view) && IsUpRecord(p.exports[1], p.view)
    && p.exports[0].alloc.size == p.exports[1].alloc.size
    && contents == ContentsOf(p.exports, p.view, p.machine.blocks)
  }

  lemma {:induction false} TwoOfOne(q: seq<nat>, b: nat)
    requires forall k | 0 <= k < |q| :: q[k] == b
    ensures |q| > 1 ==> q[0] == q[1]
  {
  }

  lemma {:induction false} ThreeOfTwo(q: seq<nat>)
    requires forall k | 0 <= k < |q| :: q[k] < 2
    ensures |q| > 2 ==> q[0] == q[1] || q[0] == q[2] || q[1] == q[2]
  {
  }

  lemma {:induction false} TwoSaved(exports: seq<Export>)
    requires |exports| == 2 && Active(exports[0]) && Active(exports[1])
    ensures |SaveOrder(exports)| == 2 && OffsetAt(exports, SaveOrder(exports), 0) == 0
  {
    var order := SaveOrder(exports);
    assert 0 in order && 1 in order;
    ThreeOfTwo(order);
  }

  /** Record a is down, at offset 0 of a save that is gone; record b is up with the bytes c. */
  ghost predicate Halfway(p: Process, a: nat, b: nat, c: seq<byte>)
    reads p, p.machine
  {
    && a < 2 && b < 2 && a != b && |p.exports| == 2
    && p.view.Valid(p.machine.blocks) && p.exportBuf == [] && Settled(p.exports, p.view)
    && IsDownRecord(p.exports[a], p.view) && p.exports[a].saved == Some(0) && p.exports[a].alloc.size == |c|
    && UpOne(p.exports[b], p.view, p.machine.blocks, c)
  }

  method RefuseFirst(p: Process, a: nat, b: nat, ghost contents: seq<seq<byte>>)
    requires p.machine.obliging && TwoUp(p, contents) && a < 2 && b < 2 && a != b
    requires |SaveOrder(p.exports)| == 2 && SaveOrder(p.exports)[0] == a
    modifies p`exports, p`view, p`exportBuf, p`alias, p`created, p`handleToVa, p.machine
    ensures Halfway(p, a, b, contents[b])
  {
    ghost var before, was, old_ := p.exports, p.view, p.machine.blocks;
    SomethingToSave(before, 2, 0);
    ghost var mid, buf;
    mid, buf := CycleOnce(p, (i: nat) => i == a);
    AfterRefusal(before, was, old_, mid, p.exports, p.view, p.machine.blocks, buf, (i: nat) => i == a, a, b);
  }

  lemma {:induction false} AfterRefusal(before: seq<Export>, was: View, old_: Blocks, mid: seq<Export>,
                                        exports: seq<Export>, view: View, blocks: Blocks, buf: seq<byte>,
                                        refused: Refusals, a: nat, b: nat)
    requires was.Valid(old_) && view.Valid(blocks) && a < |before| && b < |before| && refused(a) && !refused(b)
    requires IsUpRecord(before[a], was) && IsUpRecord(before[b], was) && Settled(exports, view)
    requires |SaveOrder(before)| > 0 && SaveOrder(before)[0] == a
    requires Cycled(before, mid, exports, view, blocks, buf, ContentsOf(before, was, old_), refused)
    ensures IsDownRecord(exports[a], view) && exports[a].saved == Some(0) && exports[a].alloc == before[a].alloc
    ensures UpOne(exports[b], view, blocks, ContentsOf(before, was, old_)[b])
  {
    assert MarkedAt(before, mid, SaveOrder(before), 0) && DownFrom(before[a], mid[a]) && DownFrom(before[b], mid[b]);
    assert BackOrNot(mid[a], exports[a], view, blocks, buf, refused(a));
    assert BackOrNot(mid[b], exports[b], view, blocks, buf, refused(b));
    SurvivesExactlyWhen(before, was, old_, mid, exports, view, blocks, buf, refused, b);
  }

  method ReturnFirst(p: Process, a: nat, b: nat, ghost c: seq<byte>)
    requires p.machine.obliging && Halfway(p, a, b, c)
    modifies p`exports, p`view, p`exportBuf, p`alias, p`created, p`handleToVa, p.machine
    ensures |p.exports| == 2
    ensures UpOne(p.exports[a], p.view, p.machine.blocks, c) && UpOne(p.exports[b], p.view, p.machine.blocks, c)
  {
    ghost var before, was, old_ := p.exports, p.view, p.machine.blocks;
    SomethingToSave(before, 2, b);
    ghost var mid, buf;
    mid, buf := CycleOnce(p, Nobody());
    AfterReturn(before, was, old_, mid, p.exports, p.view, p.machine.blocks, buf, a, b, c);
  }

  lemma {:induction false} OneSaved(before: seq<Export>, order: seq<nat>, b: nat, buf: seq<byte>,
                                    contents: seq<seq<byte>>)
    requires IsSaveOrder(before, order) && |before| == 2 && b < 2 && Active(before[b]) && !Active(before[1 - b])
    requires SavedUpTo(buf, before, order, contents, |order|) && |buf| == DataSize(before, 2)
    ensures buf == contents[b]
  {
    assert b in order;
    TwoOfOne(order, b);
    assert order == [b] && OffsetAt(before, order, 0) == 0 && OffsetAt(before, order, 1) == before[b].alloc.size;
    ExportsTile(before, order);
    assert RecordSaved(buf, before, order, contents, 0);
  }

  lemma {:induction false} AfterReturn(before: seq<Export>, was: View, old_: Blocks, mid: seq<Export>,
                                       exports: seq<Export>, view: View, blocks: Blocks, buf: seq<byte>, a: nat, b: nat,
                                       c: seq<byte>)
    requires was.Valid(old_) && view.Valid(blocks) && |before| == 2 && a < 2 && b == 1 - a
    requires IsDownRecord(before[a], was) && before[a].saved == Some(0) && before[a].alloc.size == |c|
    requires UpOne(before[b], was, old_, c)
    requires Cycled(before, mid, exports, view, blocks, buf, ContentsOf(before, was, old_), Nobody())
    ensures UpOne(exports[a], view, blocks, c) && UpOne(exports[b], view, blocks, c)
  {
    var contents := ContentsOf(before, was, old_);
    assert contents[b] == c;
    OneSaved(before, SaveOrder(before), b, buf, contents);
    SurvivesExactlyWhen(before, was, old_, mid, exports, view, blocks, buf, Nobody(), b);
    assert DownFrom(before[b], mid[b]) && BackOrNot(mid[b], exports[b], view, blocks, buf, Nobody()(b));
    assert DownFrom(before[a], mid[a]);
    AllOfBuffer(mid[a], exports[a], view, blocks, c);
  }

  lemma {:induction false} AllOfBuffer(before: Export, after: Export, view: View, blocks: Blocks, buf: seq<byte>)
    requires view.Valid(blocks) && before.alloc.mapped && BackOrNot(before, after, view, blocks, buf, false)
    requires before.saved == Some(0) && before.alloc.size == |buf|
    ensures UpOne(after, view, blocks, buf)
  {
    assert buf[0..|buf|] == buf;
  }

  /** A failing run: the record saved first is refused once, and back in the next cycle. The handlers
      report nothing, both records are up, and both show the bytes of the other one. */
  method StaleBytes(p: Process, ghost contents: seq<seq<byte>>) returns (a: nat, b: nat)
    requires p.machine.obliging && TwoUp(p, contents)
    modifies p`exports, p`view, p`exportBuf, p`alias, p`created, p`handleToVa, p.machine
    ensures a < 2 && b < 2 && a != b && |p.exports| == 2
    ensures UpOne(p.exports[a], p.view, p.machine.blocks, contents[b])
    ensures UpOne(p.exports[b], p.view, p.machine.blocks, contents[b])
  {
    TwoSaved(p.exports);
    a := SaveOrder(p.exports)[0];
    b := 1 - a;
    RefuseFirst(p, a, b, contents);
    ReturnFirst(p, a, b, contents[b]);
  }
}

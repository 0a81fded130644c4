/** The dump as a value: the file table and the payload it describes. */
module Image {
  import opened Layout
  import opened Vmm
  import opened Replay

  datatype FileEntry = FileEntry(ptr: nat, start: nat, size: nat)

  /** A block to dump: its address and the bytes to save. */
  datatype Saved = Saved(ptr: nat, bytes: seq<byte>)

  /** The in-order concatenation of the saved blocks. */
  ghost function Payload(saved: seq<Saved>): seq<byte> {
    if saved == [] then [] else Payload(saved[..|saved| - 1]) + saved[|saved| - 1].bytes
  }

  /** The file table: one entry a block, packed back to back from the rounded header end. */
  ghost function Table(saved: seq<Saved>): (q: seq<FileEntry>)
    ensures |q| == |saved|
  {
    if saved == [] then [] else
      var n := |saved| - 1;
      Table(saved[..n]) + [FileEntry(saved[n].ptr, PAYLOAD_START + |Payload(saved[..n])|, |saved[n].bytes|)]
  }

  /** Saving one more block. */
  lemma {:induction false} SaveNext(saved: seq<Saved>, b: Saved)
    ensures Payload(saved + [b]) == Payload(saved) + b.bytes
    ensures Table(saved + [b]) == Table(saved) + [FileEntry(b.ptr, PAYLOAD_START + |Payload(saved)|, |b.bytes|)]
  {
  }

  /** Entry e cuts `bytes` out of the payload. */
  ghost predicate Cuts(data: seq<byte>, e: FileEntry, first: nat, bytes: seq<byte>) {
    && first <= e.start && e.start - first + e.size <= |data|
    && data[e.start - first..e.start - first + e.size] == bytes
  }

  lemma {:induction false} CutsLonger(front: seq<byte>, more: seq<byte>, e: FileEntry, first: nat, bytes: seq<byte>)
    requires Cuts(front, e, first, bytes)
    ensures Cuts(front + more, e, first, bytes)
  {
  }

  lemma {:induction false} CutsLast(front: seq<byte>, bytes: seq<byte>, p: nat)
    ensures Cuts(front + bytes, FileEntry(p, PAYLOAD_START + |front|, |bytes|), PAYLOAD_START, bytes)
  {
  }

  /** Each table entry names its block and cuts exactly its bytes out of the payload. */
  lemma {:induction false} TableSlicesPayload(saved: seq<Saved>, k: nat)
    requires k < |saved|
    ensures Table(saved)[k].ptr == saved[k].ptr
    ensures Cuts(Payload(saved), Table(saved)[k], PAYLOAD_START, saved[k].bytes)
    decreases |saved|
  {
    var n := |saved| - 1;
    if k < n {
      TableSlicesPayload(saved[..n], k);
      CutsLonger(Payload(saved[..n]), saved[n].bytes, Table(saved[..n])[k], PAYLOAD_START, saved[k].bytes);
    } else {
      CutsLast(Payload(saved[..n]), saved[n].bytes, saved[n].ptr);
    }
  }

  /** Entries follow each other without gaps from `first` to `end`. */
  ghost predicate Packed(q: seq<FileEntry>, first: nat, end: nat) {
    && first <= end && (q == [] ==> first == end) && (q != [] ==> q[0].start == first)
    && forall k | 0 <= k < |q| ::
         first <= q[k].start && q[k].start + q[k].size <= end &&
         q[k].start + q[k].size == if k + 1 < |q| then q[k + 1].start else end
  }

  lemma {:induction false} TablePacked(saved: seq<Saved>)
    ensures Packed(Table(saved), PAYLOAD_START, PAYLOAD_START + |Payload(saved)|)
  {
    if saved != [] {
      var n := |saved| - 1;
      TablePacked(saved[..n]);
      var front, q := Table(saved[..n]), Table(saved);
      assert forall k | 0 <= k < n :: q[k] == front[k];
    }
  }

  ghost predicate DistinctPtrs(q: seq<FileEntry>) {
    forall i, j | 0 <= i < j < |q| :: q[i].ptr != q[j].ptr
  }

  /** Entry e lies inside the payload. */
  ghost predicate Inside(e: FileEntry, data: seq<byte>, first: nat) {
    first <= e.start && e.start - first + e.size <= |data|
  }

  ghost function Slice(e: FileEntry, data: seq<byte>, first: nat): seq<byte> {
    if Inside(e, data, first) then data[e.start - first..e.start - first + e.size] else []
  }

  /** The plain restore: overwrite each block with its slice of the payload, one after another. */
  ghost function RestoreAll(m: map<nat, Mapping>, q: seq<FileEntry>, data: seq<byte>, first: nat): map<nat, Mapping> {
    if q == [] then m else
      var n := |q| - 1;
      Overwrite(RestoreAll(m, q[..n], data, first), q[n].ptr, Slice(q[n], data, first))
  }

  ghost predicate Restored(m: map<nat, Mapping>, e: FileEntry, data: seq<byte>, first: nat) {
    e.ptr in m && e.size <= |m[e.ptr].bytes| && m[e.ptr].bytes[..e.size] == Slice(e, data, first)
  }

  lemma {:induction false} OverwriteOne(m: map<nat, Mapping>, p: nat, v: seq<byte>)
    requires p in m && |v| <= |m[p].bytes|
    ensures SameExtents(m, Overwrite(m, p, v))
    ensures Overwrite(m, p, v)[p].bytes[..|v|] == v
    ensures forall x | x in m && x != p :: Overwrite(m, p, v)[x] == m[x]
  {
  }

  /** Block p is no file's target. */
  ghost predicate Untargeted(p: nat, q: seq<FileEntry>) {
    forall k | 0 <= k < |q| :: q[k].ptr != p
  }

  /** The target of e is mapped and large enough, and e lies inside the payload. */
  ghost predicate Feasible(m: map<nat, Mapping>, e: FileEntry, data: seq<byte>, first: nat) {
    e.ptr in m && e.size <= |m[e.ptr].bytes| && Inside(e, data, first)
  }

  lemma {:induction false} RestoreAllFrame(m: map<nat, Mapping>, q: seq<FileEntry>, data: seq<byte>, first: nat)
    requires forall k | 0 <= k < |q| :: Feasible(m, q[k], data, first)
    ensures SameExtents(m, RestoreAll(m, q, data, first))
    ensures forall p | p in m && Untargeted(p, q) :: RestoreAll(m, q, data, first)[p] == m[p]
  {
    if q != [] {
      var n := |q| - 1;
      RestoreAllFrame(m, q[..n], data, first);
      assert Feasible(m, q[n], data, first);
      OverwriteOne(RestoreAll(m, q[..n], data, first), q[n].ptr, Slice(q[n], data, first));
      assert forall p | Untargeted(p, q) :: Untargeted(p, q[..n]);
    }
  }

  /** With distinct targets that are large enough, the plain restore gives every file its slice. */
  lemma {:induction false} RestoreAllWorks(m: map<nat, Mapping>, q: seq<FileEntry>, data: seq<byte>, first: nat, k: nat)
    requires DistinctPtrs(q) && k < |q|
    requires forall i | 0 <= i < |q| :: Feasible(m, q[i], data, first)
    ensures Restored(RestoreAll(m, q, data, first), q[k], data, first)
    decreases |q|
  {
    var n := |q| - 1;
    var front := q[..n];
    RestoreAllFrame(m, front, data, first);
    var before := RestoreAll(m, front, data, first);
    assert Feasible(m, q[n], data, first) && Feasible(m, q[k], data, first);
    OverwriteOne(before, q[n].ptr, Slice(q[n], data, first));
    if k < n {
      RestoreAllWorks(m, front, data, first, k);
      assert front[k] == q[k] && q[k].ptr != q[n].ptr;
      assert RestoreAll(m, q, data, first)[q[k].ptr] == before[q[k].ptr];
    }
  }
}

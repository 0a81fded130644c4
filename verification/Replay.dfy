/** What a sequence of completed host-to-device byte copies does to device memory, and the plain
    block-by-block overwrite it amounts to. */
module Replay {
  import opened Layout
  import opened Vmm
  import opened Stream

  ghost predicate SameExtents(a: map<nat, Mapping>, b: map<nat, Mapping>) {
    a.Keys == b.Keys && forall p | p in a :: Resized(a[p], b[p])
  }

  /** Equal but for the bytes themselves. */
  ghost predicate Resized(a: Mapping, b: Mapping) {
    |a.bytes| == |b.bytes| && a.handle == b.handle && a.access == b.access
  }

  ghost predicate TargetPresent(m: map<nat, Mapping>, op: Op) {
    op.base in m && op.idx < |m[op.base].bytes|
  }

  ghost function Put(m: map<nat, Mapping>, op: Op, v: byte): map<nat, Mapping> {
    if TargetPresent(m, op) then m[op.base := m[op.base].(bytes := m[op.base].bytes[op.idx := v])] else m
  }

  /** The bytes vals arriving at the targets of ops, in order. */
  ghost function Play(m: map<nat, Mapping>, ops: seq<Op>, vals: seq<byte>): map<nat, Mapping>
    requires |ops| <= |vals|
  {
    if ops == [] then m else
      var n := |ops| - 1;
      Put(Play(m, ops[..n], vals), ops[n], vals[n])
  }

  lemma {:induction false} PlayExtents(m: map<nat, Mapping>, ops: seq<Op>, vals: seq<byte>)
    requires |ops| <= |vals|
    ensures SameExtents(m, Play(m, ops, vals))
  {
    if ops != [] {
      PlayExtents(m, ops[..|ops| - 1], vals);
    }
  }

  /** Replace the first |v| bytes seen at base. */
  ghost function Overwrite(m: map<nat, Mapping>, base: nat, v: seq<byte>): map<nat, Mapping> {
    if base in m && 0 < |v| <= |m[base].bytes|
    then m[base := m[base].(bytes := v + m[base].bytes[|v|..])]
    else m
  }

  /** Ops from position k on write bytes 0, 1, 2, ... of one block. */
  ghost predicate Run(ops: seq<Op>, k: nat, base: nat) {
    k <= |ops| && forall t | k <= t < |ops| :: ops[t].base == base && ops[t].idx == t - k
  }

  /** A run of byte copies into one block is one overwrite of its prefix. */
  lemma {:induction false} PlayRun(m: map<nat, Mapping>, ops: seq<Op>, vals: seq<byte>, k: nat, base: nat)
    requires |ops| <= |vals| && Run(ops, k, base)
    requires k < |ops| ==> base in m && |ops| - k <= |m[base].bytes|
    ensures Play(m, ops, vals) == Overwrite(Play(m, ops[..k], vals), base, vals[k..|ops|])
    decreases |ops|
  {
    if k == |ops| {
      assert ops[..k] == ops;
    } else {
      var n := |ops| - 1;
      var before := Play(m, ops[..k], vals);
      PlayRun(m, ops[..n], vals, k, base);
      assert ops[..n][..k] == ops[..k];
      PlayExtents(m, ops[..k], vals);
      OverwriteNext(before, base, vals[k..n], ops[n], vals[n]);
      assert vals[k..n] + [vals[n]] == vals[k..n + 1];
    }
  }

  lemma {:induction false} OverwriteNext(m: map<nat, Mapping>, base: nat, v: seq<byte>, op: Op, x: byte)
    requires base in m && |v| < |m[base].bytes|
    requires op.base == base && op.idx == |v|
    ensures Put(Overwrite(m, base, v), op, x) == Overwrite(m, base, v + [x])
  {
    var b := m[base].bytes;
    if v == [] {
      assert v + [x] == [x];
      assert b[0 := x] == [x] + b[1..];
    } else {
      assert (v + b[|v|..])[|v| := x] == (v + [x]) + b[|v| + 1..];
    }
  }
}

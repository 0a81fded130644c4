/** Writes into the host buffers the saved bytes go to. */
module HostBuffer {
  import opened Layout

  /** A write at offset off. */
  function Splice(buf: seq<byte>, off: nat, v: seq<byte>): (r: seq<byte>)
    requires off + |v| <= |buf|
    ensures |r| == |buf| && r[off..off + |v|] == v
  {
    buf[..off] + v + buf[off + |v|..]
  }

  /** It changes nothing outside its range. */
  lemma {:induction false} SpliceApart(buf: seq<byte>, off: nat, v: seq<byte>, a: nat, b: nat)
    requires off + |v| <= |buf| && a <= b <= |buf| && (b <= off || off + |v| <= a)
    ensures Splice(buf, off, v)[a..b] == buf[a..b]
  {
    var r := Splice(buf, off, v);
    assert |r[a..b]| == |buf[a..b]|;
    forall i | 0 <= i < b - a
      ensures r[a..b][i] == buf[a..b][i]
    {
      assert r[a + i] == buf[a + i];
    }
  }

  /** The buffer holds `bytes` at offset off. */
  ghost predicate HoldsAt(buf: seq<byte>, off: nat, bytes: seq<byte>) {
    off + |bytes| <= |buf| && buf[off..off + |bytes|] == bytes
  }

  lemma {:induction false} StillHolds(buf: seq<byte>, off: nat, v: seq<byte>, at: nat, bytes: seq<byte>)
    requires off + |v| <= |buf| && HoldsAt(buf, at, bytes)
    requires at + |bytes| <= off || off + |v| <= at
    ensures HoldsAt(Splice(buf, off, v), at, bytes)
  {
  }
}

/** The export blocks in shared memory and how the coordinator crosses them over
    (coordinator/multi_cr_client.cpp, exchange_ipc_export_info). */
module Exchange {
  import opened Layout
  import opened HostBuffer

  /** IpcExportShmEntry. */
  datatype Entry = Entry(pid: nat, fd: nat, va: nat, size: nat, valid: bool)

  /** IpcRebuildShmBlock: its first num_exports entries. */
  type Block = seq<Entry>

  /** The entries of all workers but w, in shm order, of the first n workers. */
  function Concat(blocks: seq<Block>, w: nat, n: nat): Block
    requires n <= |blocks|
  {
    if n == 0 then [] else Concat(blocks, w, n - 1) + (if n - 1 == w then [] else blocks[n - 1])
  }

  /** As many entries as fit a block. */
  function Cut(q: Block): (r: Block)
    ensures |r| <= MAX_EXPORTS && r <= q
  {
    q[..Min(|q|, MAX_EXPORTS)]
  }

  /** What the coordinator gives worker w. */
  function PeerBlock(blocks: seq<Block>, w: nat): Block {
    Cut(Concat(blocks, w, |blocks|))
  }

  lemma {:induction false} CutMore(q: Block, more: Block)
    ensures |q| >= MAX_EXPORTS ==> Cut(q + more) == Cut(q)
    ensures |q| < MAX_EXPORTS ==> Cut(q) == q
  {
  }

  /** The inner loop: append a block's entries until the peer block is full. */
  method AppendBlock(dst: Block, block: Block, ghost q: Block) returns (dst': Block)
    requires dst == Cut(q)
    ensures dst' == Cut(q + block)
  {
    dst' := dst;
    assert q + block[..0] == q;
    for k := 0 to |block|
      invariant dst' == Cut(q + block[..k])
    {
      CutMore(q + block[..k], block[k..]);
      if |dst'| >= MAX_EXPORTS {
        assert q + block[..k] + block[k..] == q + block;
        return;
      }
      dst' := dst' + [block[k]];
      assert q + block[..k] + [block[k]] == q + block[..k + 1];
    }
    assert block[..|block|] == block;
  }

  /** exchange_ipc_export_info: every peer block is the first min(64, total) entries of the
      concatenation of the other workers' blocks in shm order. */
  method ExchangeAll(blocks: seq<Block>) returns (peers: seq<Block>)
    ensures |peers| == |blocks|
    ensures forall w | 0 <= w < |blocks| :: peers[w] == PeerBlock(blocks, w)
  {
    peers := [];
    for i := 0 to |blocks|
      invariant |peers| == i
      invariant forall w | 0 <= w < i :: peers[w] == PeerBlock(blocks, w)
    {
      var dst: Block := [];
      for j := 0 to |blocks|
        invariant dst == Cut(Concat(blocks, i, j))
      {
        if j != i {
          dst := AppendBlock(dst, blocks[j], Concat(blocks, i, j));
        } else {
          assert Concat(blocks, i, j) + [] == Concat(blocks, i, j);
        }
      }
      peers := peers + [dst];
    }
  }

  // ----- where an entry of a peer block comes from -----

  /** Worker and position. */
  datatype Origin = Origin(worker: nat, pos: nat)

  function OriginsOf(worker: nat, count: nat): (q: seq<Origin>)
    ensures |q| == count && forall k | 0 <= k < count :: q[k] == Origin(worker, k)
  {
    seq(count, k requires 0 <= k < count => Origin(worker, k))
  }

  /** The exports of all workers but w, in shm order and export order, of the first n workers. */
  function Origins(counts: seq<nat>, w: nat, n: nat): (q: seq<Origin>)
    requires n <= |counts|
  {
    if n == 0 then [] else Origins(counts, w, n - 1) + (if n - 1 == w then [] else OriginsOf(n - 1, counts[n - 1]))
  }

  /** The entry at position m of the concatenation is the one its source put there. */
  lemma {:induction false} ConcatAt(blocks: seq<Block>, counts: seq<nat>, w: nat, n: nat)
    requires |counts| == |blocks| && n <= |blocks| && forall j | 0 <= j < |blocks| :: |blocks[j]| == counts[j]
    ensures |Concat(blocks, w, n)| == |Origins(counts, w, n)|
    ensures forall m | 0 <= m < |Origins(counts, w, n)| ::
            EntryAt(blocks, Concat(blocks, w, n)[m], Origins(counts, w, n)[m])
  {
    if n > 0 {
      ConcatAt(blocks, counts, w, n - 1);
      var c, s := Concat(blocks, w, n - 1), Origins(counts, w, n - 1);
      forall m | 0 <= m < |Origins(counts, w, n)|
        ensures EntryAt(blocks, Concat(blocks, w, n)[m], Origins(counts, w, n)[m])
      {
        if m < |s| {
          assert EntryAt(blocks, c[m], s[m]);
        } else {
          assert Origins(counts, w, n)[m] == OriginsOf(n - 1, counts[n - 1])[m - |s|];
        }
      }
    }
  }

  ghost predicate EntryAt(blocks: seq<Block>, e: Entry, s: Origin) {
    s.worker < |blocks| && s.pos < |blocks[s.worker]| && e == blocks[s.worker][s.pos]
  }

  // ----- where the blocks lie -----

  /** The two blocks lie side by side between the file table and the payload, so writing either touches
      neither of those nor the other block. */
  lemma {:induction false} BlocksApart(shm: seq<byte>, v: seq<byte>, mine: bool)
    requires |v| == SHM_BLOCK_SIZE && RoundUp(HEADER_SIZE) <= |shm|
    ensures var start := if mine then MY_BLOCK_START else PEER_BLOCK_START;
            var other := if mine then PEER_BLOCK_START else MY_BLOCK_START;
            && start + |v| <= |shm|
            && Splice(shm, start, v)[..HEADER_SIZE] == shm[..HEADER_SIZE]
            && Splice(shm, start, v)[RoundUp(HEADER_SIZE)..] == shm[RoundUp(HEADER_SIZE)..]
            && Splice(shm, start, v)[other..other + SHM_BLOCK_SIZE] == shm[other..other + SHM_BLOCK_SIZE]
  {
    PayloadStartIsRounded();
    var start := if mine then MY_BLOCK_START else PEER_BLOCK_START;
    var other := if mine then PEER_BLOCK_START else MY_BLOCK_START;
    SpliceApart(shm, start, v, 0, HEADER_SIZE);
    SpliceApart(shm, start, v, PAYLOAD_START, |shm|);
    SpliceApart(shm, start, v, other, other + SHM_BLOCK_SIZE);
    assert shm[PAYLOAD_START..|shm|] == shm[PAYLOAD_START..];
    assert Splice(shm, start, v)[PAYLOAD_START..|shm|] == Splice(shm, start, v)[PAYLOAD_START..];
  }
}

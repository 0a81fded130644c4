/** How the selective paths cut a block into device copies. */
module Granule {
  import opened Layout

  /** The cut that keeps a device copy inside one VMM granule. */
  function GranuleClamp(p: nat, len: nat): (r: nat)
    ensures r <= len && (len > 0 ==> r > 0)
  {
    Min(len, GRANULE - p % GRANULE)
  }

  /** A cut copy lies in one granule, and it is only cut short at a granule boundary. */
  lemma {:induction false} ClampShape(p: nat, len: nat)
    requires len > 0
    ensures OneGranule(p, GranuleClamp(p, len))
    ensures GranuleClamp(p, len) < len ==> OnBoundary(p + GranuleClamp(p, len))
  {
  }

  /** Length of the next copy: what is left, what still fits in the staging buffer, and on the
      selective paths no further than the granule. */
  function NextLen(clamp: bool, p: nat, size: nat, room: nat): (r: nat)
    requires size > 0 && room > 0
    ensures 0 < r <= size && r <= room
    ensures !clamp ==> r == size || r == room
  {
    if clamp then GranuleClamp(p, Min(size, room)) else Min(size, room)
  }

  datatype Chunk = Chunk(addr: nat, len: nat)

  /** The device copies issued for [p, p+size) when `off` bytes of the current staging
      buffer of size s are already used. */
  function Chunks(p: nat, size: nat, off: nat, s: nat): (cs: seq<Chunk>)
    requires off < s
    decreases size
  {
    if size == 0 then [] else
      var cur := NextLen(true, p, size, s - off);
      var next := if off + cur == s then 0 else off + cur;
      [Chunk(p, cur)] + Chunks(p + cur, size - cur, next, s)
  }

  /** Staging fill when the block ends, counted in the last buffer it touches. */
  ghost function LastFill(n: nat, s: nat): nat
    requires s > 0
  {
    if n <= s then n else LastFill(n - s, s)
  }

  ghost predicate OneGranule(p: nat, len: nat) {
    len > 0 && p / GRANULE == (p + len - 1) / GRANULE
  }

  ghost predicate OnBoundary(p: nat) {
    p % GRANULE == 0
  }

  /** The copies start at p one after another, none empty, and cover size bytes exactly; each lies
      in one granule and inside the staging buffer; each ends at a granule boundary, at the end of
      the block or where the staging buffer is full. */
  ghost predicate Tiles(cs: seq<Chunk>, p: nat, size: nat, off: nat, s: nat) {
    if cs == [] then size == 0 else
      var len := cs[0].len;
      && cs[0].addr == p && 0 < len <= size && off + len <= s
      && OneGranule(p, len)
      && (OnBoundary(p + len) || len == size || off + len == s)
      && Tiles(cs[1..], p + len, size - len, if off + len == s then 0 else off + len, s)
  }

  ghost predicate AlignedStartOrEnd(c: Chunk) {
    c.addr % GRANULE == 0 || (c.addr + c.len) % GRANULE == 0
  }

  ghost predicate AllAligned(cs: seq<Chunk>) {
    cs == [] || (AlignedStartOrEnd(cs[0]) && AllAligned(cs[1..]))
  }

  lemma {:induction false} TilesCons(len: nat, rest: seq<Chunk>, p: nat, size: nat, off: nat, s: nat)
    requires 0 < len <= size && off + len <= s && OneGranule(p, len)
    requires OnBoundary(p + len) || len == size || off + len == s
    requires Tiles(rest, p + len, size - len, if off + len == s then 0 else off + len, s)
    ensures Tiles([Chunk(p, len)] + rest, p, size, off, s)
  {
  }

  /** For every block and staging position the copies tile the block in order, each stays in
      one granule, and each stops only where it has to. */
  lemma {:induction false} ChunkShape(p: nat, size: nat, off: nat, s: nat)
    requires off < s
    ensures Tiles(Chunks(p, size, off, s), p, size, off, s)
    decreases size
  {
    if size > 0 {
      var cur := NextLen(true, p, size, s - off);
      var next := if off + cur == s then 0 else off + cur;
      ClampShape(p, Min(size, s - off));
      ChunkShape(p + cur, size - cur, next, s);
      TilesCons(cur, Chunks(p + cur, size - cur, next, s), p, size, off, s);
    }
  }

  /** The stronger shape promised by the comment above granule_clamp (every copy is aligned at
      its start or its end) holds exactly when the last staging buffer the block reaches
      receives at least the block's partial last granule. */
  lemma {:induction false} AlignedExactlyWhen(p: nat, size: nat, off: nat, s: nat)
    requires off < s && GRANULE <= s
    requires p % GRANULE == 0 || off == 0
    ensures AllAligned(Chunks(p, size, off, s))
       <==> size == 0 || LastFill(off + size, s) >= (p + size) % GRANULE
    decreases size
  {
    if size > 0 {
      var cur := NextLen(true, p, size, s - off);
      var next := if off + cur == s then 0 else off + cur;
      var rest := Chunks(p + cur, size - cur, next, s);
      AllAlignedCons(Chunk(p, cur), rest);
      if cur == size {
        FinalChunk(p, size, off, s);
      } else {
        InnerChunk(p, size, off, s, cur);
        AlignedExactlyWhen(p + cur, size - cur, next, s);
        SameEnd(p, size, cur);
      }
    }
  }

  lemma {:induction false} SameEnd(p: nat, size: nat, cur: nat)
    requires cur <= size
    ensures (p + cur + (size - cur)) % GRANULE == (p + size) % GRANULE
  {
  }

  lemma {:induction false} AllAlignedCons(c: Chunk, rest: seq<Chunk>)
    ensures AllAligned([c] + rest) <==> AlignedStartOrEnd(c) && AllAligned(rest)
  {
  }

  /** A copy that is not the last one is aligned at one end, and cutting it off does not change
      how full the last staging buffer gets. */
  lemma {:induction false} InnerChunk(p: nat, size: nat, off: nat, s: nat, cur: nat)
    requires off < s && GRANULE <= s && size > 0
    requires p % GRANULE == 0 || off == 0
    requires cur == NextLen(true, p, size, s - off) && cur < size
    ensures AlignedStartOrEnd(Chunk(p, cur))
    ensures (p + cur) % GRANULE == 0 || off + cur == s
    ensures LastFill(off + size, s) == LastFill((if off + cur == s then 0 else off + cur) + size - cur, s)
  {
  }

  /** The last copy of a block is unaligned at both ends exactly when a staging end fell inside
      the partial last granule. */
  lemma {:induction false} FinalChunk(p: nat, size: nat, off: nat, s: nat)
    requires off < s && GRANULE <= s && size > 0
    requires p % GRANULE == 0 || off == 0
    requires NextLen(true, p, size, s - off) == size
    ensures AlignedStartOrEnd(Chunk(p, size)) <==> LastFill(off + size, s) >= (p + size) % GRANULE
  {
    assert LastFill(off + size, s) == off + size;
    assert size <= GRANULE - p % GRANULE;
  }

  /** `copies` followed by the copies of the rest of the block is the whole list. */
  ghost predicate SoFar(copies: seq<Chunk>, all: seq<Chunk>, base: nat, idx: nat, size: nat, off: nat, s: nat) {
    idx <= size && off < s && copies + Chunks(base + idx, size - idx, off, s) == all
  }

  lemma {:induction false} NextChunk(copies: seq<Chunk>, all: seq<Chunk>, base: nat, idx: nat, size: nat, off: nat,
                                     s: nat, len: nat)
    requires SoFar(copies, all, base, idx, size, off, s) && idx < size
    requires len == NextLen(true, base + idx, size - idx, s - off)
    ensures SoFar(copies + [Chunk(base + idx, len)], all, base, idx + len, size,
            if off + len == s then 0 else off + len, s)
  {
  }

  /** The copies of a block have the right shape, wherever in the staging buffer they started. */
  ghost predicate InShape(cs: seq<Chunk>, p: nat, size: nat, s: nat) {
    exists off :: 0 <= off < s && Tiles(cs, p, size, off, s)
  }

  lemma {:induction false} ChunksInShape(p: nat, size: nat, off: nat, s: nat)
    requires off < s
    ensures InShape(Chunks(p, size, off, s), p, size, s)
  {
    ChunkShape(p, size, off, s);
  }

  /** A concrete block that breaks the comment's shape, with the 1 GB staging buffer of
      src/common.h: granule-aligned, one byte longer than the room left in the buffer. */
  lemma {:induction false} AlignedShapeFails()
    ensures var s := 512 * GRANULE; !AllAligned(Chunks(GRANULE, 2, s - 1, s))
  {
  }
}

/** The driver as the IPC hooks use it (src/ipc_hooks.cpp): physical blocks shared between processes,
    and what one process sees of them. */
module Fabric {
  import opened Layout
  import opened Ordered
  import opened AccessLog

  /** Every physical allocation of the machine and its bytes. Numbers of blocks are not used twice,
      so an unreachable block may stay in the map. */
  type Blocks = map<nat, seq<byte>>

  /** A mapping shows the first `size` bytes of a block. */
  datatype Window = Window(block: nat, size: nat, rights: Rights)

  /** One process: its allocation handles, its mappings by address, its open shareable descriptors,
      and every handle it has ever been given. Reservations are kept throughout, so an address
      stands for the reservation that starts at it. */
  datatype View = View(handles: map<nat, nat>, mapped: map<nat, Window>, fds: map<nat, nat>, issued: set<nat>) {

    ghost predicate Valid(blocks: Blocks) {
      && (forall h | h in handles :: h in issued && handles[h] in blocks)
      && (forall a | a in mapped :: mapped[a].block in blocks && mapped[a].size <= |blocks[mapped[a].block]|)
      && (forall f | f in fds :: fds[f] in blocks)
      && 0 in issued && 0 !in handles
    }

    function Create(h: nat, block: nat): View {
      this.(handles := handles[h := block], issued := issued + {h})
    }

    function Map(va: nat, h: nat, size: nat): View
      requires h in handles
    {
      this.(mapped := mapped[va := Window(handles[h], size, map[])])
    }

    function Grant(va: nat, rights: Rights): View
      requires va in mapped
    {
      this.(mapped := mapped[va := mapped[va].(rights := rights)])
    }

    function Unmap(va: nat): View {
      this.(mapped := mapped - {va})
    }

    /** cuMemRelease; a handle that is not held is refused and nothing changes. */
    function Release(h: nat): View {
      this.(handles := handles - {h})
    }

    function Open(fd: nat, block: nat): View {
      this.(fds := fds[fd := block])
    }

    function Close(fd: nat): View {
      this.(fds := fds - {fd})
    }
  }

  /** Blocks may be added, but those there were are as they were. */
  ghost predicate Grown(before: Blocks, after: Blocks) {
    forall b | b in before :: b in after && after[b] == before[b]
  }

  ghost predicate SubMap<V(!new)>(a: map<nat, V>, b: map<nat, V>) {
    forall k | k in a :: k in b && a[k] == b[k]
  }

  ghost predicate SameEntry<V(!new)>(m: map<nat, V>, m0: map<nat, V>, k: nat) {
    (k in m <==> k in m0) && (k in m ==> m[k] == m0[k])
  }

  /** `after` is what is left of `before`. */
  ghost predicate LessThan(after: View, before: View) {
    && SubMap(after.handles, before.handles) && SubMap(after.mapped, before.mapped) && SubMap(after.fds, before.fds)
    && after.issued == before.issued
  }

  lemma {:induction false} LessThanValid(after: View, before: View, blocks: Blocks)
    requires LessThan(after, before) && before.Valid(blocks)
    ensures after.Valid(blocks)
  {
  }

  /** A process reads exactly `bytes` at va. */
  ghost predicate Shows(view: View, blocks: Blocks, va: nat, bytes: seq<byte>) {
    && va in view.mapped && view.mapped[va].block in blocks
    && |bytes| == view.mapped[va].size <= |blocks[view.mapped[va].block]|
    && blocks[view.mapped[va].block][..|bytes|] == bytes
  }

  class Machine {
    const obliging: bool    // the driver and the fd exchange refuse nothing they are able to do
    var blocks: Blocks

    constructor (obliging: bool)
      ensures this.obliging == obliging && blocks == map[]
    {
      this.obliging, blocks := obliging, map[];
    }

    method Accepts() returns (yes: bool)
      ensures obliging ==> yes
    {
      yes := *;
      yes := yes || obliging;
    }

    /** New physical memory, holding anything. */
    method NewBlock(len: nat) returns (b: nat)
      modifies this
      ensures b !in old(blocks) && b in blocks && |blocks[b]| == len
      ensures blocks == old(blocks)[b := blocks[b]]
    {
      b := *;
      if b in blocks {
        b := FreshOutside(blocks.Keys);
      }
      var found: seq<byte> := *;
      if |found| != len {
        found := seq(len, i => 0);
      }
      blocks := blocks[b := found];
    }

    /** A handle that was never given out before. */
    method NewHandle(view: View) returns (h: nat)
      ensures h !in view.issued
    {
      h := *;
      if h in view.issued {
        h := FreshOutside(view.issued);
      }
    }

    method NewFd(view: View) returns (fd: nat)
      ensures fd !in view.fds
    {
      fd := *;
      if fd in view.fds {
        fd := FreshOutside(view.fds.Keys);
      }
    }
  }
}

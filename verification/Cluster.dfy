/** The multi-worker flow of coordinator/multi_cr_client.cpp on the IPC state: tear down everywhere,
    export everywhere, exchange the blocks, import everywhere. */
module Cluster {
  import opened Layout
  import opened Ordered
  import opened Fabric
  import opened ExportLayout
  import opened IpcProcess
  import opened Exchange
  import opened IpcExport
  import opened IpcImport
  import AccessLog

  /** Different processes of one machine. */
  ghost predicate Team(procs: seq<Process>, machine: Machine) {
    && (forall w | 0 <= w < |procs| :: procs[w].machine == machine)
    && (forall v, w | 0 <= v < w < |procs| :: procs[v] != procs[w] && procs[v].pid != procs[w].pid)
  }

  function Snapshots(procs: seq<Process>): (states: seq<Snapshot>)
    reads procs
    ensures |states| == |procs| && forall w | 0 <= w < |procs| :: states[w] == procs[w].Now()
  {
    seq(|procs|, w requires 0 <= w < |procs| reads procs => procs[w].Now())
  }

  function Pids(procs: seq<Process>): (pids: seq<nat>)
    ensures |pids| == |procs| && forall w | 0 <= w < |procs| :: pids[w] == procs[w].pid
  {
    seq(|procs|, w requires 0 <= w < |procs| => procs[w].pid)
  }

  function Counts(states: seq<Snapshot>): (counts: seq<nat>)
    ensures |counts| == |states| && forall w | 0 <= w < |states| :: counts[w] == |states[w].exports|
  {
    seq(|states|, w requires 0 <= w < |states| => |states[w].exports|)
  }

  /** The exports of all workers but w, in shm order and export order. */
  function PeersOf(states: seq<Snapshot>, w: nat): seq<Origin> {
    Origins(Counts(states), w, |states|)
  }

  /** Import m of worker w and the export s stands for are mapped to the same block. */
  ghost predicate Shares(states: seq<Snapshot>, w: nat, m: nat, s: Origin) {
    && w < |states| && m < |states[w].imports|
    && s.worker < |states| && s.worker != w && s.pos < |states[s.worker].exports|
    && SameBlock(states[w].view, states[w].imports[m], states[s.worker].view, states[s.worker].exports[s.pos])
  }

  ghost predicate SameBlock(view: View, r: Import, other: View, e: Export) {
    && r.va in view.mapped && e.alloc.va in other.mapped
    && view.mapped[r.va].block == other.mapped[e.alloc.va].block
    && view.mapped[r.va].size == r.size <= e.alloc.size
  }

  /** The imports of worker w, in creation order, are a prefix of its peers' exports and fit a peer
      block. */
  ghost predicate SharesPrefix(states: seq<Snapshot>, w: nat) {
    && w < |states| && |states[w].imports| <= Min(|PeersOf(states, w)|, MAX_EXPORTS)
    && forall m | 0 <= m < |states[w].imports| :: Shares(states, w, m, PeersOf(states, w)[m])
  }

  /** All workers are up, `contents` is what their exports read, and every import is the export of
      its number among the peers' exports. */
  ghost predicate Healthy(states: seq<Snapshot>, blocks: Blocks, contents: seq<seq<seq<byte>>>) {
    && |contents| == |states|
    && (forall w | 0 <= w < |states| :: IsUp(states[w], blocks, contents[w]) && |states[w].exports| <= MAX_EXPORTS)
    && (forall w | 0 <= w < |states| :: SharesPrefix(states, w))
  }

  /** What an import then reads. */
  lemma {:induction false} ImportReads(states: seq<Snapshot>, blocks: Blocks, contents: seq<seq<seq<byte>>>, w: nat,
                                       m: nat)
    requires Healthy(states, blocks, contents) && w < |states| && m < |states[w].imports|
    ensures m < |PeersOf(states, w)|
    ensures var s := PeersOf(states, w)[m];
            && s.worker < |states| && s.worker != w && s.pos < |contents[s.worker]|
            && states[w].imports[m].size <= |contents[s.worker][s.pos]|
            && Shows(states[w].view, blocks, states[w].imports[m].va,
               contents[s.worker][s.pos][..states[w].imports[m].size])
  {
    var s := PeersOf(states, w)[m];
    assert SharesPrefix(states, w) && Shares(states, w, m, s);
    assert IsUp(states[w], blocks, contents[w]) && IsUp(states[s.worker], blocks, contents[s.worker]);
    assert UpOne(states[s.worker].exports[s.pos], states[s.worker].view, blocks, contents[s.worker][s.pos]);
  }

  /** What the phases have to preserve of a worker. */
  datatype Baseline = Baseline(exports: seq<Export>, imports: seq<Import>, log: map<nat, seq<AccessLog.Desc>>,
                               contents: seq<seq<byte>>, traceable: bool, keyed: bool)

  ghost predicate Kept(s: Snapshot, b: Baseline) {
    SameAllocs(s.exports, b.exports) && SameRecords(s.imports, b.imports) && s.log == b.log
  }

  ghost predicate KeyedNow(s: Snapshot) {
    Keyed(s.view, s.created, s.handleToVa)
  }

  ghost predicate AtRest(s: Snapshot, blocks: Blocks, b: Baseline) {
    && IsUp(s, blocks, b.contents) && Kept(s, b)
    && (b.traceable ==> Traceable(s.exports, s.view)) && (b.keyed ==> KeyedNow(s))
  }

  ghost predicate Down(s: Snapshot, blocks: Blocks, b: Baseline) {
    && IsTorn(s, blocks, b.contents) && Kept(s, b)
    && (b.traceable ==> Orphaned(s.exports, s.view)) && (b.keyed ==> KeyedNow(s))
  }

  /** The exports are back and published. */
  ghost predicate Republished(s: Snapshot, blocks: Blocks, b: Baseline) {
    && IsServing(s, blocks, b.contents) && AllDown(s.imports, s.view) && Kept(s, b)
    && (b.traceable ==> Owned(s.exports, s.view, s.alias)) && (b.keyed ==> KeyedNow(s))
  }

  // ----- teardown -----

  /** The first k workers are down, the others still up. */
  ghost predicate Tearing(states: seq<Snapshot>, blocks: Blocks, bs: seq<Baseline>, k: nat) {
    && |states| == |bs|
    && (forall w | 0 <= w < k && w < |bs| :: Down(states[w], blocks, bs[w]))
    && (forall w | k <= w < |bs| :: AtRest(states[w], blocks, bs[w]))
  }

  lemma {:induction false} TornNext(states: seq<Snapshot>, blocks: Blocks, bs: seq<Baseline>, k: nat, s: Snapshot)
    requires Tearing(states, blocks, bs, k) && k < |bs| && Down(s, blocks, bs[k])
    ensures Tearing(states[k := s], blocks, bs, k + 1)
  {
  }

  method TeardownAll(procs: seq<Process>, machine: Machine, ghost bs: seq<Baseline>)
    requires Team(procs, machine) && machine.obliging && Tearing(Snapshots(procs), machine.blocks, bs, 0)
    modifies procs
    ensures Tearing(Snapshots(procs), machine.blocks, bs, |procs|)
  {
    for k := 0 to |procs|
      invariant Tearing(Snapshots(procs), machine.blocks, bs, k)
    {
      TeardownOne(procs, k, machine, bs);
    }
  }

  method TeardownOne(procs: seq<Process>, k: nat, machine: Machine, ghost bs: seq<Baseline>)
    requires Team(procs, machine) && machine.obliging && k < |procs| && Tearing(Snapshots(procs), machine.blocks, bs, k)
    modifies procs
    ensures Tearing(Snapshots(procs), machine.blocks, bs, k + 1)
  {
    ghost var states := Snapshots(procs);
    TeardownWorker(procs[k], bs[k]);
    assert Snapshots(procs) == states[k := procs[k].Now()];
    TornNext(states, machine.blocks, bs, k, procs[k].Now());
  }

  method TeardownWorker(p: Process, ghost b: Baseline)
    requires p.machine.obliging && AtRest(p.Now(), p.machine.blocks, b)
    modifies p`exports, p`imports, p`view, p`exportBuf
    ensures Down(p.Now(), p.machine.blocks, b)
  {
    var _ := p.Teardown(b.contents);
  }

  // ----- export -----

  /** No two exports of the two workers have the same block. */
  ghost predicate Apart(s: Snapshot, t: Snapshot) {
    forall i, j | 0 <= i < |s.exports| && 0 <= j < |t.exports| :: BlockBehind(s, i) != BlockBehind(t, j)
  }

  ghost function BlockBehind(s: Snapshot, i: nat): nat
    requires i < |s.exports|
  {
    if s.exports[i].alloc.va in s.view.mapped then s.view.mapped[s.exports[i].alloc.va].block else 0
  }

  ghost predicate ExportedAt(states: seq<Snapshot>, blocks: Blocks, start: Blocks, bs: seq<Baseline>, pids: seq<nat>,
                             published: seq<Block>, w: nat)
    requires w < |states| && w < |bs| && w < |pids| && w < |published|
  {
    && Republished(states[w], blocks, bs[w]) && Published(published[w], pids[w], states[w].exports)
    && OwnBlocks(states[w].exports, states[w].view, start)
  }

  /** The first k workers have their exports back, each export on a block of its own that is newer
      than `start`; the others are still down. */
  ghost predicate Exporting(states: seq<Snapshot>, blocks: Blocks, start: Blocks, bs: seq<Baseline>, pids: seq<nat>,
                            published: seq<Block>, k: nat) {
    && |states| == |bs| == |pids| && |published| == k <= |bs| && Grown(start, blocks)
    && (forall w | 0 <= w < k :: ExportedAt(states, blocks, start, bs, pids, published, w))
    && (forall w | k <= w < |bs| :: Down(states[w], blocks, bs[w]))
    && (forall v, w | 0 <= v < w < k :: Apart(states[v], states[w]))
  }

  lemma {:induction false} DownGrown(s: Snapshot, before: Blocks, after: Blocks, b: Baseline)
    requires Down(s, before, b) && Grown(before, after)
    ensures Down(s, after, b)
  {
  }

  lemma {:induction false} RepublishedGrown(s: Snapshot, before: Blocks, after: Blocks, b: Baseline)
    requires Republished(s, before, b) && Grown(before, after)
    ensures Republished(s, after, b)
  {
  }

  lemma {:induction false} ExportNext(states: seq<Snapshot>, mid: Blocks, start: Blocks, bs: seq<Baseline>,
                                      pids: seq<nat>, published: seq<Block>, k: nat, s: Snapshot, blocks: Blocks,
                                      block: Block)
    requires Exporting(states, mid, start, bs, pids, published, k) && k < |bs| && Grown(mid, blocks)
    requires Republished(s, blocks, bs[k]) && Published(block, pids[k], s.exports) && OwnBlocks(s.exports, s.view, mid)
    ensures Exporting(states[k := s], blocks, start, bs, pids, published + [block], k + 1)
  {
    var after, all := states[k := s], published + [block];
    forall w | 0 <= w < k + 1
      ensures ExportedAt(after, blocks, start, bs, pids, all, w)
    {
      if w < k {
        assert ExportedAt(states, mid, start, bs, pids, published, w);
        RepublishedGrown(states[w], mid, blocks, bs[w]);
      }
    }
    forall w | k + 1 <= w < |bs|
      ensures Down(after[w], blocks, bs[w])
    {
      DownGrown(states[w], mid, blocks, bs[w]);
    }
    forall v, w | 0 <= v < w < k + 1
      ensures Apart(after[v], after[w])
    {
      if w == k {
        assert ExportedAt(states, mid, start, bs, pids, published, v);
        NewBlocksApart(states[v], mid, bs[v], s);
      }
    }
  }

  lemma {:induction false} NewBlocksApart(old_: Snapshot, mid: Blocks, b: Baseline, s: Snapshot)
    requires Republished(old_, mid, b) && OwnBlocks(s.exports, s.view, mid)
    ensures Apart(old_, s)
  {
  }

  method ExportAll(procs: seq<Process>, machine: Machine, ghost bs: seq<Baseline>) returns (published: seq<Block>)
    requires Team(procs, machine) && machine.obliging && Tearing(Snapshots(procs), machine.blocks, bs, |procs|)
    modifies procs, machine
    ensures Exporting(Snapshots(procs), machine.blocks, old(machine.blocks), bs, Pids(procs), published, |procs|)
  {
    published := [];
    for k := 0 to |procs|
      invariant Exporting(Snapshots(procs), machine.blocks, old(machine.blocks), bs, Pids(procs), published, k)
    {
      published := ExportOne(procs, k, machine, bs, old(machine.blocks), published);
    }
  }

  method ExportOne(procs: seq<Process>, k: nat, machine: Machine, ghost bs: seq<Baseline>, ghost start: Blocks,
                   published: seq<Block>) returns (more: seq<Block>)
    requires Team(procs, machine) && machine.obliging && k < |procs|
    requires Exporting(Snapshots(procs), machine.blocks, start, bs, Pids(procs), published, k)
    modifies procs, machine
    ensures Exporting(Snapshots(procs), machine.blocks, start, bs, Pids(procs), more, k + 1)
  {
    ghost var states, mid := Snapshots(procs), machine.blocks;
    var block := ExportWorker(procs[k], bs[k]);
    assert Snapshots(procs) == states[k := procs[k].Now()];
    ExportNext(states, mid, start, bs, Pids(procs), published, k, procs[k].Now(), machine.blocks, block);
    more := published + [block];
  }

  method ExportWorker(p: Process, ghost b: Baseline) returns (block: Block)
    requires p.machine.obliging && Down(p.Now(), p.machine.blocks, b)
    modifies p`exports, p`view, p`alias, p`created, p`handleToVa, p`exportBuf, p.machine
    ensures Republished(p.Now(), p.machine.blocks, b) && Grown(old(p.machine.blocks), p.machine.blocks)
    ensures Published(block, p.pid, p.exports) && OwnBlocks(p.exports, p.view, old(p.machine.blocks))
  {
    block := ExportPhase(p, b.contents);
  }

  // ----- import -----

  /** The fd servers of all workers are up and hand out what the workers have open. */
  ghost predicate ServersOf(remote: Servers, states: seq<Snapshot>, pids: seq<nat>) {
    && |pids| == |states|
    && (forall w | 0 <= w < |states| :: pids[w] in remote && remote[pids[w]] == states[w].view.fds)
    && (forall pid | pid in remote :: pid in pids)
  }

  method StartServers(procs: seq<Process>, machine: Machine) returns (remote: Servers)
    requires Team(procs, machine)
    ensures ServersOf(remote, Snapshots(procs), Pids(procs))
  {
    remote := map[];
    for k := 0 to |procs|
      invariant forall w | 0 <= w < k :: procs[w].pid in remote && remote[procs[w].pid] == procs[w].view.fds
      invariant forall pid | pid in remote :: pid in Pids(procs)
    {
      remote := remote[procs[k].pid := procs[k].view.fds];
      assert Pids(procs)[k] == procs[k].pid;
    }
  }

  /** After the export phase. */
  ghost predicate AllExported(states: seq<Snapshot>, blocks: Blocks, bs: seq<Baseline>, pids: seq<nat>,
                              published: seq<Block>) {
    && |states| == |bs| == |pids| == |published|
    && forall w | 0 <= w < |bs| ::
       Republished(states[w], blocks, bs[w]) && Published(published[w], pids[w], states[w].exports)
       && |states[w].exports| <= MAX_EXPORTS
  }

  lemma {:induction false} ServersAreValid(states: seq<Snapshot>, blocks: Blocks, bs: seq<Baseline>, pids: seq<nat>,
                                           published: seq<Block>, remote: Servers)
    requires AllExported(states, blocks, bs, pids, published) && ServersOf(remote, states, pids)
    ensures ServersValid(remote, blocks)
  {
  }

  /** What entry m of a peer block stands for. */
  ghost predicate StandsFor(e: Entry, states: seq<Snapshot>, pids: seq<nat>, s: Origin) {
    && s.worker < |states| && s.worker < |pids| && s.pos < |states[s.worker].exports|
    && var x := states[s.worker].exports[s.pos];
       x.fd.Some? && e == Entry(pids[s.worker], x.fd.value, x.alloc.va, x.alloc.size, true)
  }

  /** Each peer block holds the first 64 exports of the other workers, in shm order and export order,
      and nothing else. */
  lemma {:induction false} PeerEntries(states: seq<Snapshot>, blocks: Blocks, bs: seq<Baseline>, pids: seq<nat>,
                                       published: seq<Block>, w: nat)
    requires AllExported(states, blocks, bs, pids, published)
    ensures |PeerBlock(published, w)| == Min(|PeersOf(states, w)|, MAX_EXPORTS)
    ensures forall m | 0 <= m < |PeerBlock(published, w)| ::
            StandsFor(PeerBlock(published, w)[m], states, pids, PeersOf(states, w)[m])
  {
    var n := |states|;
    forall j | 0 <= j < n
      ensures |published[j]| == Counts(states)[j]
    {
      assert Published(published[j], pids[j], states[j].exports);
    }
    ConcatAt(published, Counts(states), w, n);
    forall m | 0 <= m < |PeerBlock(published, w)|
      ensures StandsFor(PeerBlock(published, w)[m], states, pids, PeersOf(states, w)[m])
    {
      var s := PeersOf(states, w)[m];
      assert EntryAt(published, Concat(published, w, n)[m], s);
      assert Published(published[s.worker], pids[s.worker], states[s.worker].exports);
    }
  }

  /** The server of its owner hands out a descriptor of the block behind the export. */
  lemma {:induction false} EntryServed(e: Entry, states: seq<Snapshot>, blocks: Blocks, bs: seq<Baseline>,
                                       pids: seq<nat>, published: seq<Block>, remote: Servers, s: Origin)
    requires AllExported(states, blocks, bs, pids, published) && ServersOf(remote, states, pids)
             && StandsFor(e, states, pids, s)
    ensures Served(remote, e) && e.valid
    ensures BlockOf(remote, e) == BlockBehind(states[s.worker], s.pos)
    ensures BlockOf(remote, e) in blocks && states[s.worker].exports[s.pos].alloc.size <= |blocks[BlockOf(remote, e)]|
  {
  }

  /** The imports of worker w fit the exports of their numbers. */
  ghost predicate Fits(states: seq<Snapshot>, w: nat) {
    && w < |states| && |states[w].imports| <= Min(|PeersOf(states, w)|, MAX_EXPORTS)
    && forall m | 0 <= m < |states[w].imports| :: FitsOne(states, w, m, PeersOf(states, w)[m])
  }

  ghost predicate FitsOne(states: seq<Snapshot>, w: nat, m: nat, s: Origin) {
    && w < |states| && m < |states[w].imports| && s.worker < |states| && s.worker != w
       && s.pos < |states[s.worker].exports|
    && states[w].imports[m].size <= states[s.worker].exports[s.pos].alloc.size
  }

  lemma {:induction false} InPlace(states: seq<Snapshot>, blocks: Blocks, bs: seq<Baseline>, pids: seq<nat>,
                                   published: seq<Block>, remote: Servers, w: nat)
    requires AllExported(states, blocks, bs, pids, published) && ServersOf(remote, states, pids) && Fits(states, w)
    ensures Positional(PeerBlock(published, w), remote, states[w].imports, states[w].view, blocks)
  {
    var block := PeerBlock(published, w);
    PeerEntries(states, blocks, bs, pids, published, w);
    forall i | 0 <= i < |block|
      ensures block[i].valid && Served(remote, block[i])
    {
      EntryServed(block[i], states, blocks, bs, pids, published, remote, PeersOf(states, w)[i]);
    }
    assert Republished(states[w], blocks, bs[w]);
    forall m | 0 <= m < |states[w].imports|
      ensures LinkableOne(states[w].imports[m], BlockOf(remote, block[m]), states[w].view, blocks)
    {
      EntryServed(block[m], states, blocks, bs, pids, published, remote, PeersOf(states, w)[m]);
      assert FitsOne(states, w, m, PeersOf(states, w)[m]);
    }
  }

  /** Worker w has done its imports; `mid` is its state before. */
  ghost predicate Imported(s: Snapshot, mid: Snapshot, blocks: Blocks, b: Baseline, block: Block, remote: Servers) {
    && IsServing(s, blocks, b.contents) && s.exports == mid.exports && s.log == mid.log && s.alias == mid.alias
    && s.view.fds == mid.view.fds && SubMap(mid.view.mapped, s.view.mapped)
    && Relinked(block, remote, mid.imports, s.imports, s.view)
    && (b.traceable ==> Owned(s.exports, s.view, s.alias)) && (b.keyed ==> KeyedNow(s))
  }

  ghost predicate Importing(states: seq<Snapshot>, mid: seq<Snapshot>, blocks: Blocks, bs: seq<Baseline>,
                            peers: seq<Block>, remote: Servers, k: nat) {
    && |states| == |mid| == |bs| == |peers|
    && (forall w | 0 <= w < k && w < |bs| :: Imported(states[w], mid[w], blocks, bs[w], peers[w], remote))
    && (forall w | k <= w < |bs| :: states[w] == mid[w])
  }

  lemma {:induction false} ImportNext(states: seq<Snapshot>, mid: seq<Snapshot>, blocks: Blocks, bs: seq<Baseline>,
                                      peers: seq<Block>, remote: Servers, k: nat, s: Snapshot)
    requires Importing(states, mid, blocks, bs, peers, remote, k) && k < |bs|
             && Imported(s, mid[k], blocks, bs[k], peers[k], remote)
    ensures Importing(states[k := s], mid, blocks, bs, peers, remote, k + 1)
  {
  }

  method ImportAll(procs: seq<Process>, machine: Machine, ghost bs: seq<Baseline>, ghost published: seq<Block>,
                   peers: seq<Block>, remote: Servers)
    requires Team(procs, machine) && machine.obliging
    requires AllExported(Snapshots(procs), machine.blocks, bs, Pids(procs), published)
             && ServersOf(remote, Snapshots(procs), Pids(procs))
    requires |peers| == |procs| && forall w | 0 <= w < |procs| ::
             peers[w] == PeerBlock(published, w) && Fits(Snapshots(procs), w)
    modifies procs
    ensures Importing(Snapshots(procs), old(Snapshots(procs)), machine.blocks, bs, peers, remote, |procs|)
  {
    ghost var mid := Snapshots(procs);
    ServersAreValid(mid, machine.blocks, bs, Pids(procs), published, remote);
    for k := 0 to |procs|
      invariant Importing(Snapshots(procs), mid, machine.blocks, bs, peers, remote, k)
    {
      InPlace(mid, machine.blocks, bs, Pids(procs), published, remote, k);
      assert Republished(mid[k], machine.blocks, bs[k]);
      ImportOne(procs, k, machine, bs, mid, peers, remote);
    }
  }

  method ImportOne(procs: seq<Process>, k: nat, machine: Machine, ghost bs: seq<Baseline>, ghost mid: seq<Snapshot>,
                   peers: seq<Block>, remote: Servers)
    requires Team(procs, machine) && machine.obliging && k < |procs| && ServersValid(remote, machine.blocks)
    requires Importing(Snapshots(procs), mid, machine.blocks, bs, peers, remote, k)
    requires Republished(mid[k], machine.blocks, bs[k])
             && Positional(peers[k], remote, mid[k].imports, mid[k].view, machine.blocks)
    modifies procs
    ensures Importing(Snapshots(procs), mid, machine.blocks, bs, peers, remote, k + 1)
  {
    ghost var states := Snapshots(procs);
    assert procs[k].Now() == mid[k];
    ImportWorker(procs[k], bs[k], peers[k], remote);
    assert Snapshots(procs) == states[k := procs[k].Now()];
    ImportNext(states, mid, machine.blocks, bs, peers, remote, k, procs[k].Now());
  }

  method ImportWorker(p: Process, ghost b: Baseline, block: Block, remote: Servers)
    requires p.machine.obliging && Republished(p.Now(), p.machine.blocks, b) && ServersValid(remote, p.machine.blocks)
    requires Positional(block, remote, p.imports, p.view, p.machine.blocks)
    modifies p`view, p`imports
    ensures Imported(p.Now(), old(p.Now()), p.machine.blocks, b, block, remote)
  {
    ImportPhase(p, block, remote, b.contents);
  }

  // ----- a whole cycle -----

  ghost function BaselineOf(s: Snapshot, contents: seq<seq<byte>>): Baseline {
    Baseline(s.exports, s.imports, s.log, contents, Traceable(s.exports, s.view), KeyedNow(s))
  }

  ghost function Baselines(states: seq<Snapshot>, contents: seq<seq<seq<byte>>>): (bs: seq<Baseline>)
    requires |contents| == |states|
    ensures |bs| == |states| && forall w | 0 <= w < |states| :: bs[w] == BaselineOf(states[w], contents[w])
  {
    seq(|states|, w requires 0 <= w < |states| => BaselineOf(states[w], contents[w]))
  }

  /** A worker after a cycle: the same records, with the rights of its log and of its import records. */
  ghost predicate Returned(s: Snapshot, b: Baseline, start: Blocks) {
    && Kept(s, b) && (b.traceable ==> Owned(s.exports, s.view, s.alias)) && (b.keyed ==> KeyedNow(s))
    && OwnBlocks(s.exports, s.view, start) && RightsOfLog(s.exports, s.view, s.log)
    && forall m | 0 <= m < |s.imports| :: RightsOfImport(s.imports[m], s.view)
  }

  ghost predicate RightsOfImport(r: Import, view: View) {
    r.va in view.mapped && view.mapped[r.va].rights == AccessLog.SetAccess(map[], r.access)
  }

  /** All workers have returned, and no two exports of the machine have a block in common or one that
      existed before. */
  ghost predicate AllReturned(states: seq<Snapshot>, bs: seq<Baseline>, start: Blocks) {
    && |states| == |bs|
    && (forall w | 0 <= w < |states| :: Returned(states[w], bs[w], start))
    && (forall v, w | 0 <= v < w < |states| :: Apart(states[v], states[w]))
  }

  /** The log of an address tells the rights of the mapping there. */
  ghost predicate LogTells(s: Snapshot, va: nat) {
    && va in s.view.mapped && va in s.log && s.log[va] != []
    && s.view.mapped[va].rights == AccessLog.SetAccess(map[], s.log[va])
  }

  /** So does the record of an import. */
  ghost predicate RecordTells(s: Snapshot, r: Import) {
    r.va in s.view.mapped && s.view.mapped[r.va].rights == AccessLog.SetAccess(map[], r.access)
  }

  ghost predicate SameExportRights(s: Snapshot, was: Snapshot, e: Export, e0: Export) {
    && e.alloc == e0.alloc
    && (LogTells(was, e0.alloc.va) ==>
         LogTells(s, e.alloc.va) && s.view.mapped[e.alloc.va].rights == was.view.mapped[e0.alloc.va].rights)
  }

  ghost predicate SameImportRights(s: Snapshot, was: Snapshot, r: Import, r0: Import) {
    && r.va == r0.va && r.access == r0.access
    && (RecordTells(was, r0) ==>
         RecordTells(s, r) && s.view.mapped[r.va].rights == was.view.mapped[r0.va].rights)
  }

  /** Every export and every import whose rights were recorded has the rights it had. */
  ghost predicate SameRights(s: Snapshot, was: Snapshot) {
    && |s.exports| == |was.exports| && |s.imports| == |was.imports|
    && (forall i | 0 <= i < |s.exports| :: SameExportRights(s, was, s.exports[i], was.exports[i]))
    && (forall m | 0 <= m < |s.imports| :: SameImportRights(s, was, s.imports[m], was.imports[m]))
  }

  ghost predicate AllSameRights(states: seq<Snapshot>, was: seq<Snapshot>) {
    |states| == |was| && forall w | 0 <= w < |states| :: SameRights(states[w], was[w])
  }

  lemma {:induction false} RightsReturn(states: seq<Snapshot>, was: seq<Snapshot>, contents: seq<seq<seq<byte>>>,
                                        start: Blocks)
    requires |contents| == |was| && AllReturned(states, Baselines(was, contents), start)
    ensures AllSameRights(states, was)
  {
    forall w | 0 <= w < |states|
      ensures SameRights(states[w], was[w])
    {
      assert Returned(states[w], Baselines(was, contents)[w], start);
      WorkerRights(states[w], was[w], contents[w], start);
    }
  }

  lemma {:induction false} WorkerRights(s: Snapshot, was: Snapshot, contents: seq<seq<byte>>, start: Blocks)
    requires Returned(s, BaselineOf(was, contents), start)
    ensures SameRights(s, was)
  {
    forall m | 0 <= m < |s.imports|
      ensures SameImportRights(s, was, s.imports[m], was.imports[m])
    {
      assert RightsOfImport(s.imports[m], s.view);
    }
  }

  lemma {:induction false} RightsStay(after: seq<Snapshot>, mid: seq<Snapshot>, first: seq<Snapshot>)
    requires AllSameRights(after, mid) && AllSameRights(mid, first)
    ensures AllSameRights(after, first)
  {
    forall w | 0 <= w < |after|
      ensures SameRights(after[w], first[w])
    {
      assert SameRights(after[w], mid[w]) && SameRights(mid[w], first[w]);
    }
  }

  lemma {:induction false} SharesImpliesFits(was: seq<Snapshot>, states: seq<Snapshot>, bs: seq<Baseline>,
                                             contents: seq<seq<seq<byte>>>, w: nat)
    requires |contents| == |was| == |states| && bs == Baselines(was, contents) && w < |was|
    requires forall v | 0 <= v < |was| :: Kept(states[v], bs[v])
    requires SharesPrefix(was, w)
    ensures Fits(states, w)
  {
    assert Counts(states) == Counts(was);
    assert Kept(states[w], bs[w]);
    forall m | 0 <= m < |states[w].imports|
      ensures FitsOne(states, w, m, PeersOf(states, w)[m])
    {
      var s := PeersOf(was, w)[m];
      assert Shares(was, w, m, s) && Kept(states[s.worker], bs[s.worker]);
    }
  }

  lemma {:induction false} UpAgain(s: Snapshot, mid: Snapshot, blocks: Blocks, b: Baseline, block: Block,
                                   remote: Servers, start: Blocks)
    requires Imported(s, mid, blocks, b, block, remote) && Kept(mid, b) && OwnBlocks(mid.exports, mid.view, start)
    ensures IsUp(s, blocks, b.contents) && Returned(s, b, start)
  {
    forall m | 0 <= m < |s.imports|
      ensures ImportUp(s.imports[m], s.view) && RightsOfImport(s.imports[m], s.view)
      ensures s.imports[m].va == b.imports[m].va && s.imports[m].size == b.imports[m].size
              && s.imports[m].access == b.imports[m].access
    {
      assert LinkedTo(mid.imports[m], s.imports[m], BlockOf(remote, block[m]), s.view);
    }
    forall i | 0 <= i < |s.exports|
      ensures s.exports[i].alloc.va in s.view.mapped
              && s.view.mapped[s.exports[i].alloc.va] == mid.view.mapped[s.exports[i].alloc.va]
    {
    }
  }

  lemma {:induction false} StillApart(s: Snapshot, t: Snapshot, s': Snapshot, t': Snapshot)
    requires Apart(s, t) && s'.exports == s.exports && t'.exports == t.exports
    requires SubMap(s.view.mapped, s'.view.mapped) && SubMap(t.view.mapped, t'.view.mapped)
    requires forall i | 0 <= i < |s.exports| :: s.exports[i].alloc.va in s.view.mapped
    requires forall i | 0 <= i < |t.exports| :: t.exports[i].alloc.va in t.view.mapped
    ensures Apart(s', t')
  {
    forall i, j | 0 <= i < |s'.exports| && 0 <= j < |t'.exports|
      ensures BlockBehind(s', i) != BlockBehind(t', j)
    {
      assert BlockBehind(s', i) == BlockBehind(s, i) && BlockBehind(t', j) == BlockBehind(t, j);
    }
  }

  /** An import relinked to an entry is mapped to the block its export has now. */
  lemma {:induction false} SharesOneAgain(s: Snapshot, before: Import, r: Import, e: Entry, remote: Servers,
                                          mid: Snapshot, now: Snapshot, blocks: Blocks, b: Baseline, pos: nat)
    requires Served(remote, e) && LinkedTo(before, r, BlockOf(remote, e), s.view) && pos < |mid.exports|
             && before.size <= mid.exports[pos].alloc.size
    requires Republished(mid, blocks, b) && BlockOf(remote, e) == BlockBehind(mid, pos)
    requires now.exports == mid.exports && SubMap(mid.view.mapped, now.view.mapped)
    ensures SameBlock(s.view, r, now.view, now.exports[pos])
  {
  }

  lemma {:induction false} SharesAgain(states: seq<Snapshot>, mid: seq<Snapshot>, blocks: Blocks, bs: seq<Baseline>,
                                       pids: seq<nat>, published: seq<Block>, peers: seq<Block>, remote: Servers,
                                       w: nat)
    requires AllExported(mid, blocks, bs, pids, published) && ServersOf(remote, mid, pids)
    requires Importing(states, mid, blocks, bs, peers, remote, |bs|) && w < |bs|
             && peers[w] == PeerBlock(published, w) && Fits(mid, w)
    ensures SharesPrefix(states, w)
  {
    SameCounts(states, mid, blocks, bs, peers, remote);
    PeerEntries(mid, blocks, bs, pids, published, w);
    assert Imported(states[w], mid[w], blocks, bs[w], peers[w], remote);
    forall m | 0 <= m < |states[w].imports|
      ensures Shares(states, w, m, PeersOf(states, w)[m])
    {
      var s := PeersOf(mid, w)[m];
      assert FitsOne(mid, w, m, s);
      EntryServed(peers[w][m], mid, blocks, bs, pids, published, remote, s);
      assert Imported(states[s.worker], mid[s.worker], blocks, bs[s.worker], peers[s.worker], remote);
      SharesOneAgain(states[w], mid[w].imports[m], states[w].imports[m], peers[w][m], remote, mid[s.worker],
        states[s.worker], blocks, bs[s.worker], s.pos);
    }
  }

  lemma {:induction false} SameCounts(states: seq<Snapshot>, mid: seq<Snapshot>, blocks: Blocks, bs: seq<Baseline>,
                                      peers: seq<Block>, remote: Servers)
    requires Importing(states, mid, blocks, bs, peers, remote, |bs|)
    ensures Counts(states) == Counts(mid)
  {
  }

  /** Checkpoint and restore of the IPC state of all workers: tear down everywhere, export everywhere,
      exchange, import everywhere. Every address is mapped again, to memory that did not exist before;
      exports read what they read before; every import is mapped to the block its own export has now,
      and no two exports share one. This is again the state the next cycle needs. */
  method Cycle(procs: seq<Process>, machine: Machine, ghost contents: seq<seq<seq<byte>>>)
    requires Team(procs, machine) && machine.obliging && Healthy(Snapshots(procs), machine.blocks, contents)
    modifies procs, machine
    ensures Healthy(Snapshots(procs), machine.blocks, contents)
    ensures AllReturned(Snapshots(procs), Baselines(old(Snapshots(procs)), contents), old(machine.blocks))
    ensures AllSameRights(Snapshots(procs), old(Snapshots(procs)))
  {
    ghost var was, start := Snapshots(procs), machine.blocks;
    ghost var bs := Baselines(was, contents);
    var published := RenewAll(procs, machine, bs, was, contents);
    var peers := ExchangeAll(published);
    RelinkAll(procs, machine, bs, was, start, published, peers, contents);
    RightsReturn(Snapshots(procs), was, contents, start);
  }

  /** Teardown everywhere, then export everywhere. */
  method RenewAll(procs: seq<Process>, machine: Machine, ghost bs: seq<Baseline>, ghost was: seq<Snapshot>,
                  ghost contents: seq<seq<seq<byte>>>) returns (published: seq<Block>)
    requires Team(procs, machine) && machine.obliging && was == Snapshots(procs)
    requires Healthy(was, machine.blocks, contents) && bs == Baselines(was, contents)
    modifies procs, machine
    ensures Exporting(Snapshots(procs), machine.blocks, old(machine.blocks), bs, Pids(procs), published, |bs|)
    ensures AllExported(Snapshots(procs), machine.blocks, bs, Pids(procs), published)
    ensures forall w | 0 <= w < |procs| :: Fits(Snapshots(procs), w)
  {
    AllAtRest(was, machine.blocks, bs, contents);
    TeardownAll(procs, machine, bs);
    published := ExportAll(procs, machine, bs);
    ReadyForAll(was, Snapshots(procs), machine.blocks, old(machine.blocks), bs, Pids(procs), published, contents);
  }

  lemma {:induction false} AllAtRest(was: seq<Snapshot>, blocks: Blocks, bs: seq<Baseline>,
                                     contents: seq<seq<seq<byte>>>)
    requires Healthy(was, blocks, contents) && bs == Baselines(was, contents)
    ensures Tearing(was, blocks, bs, 0)
  {
  }

  /** Import everywhere. */
  method RelinkAll(procs: seq<Process>, machine: Machine, ghost bs: seq<Baseline>, ghost was: seq<Snapshot>,
                   ghost start: Blocks, ghost published: seq<Block>, peers: seq<Block>,
                   ghost contents: seq<seq<seq<byte>>>)
    requires Team(procs, machine) && machine.obliging && |contents| == |was| == |procs|
             && bs == Baselines(was, contents)
    requires Exporting(Snapshots(procs), machine.blocks, start, bs, Pids(procs), published, |bs|)
    requires AllExported(Snapshots(procs), machine.blocks, bs, Pids(procs), published)
    requires |peers| == |procs| && forall w | 0 <= w < |procs| ::
             peers[w] == PeerBlock(published, w) && Fits(Snapshots(procs), w)
    modifies procs
    ensures Healthy(Snapshots(procs), machine.blocks, contents) && AllReturned(Snapshots(procs), bs, start)
  {
    ghost var mid := Snapshots(procs);
    var remote := StartServers(procs, machine);
    ImportAll(procs, machine, bs, published, peers, remote);
    BackToStart(was, mid, Snapshots(procs), machine.blocks, start, bs, Pids(procs), published, peers, remote, contents);
  }

  lemma {:induction false} ReadyForAll(was: seq<Snapshot>, mid: seq<Snapshot>, blocks: Blocks, start: Blocks,
                                       bs: seq<Baseline>, pids: seq<nat>, published: seq<Block>,
                                       contents: seq<seq<seq<byte>>>)
    requires Healthy(was, start, contents) && bs == Baselines(was, contents)
    requires Exporting(mid, blocks, start, bs, pids, published, |bs|)
    ensures AllExported(mid, blocks, bs, pids, published)
    ensures forall w | 0 <= w < |mid| :: Fits(mid, w)
  {
    forall w | 0 <= w < |bs|
      ensures Republished(mid[w], blocks, bs[w]) && Published(published[w], pids[w], mid[w].exports)
              && Kept(mid[w], bs[w])
      ensures |mid[w].exports| <= MAX_EXPORTS
    {
      assert ExportedAt(mid, blocks, start, bs, pids, published, w);
      assert |was[w].exports| <= MAX_EXPORTS;
    }
    forall w | 0 <= w < |mid|
      ensures Fits(mid, w)
    {
      SharesImpliesFits(was, mid, bs, contents, w);
    }
  }

  lemma {:induction false} BackToStart(was: seq<Snapshot>, mid: seq<Snapshot>, states: seq<Snapshot>, blocks: Blocks,
                                       start: Blocks, bs: seq<Baseline>, pids: seq<nat>, published: seq<Block>,
                                       peers: seq<Block>, remote: Servers, contents: seq<seq<seq<byte>>>)
    requires |contents| == |was| && bs == Baselines(was, contents)
    requires Exporting(mid, blocks, start, bs, pids, published, |bs|)
             && AllExported(mid, blocks, bs, pids, published) && ServersOf(remote, mid, pids)
    requires Importing(states, mid, blocks, bs, peers, remote, |bs|)
    requires forall w | 0 <= w < |bs| :: peers[w] == PeerBlock(published, w) && Fits(mid, w)
    ensures Healthy(states, blocks, contents) && AllReturned(states, bs, start)
  {
    forall w | 0 <= w < |bs|
      ensures IsUp(states[w], blocks, contents[w]) && Returned(states[w], bs[w], start) && SharesPrefix(states, w)
      ensures |states[w].exports| <= MAX_EXPORTS
    {
      assert ExportedAt(mid, blocks, start, bs, pids, published, w);
      assert Imported(states[w], mid[w], blocks, bs[w], peers[w], remote);
      UpAgain(states[w], mid[w], blocks, bs[w], peers[w], remote, start);
      SharesAgain(states, mid, blocks, bs, pids, published, peers, remote, w);
    }
    forall v, w | 0 <= v < w < |bs|
      ensures Apart(states[v], states[w])
    {
      assert ExportedAt(mid, blocks, start, bs, pids, published, v)
             && ExportedAt(mid, blocks, start, bs, pids, published, w);
      assert Imported(states[v], mid[v], blocks, bs[v], peers[v], remote)
             && Imported(states[w], mid[w], blocks, bs[w], peers[w], remote);
      StillApart(mid[v], mid[w], states[v], states[w]);
    }
  }

  /** All records are the first ones, and so is what the tables are good for; `owned` says whether the
      applications' handles lead to the memory behind their addresses. */
  ghost predicate AllKept(states: seq<Snapshot>, first: seq<Baseline>, owned: bool) {
    && |states| == |first|
    && forall w | 0 <= w < |states| :: StillKept(states[w], first[w], owned)
  }

  ghost predicate StillKept(s: Snapshot, first: Baseline, owned: bool) {
    && Kept(s, first) && (first.keyed ==> KeyedNow(s))
    && (first.traceable ==> Traceable(s.exports, s.view))
    && (first.traceable && owned ==> Owned(s.exports, s.view, s.alias) && Exclusive(s.exports))
  }

  lemma {:induction false} KeptOnce(states: seq<Snapshot>, bs: seq<Baseline>, start: Blocks, was: seq<Snapshot>,
                                    contents: seq<seq<seq<byte>>>, first: seq<Baseline>, owned: bool)
    requires |contents| == |was| && bs == Baselines(was, contents) && AllReturned(states, bs, start)
    requires AllKept(was, first, owned)
    ensures AllKept(states, first, true)
  {
    forall w | 0 <= w < |states|
      ensures StillKept(states[w], first[w], true)
    {
      assert StillKept(was[w], first[w], owned) && Returned(states[w], bs[w], start);
      if first[w].traceable {
        OwnedIsTraceable(states[w].exports, states[w].view, states[w].alias);
        OwnBlocksExclusive(states[w].exports, states[w].view, states[w].alias, start);
      }
    }
  }

  lemma {:induction false} KeptAtFirst(states: seq<Snapshot>, contents: seq<seq<seq<byte>>>)
    requires |contents| == |states|
    ensures AllKept(states, Baselines(states, contents), false)
  {
  }

  /** Any number of cycles. From the first one on, every traceable worker's application handles lead to the
      memory behind their addresses. */
  method Cycles(procs: seq<Process>, machine: Machine, n: nat, ghost contents: seq<seq<seq<byte>>>)
    requires Team(procs, machine) && machine.obliging && Healthy(Snapshots(procs), machine.blocks, contents)
    modifies procs, machine
    ensures Healthy(Snapshots(procs), machine.blocks, contents)
    ensures AllKept(Snapshots(procs), Baselines(old(Snapshots(procs)), contents), n > 0)
    ensures AllSameRights(Snapshots(procs), old(Snapshots(procs)))
  {
    ghost var first := Baselines(Snapshots(procs), contents);
    KeptAtFirst(Snapshots(procs), contents);
    for k := 0 to n
      invariant Healthy(Snapshots(procs), machine.blocks, contents)
      invariant AllKept(Snapshots(procs), first, k > 0)
      invariant AllSameRights(Snapshots(procs), old(Snapshots(procs)))
    {
      ghost var was, start := Snapshots(procs), machine.blocks;
      Cycle(procs, machine, contents);
      KeptOnce(Snapshots(procs), Baselines(was, contents), start, was, contents, first, k > 0);
      RightsStay(Snapshots(procs), was, old(Snapshots(procs)));
    }
  }
}

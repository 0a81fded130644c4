/** What the application does between checkpoints, and what a teardown and rebuild make of it
    (src/ipc_hooks.cpp): releasing the handle of an export, and unmapping an import. */
module Lifetime {
  import opened Wrappers
  import opened Layout
  import opened Fabric
  import opened ExportLayout
  import opened IpcProcess
  import opened Exchange
  import opened IpcExport
  import opened IpcImport
  import opened Cluster
  import opened IpcHooks
  import opened HookRuns
  import AccessLog

  // ----- releasing an exported handle after any number of cycles -----

  /** After any positive number of cycles of the whole machine, releasing the handle an application got for
      an export, possibly many handles ago, releases exactly the one that keeps the memory behind its
      address; no table mentions either handle afterwards; and a second release reaches nothing. */
  method ReleaseAfterCycles(procs: seq<Process>, machine: Machine, n: nat, w: nat, i: nat,
                            ghost contents: seq<seq<seq<byte>>>)
    returns (ok: bool, again: bool, ghost before: View, ghost reached: nat)
    requires Team(procs, machine) && machine.obliging && Healthy(Snapshots(procs), machine.blocks, contents) && n > 0
    requires w < |procs| && i < |procs[w].exports|
    requires Traceable(procs[w].exports, procs[w].view)
    requires Keyed(procs[w].view, procs[w].created, procs[w].handleToVa)
    modifies procs, machine
    ensures ok && !again
    ensures var a := old(procs[w].exports)[i].alloc;
            && reached in before.handles && a.va in before.mapped
               && before.handles[reached] == before.mapped[a.va].block
            && procs[w].view == before.Release(reached)
            && Forgotten(procs[w], reached) && Forgotten(procs[w], a.app)
  {
    ghost var first := Baselines(Snapshots(procs), contents);
    Cycles(procs, machine, n, contents);
    AfterCycles(Snapshots(procs), machine.blocks, contents, first, w);
    before, reached := procs[w].view, procs[w].exports[i].handle;
    assert OwnedOne(procs[w].exports[i], procs[w].view, procs[w].alias);
    ok, again := ReleaseTwice(procs[w], i);
  }

  /** And releasing every export of a worker, each by the handle the application got for it, releases exactly
      the handles that keep their memory. */
  method ReleaseAllAfterCycles(procs: seq<Process>, machine: Machine, n: nat, w: nat,
                               ghost contents: seq<seq<seq<byte>>>) returns (ok: bool, ghost before: Snapshot)
    requires Team(procs, machine) && machine.obliging && Healthy(Snapshots(procs), machine.blocks, contents) && n > 0
    requires w < |procs| && Traceable(procs[w].exports, procs[w].view)
    requires Keyed(procs[w].view, procs[w].created, procs[w].handleToVa)
    modifies procs, machine
    ensures ok && SameAllocs(before.exports, old(procs[w].exports)) && Owned(before.exports, before.view, before.alias)
    ensures procs[w].view == before.view.(handles := before.view.handles - (set e | e in before.exports :: e.handle))
  {
    ghost var first := Baselines(Snapshots(procs), contents);
    Cycles(procs, machine, n, contents);
    AfterCycles(Snapshots(procs), machine.blocks, contents, first, w);
    before := procs[w].Now();
    ok := ReleaseEvery(procs[w]);
  }

  lemma {:induction false} AfterCycles(states: seq<Snapshot>, blocks: Blocks, contents: seq<seq<seq<byte>>>,
                                       first: seq<Baseline>, w: nat)
    requires Healthy(states, blocks, contents) && AllKept(states, first, true) && w < |states|
    requires first[w].traceable && first[w].keyed
    ensures var s := states[w];
            && Owned(s.exports, s.view, s.alias) && Exclusive(s.exports) && s.view.Valid(blocks)
            && TablesOk(s.view, s.exports, s.created, s.handleToVa) && SameAllocs(s.exports, first[w].exports)
  {
    assert StillKept(states[w], first[w], true) && IsUp(states[w], blocks, contents[w]);
    TablesAgain(states[w].view, blocks, states[w].exports, states[w].created, states[w].handleToVa, contents[w]);
  }

  // ----- unmapping an import before a checkpoint -----

  /** Everything the process imports is up, at different addresses, and the tables know where. */
  ghost predicate ImportsUp(p: Process)
    reads p
  {
    && (forall i | 0 <= i < |p.imports| :: ImportUp(p.imports[i], p.view))
    && (forall i, j | 0 <= i < j < |p.imports| :: p.imports[i].va != p.imports[j].va)
    && (forall i | 0 <= i < |p.imports| :: p.imports[i].va in p.vaToImport && p.vaToImport[p.imports[i].va] == i)
  }

  /** Any run of hooked calls that leaves no import unmapped gets there. */
  lemma {:induction false} CallsLeaveImportsUp(p: Process)
    requires Good(p) && forall i | 0 <= i < |p.imports| :: !p.imports[i].tornDown
    ensures ImportsUp(p)
  {
    LiveAreApart(p.imports, p.view, p.vaToImport);
  }

  /** The application unmaps import m, and a teardown follows: afterwards it looks like all the others. */
  method UnmapAndTeardown(p: Process, m: nat)
    requires Tables(p) && p.machine.obliging && ImportsUp(p) && m < |p.imports|
    modifies p`view, p`imports
    ensures p.view.Valid(p.machine.blocks) && |p.imports| == |old(p.imports)|
    ensures forall i | 0 <= i < |p.imports| ::
              && p.imports[i].tornDown && p.imports[i].va !in p.view.mapped
              && p.imports[i].va == old(p.imports)[i].va && p.imports[i].size == old(p.imports)[i].size
  {
    HookUnmap(p, p.imports[m].va);
    ghost var mid := p.view;
    p.TeardownImports();
    LessThanValid(p.view, mid, p.machine.blocks);
  }

  /** Every entry is valid and served, and as large as the import of its number, if there is one. */
  ghost predicate Suitable(block: Block, remote: Servers, imports: seq<Import>, blocks: Blocks) {
    && ServersValid(remote, blocks) && AllServed(block, remote) && (forall i | 0 <= i < |block| :: block[i].valid)
    && forall m | 0 <= m < |imports| && m < |block| :: imports[m].size <= |blocks[BlockOf(remote, block[m])]|
  }

  /** A failing run: an import the application has unmapped is mapped again by the next import phase. */
  method UnmappedImportReturns(p: Process, m: nat, block: Block, remote: Servers)
    requires Tables(p) && p.machine.obliging && ImportsUp(p) && m < |p.imports| <= |block|
    requires Suitable(block, remote, p.imports, p.machine.blocks)
    modifies p`view, p`imports
    ensures |p.imports| == |old(p.imports)| && !p.imports[m].tornDown
    ensures var va := old(p.imports)[m].va;
            va in p.view.mapped && p.view.mapped[va].block == BlockOf(remote, block[m])
  {
    UnmapAndTeardown(p, m);
    InPlaceAgain(old(p.imports), p.imports, block, remote, p.view, p.machine.blocks);
    Reimport(p, m, block, remote);
  }

  method Reimport(p: Process, m: nat, block: Block, remote: Servers)
    requires p.machine.obliging && p.view.Valid(p.machine.blocks) && ServersValid(remote, p.machine.blocks)
    requires Positional(block, remote, p.imports, p.view, p.machine.blocks) && m < |p.imports|
    modifies p`view, p`imports
    ensures |p.imports| == |old(p.imports)|
    ensures LinkedTo(old(p.imports)[m], p.imports[m], BlockOf(remote, block[m]), p.view)
  {
    var _ := ImportFromBlock(p, block, remote);
  }

  lemma {:induction false} InPlaceAgain(up: seq<Import>, down: seq<Import>, block: Block, remote: Servers, view: View,
                                        blocks: Blocks)
    requires |down| == |up| <= |block| && Suitable(block, remote, up, blocks)
    requires forall i, j | 0 <= i < j < |up| :: up[i].va != up[j].va
    requires forall i | 0 <= i < |down| ::
               down[i].tornDown && down[i].va !in view.mapped && down[i].va == up[i].va && down[i].size == up[i].size
    ensures Positional(block, remote, down, view, blocks)
  {
    forall m | 0 <= m < |down|
      ensures LinkableOne(down[m], BlockOf(remote, block[m]), view, blocks)
    {
    }
  }

  /** A failing run: when its exporter has dropped the export as well, the unmapped import takes the place of
      the one behind it, which stays down. */
  method UnmappedImportTakesPlace(p: Process, block: Block, remote: Servers)
    requires Tables(p) && p.machine.obliging && ImportsUp(p) && |p.imports| == 2 && |block| == 1
    requires Suitable(block, remote, p.imports, p.machine.blocks)
    modifies p`view, p`imports
    ensures |p.imports| == 2 && p.imports[1].tornDown && old(p.imports)[1].va !in p.view.mapped
    ensures var va := old(p.imports)[0].va;
            va in p.view.mapped && p.view.mapped[va].block == BlockOf(remote, block[0])
  {
    UnmapAndTeardown(p, 0);
    ghost var before, was := p.imports, p.view;
    ghost var ma := ImportFromBlock(p, block, remote);
    FirstTakesAll(ma, block, remote, before, p.imports, p.view, was, p.machine.blocks);
  }

  lemma {:induction false} FirstTakesAll(ma: Matching, block: Block, remote: Servers, before: seq<Import>,
                                         imports: seq<Import>, view: View, was: View, blocks: Blocks)
    requires |before| == 2 && |block| == 1 && Suitable(block, remote, before, blocks)
    requires forall i | 0 <= i < 2 :: before[i].tornDown && before[i].va !in was.mapped
    requires before[0].va != before[1].va
    requires ma.Valid(remote) && ma.block == block && ma.torn == TornList(before, 2)
    requires |ma.valid| == 1 && ma.valid[0] == 0
    requires OnTop(ma, ma.Count(), before, view, was)
    requires Matched(ma, remote, ma.Count(), before, imports, view, Linkable(ma, remote, before, was, blocks))
    ensures LinkedTo(before[0], imports[0], BlockOf(remote, block[0]), view)
    ensures imports[1] == before[1] && before[1].va !in view.mapped
  {
    TornListIs(before, 2);
    assert ma.Count() == 1 && ma.torn[0] == 0 && ma.torn[1] == 1;
    assert LinkableOne(before[0], ma.Target(remote, 0), was, blocks);
    assert Linkable(ma, remote, before, was, blocks);
    assert MatchedOne(ma, remote, 0, before, imports, view, true);
    assert ma.torn[..1] == [0];
  }
}

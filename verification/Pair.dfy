/** Two workers that share one allocation through the hooked calls are in the state the multi-worker
    cycle needs. */
module Pair {
  import opened Layout
  import opened Fabric
  import opened ExportLayout
  import opened IpcProcess
  import opened IpcHooks
  import opened Exchange
  import opened Cluster
  import opened HookRuns
  import AccessLog

  /** Sharing: worker a creates, maps and exports, worker b imports and maps, and both grant access with any calls.
      What they granted is recorded, so a cycle gives it back. */
  method Share(machine: Machine, size: nat, vaA: nat, vaB: nat, callsA: seq<seq<AccessLog.Desc>>,
               callsB: seq<seq<AccessLog.Desc>>) returns (a: Process, b: Process, ghost contents: seq<seq<seq<byte>>>)
    requires machine.obliging && size > 0 && AllGrants(callsA) && AllGrants(callsB) && callsA != []
    modifies machine
    ensures Team([a, b], machine) && Healthy(Snapshots([a, b]), machine.blocks, contents)
    ensures fresh(a) && fresh(b) && |a.exports| == 1 && a.exports[0].alloc.va == vaA && |b.imports| == 1
    ensures LogTells(a.Now(), vaA) && a.view.mapped[vaA].rights == Given(callsA)
    ensures ImportHolds(b.Now(), 0, vaB, size, a.view.mapped[vaA].block, Given(callsB))
  {
    a, b := New(machine);
    var fd := MakePair(a, b, size, vaA, vaB, callsA, callsB);
    contents := [[BytesAt(a.view, machine.blocks, vaA, size)], []];
    PairHealthy(a.Now(), b.Now(), machine.blocks, size, vaA, vaB, fd, Given(callsA), Given(callsB), contents);
    assert Snapshots([a, b]) == [a.Now(), b.Now()];
  }

  /** Sharing and then any number of cycles: both mappings have the rights their calls gave, and lead to one block. */
  method ShareAndCycle(machine: Machine, size: nat, vaA: nat, vaB: nat, callsA: seq<seq<AccessLog.Desc>>,
                       callsB: seq<seq<AccessLog.Desc>>, n: nat)
    returns (a: Process, b: Process, ghost contents: seq<seq<seq<byte>>>)
    requires machine.obliging && size > 0 && AllGrants(callsA) && AllGrants(callsB) && callsA != []
    modifies machine
    ensures Healthy(Snapshots([a, b]), machine.blocks, contents)
    ensures vaA in a.view.mapped && a.view.mapped[vaA].rights == Given(callsA)
    ensures vaB in b.view.mapped && b.view.mapped[vaB].rights == Given(callsB)
  {
    a, b, contents := Share(machine, size, vaA, vaB, callsA, callsB);
    ghost var was := Snapshots([a, b]);
    Cycles([a, b], machine, n, contents);
    RightsThen(was, Snapshots([a, b]), vaA, vaB);
  }

  lemma {:induction false} RightsThen(was: seq<Snapshot>, states: seq<Snapshot>, vaA: nat, vaB: nat)
    requires |was| == 2 && AllSameRights(states, was)
    requires |was[0].exports| == 1 && was[0].exports[0].alloc.va == vaA && LogTells(was[0], vaA)
    requires |was[1].imports| == 1 && was[1].imports[0].va == vaB && RecordTells(was[1], was[1].imports[0])
    ensures vaA in states[0].view.mapped && states[0].view.mapped[vaA].rights == was[0].view.mapped[vaA].rights
    ensures vaB in states[1].view.mapped && states[1].view.mapped[vaB].rights == was[1].view.mapped[vaB].rights
  {
    assert SameRights(states[0], was[0]) && SameRights(states[1], was[1]);
    assert SameExportRights(states[0], was[0], states[0].exports[0], was[0].exports[0]);
    assert SameImportRights(states[1], was[1], states[1].imports[0], was[1].imports[0]);
  }

  ghost predicate AllGrants(calls: seq<seq<AccessLog.Desc>>) {
    forall k | 0 <= k < |calls| :: calls[k] != []
  }

  ghost predicate IsNew(p: Process)
    reads p
  {
    && p.view == View(map[], map[], map[], {0}) && p.exports == [] && p.imports == [] && p.log == map[]
    && p.created == map[] && p.handleToVa == map[] && p.importedHandles == {}
    && p.vaToImport == map[] && p.vaToExport == map[]
  }

  ghost function Given(calls: seq<seq<AccessLog.Desc>>): AccessLog.Rights {
    AccessLog.SetAccessCalls(map[], calls)
  }

  /** Worker b gets a duplicate of the descriptor over a socket. */
  method MakePair(a: Process, b: Process, size: nat, vaA: nat, vaB: nat, callsA: seq<seq<AccessLog.Desc>>,
                  callsB: seq<seq<AccessLog.Desc>>) returns (fd: nat)
    requires IsNew(a) && IsNew(b) && a != b && a.machine == b.machine
    requires size > 0 && AllGrants(callsA) && AllGrants(callsB) && callsA != []
    modifies a, b, a.machine
    ensures Paired(a.Now(), b.Now(), a.machine.blocks, size, vaA, vaB, fd, Given(callsA), Given(callsB))
  {
    fd := ExportAndGrant(a, vaA, size, 0, callsA);
    var block := a.view.fds[fd];
    ReceiveAndImport(b, block, size, vaB, callsB);
  }

  method ReceiveAndImport(b: Process, block: nat, size: nat, va: nat, calls: seq<seq<AccessLog.Desc>>)
    requires IsNew(b) && AllGrants(calls) && block in b.machine.blocks && size <= |b.machine.blocks[block]|
    modifies b
    ensures b.view.Valid(b.machine.blocks) && |b.exports| == 0 && |b.imports| == 1
    ensures ImportHolds(b.Now(), 0, va, size, block, Given(calls))
  {
    b.view := b.view.Open(0, block);
    ImportAndGrant(b, 0, va, size, calls);
  }

  /** a has exported what b has imported. */
  ghost predicate Paired(a: Snapshot, b: Snapshot, blocks: Blocks, size: nat, vaA: nat, vaB: nat, fd: nat,
                         rightsA: AccessLog.Rights, rightsB: AccessLog.Rights) {
    && a.view.Valid(blocks) && b.view.Valid(blocks)
    && |a.imports| == 0 && |a.exports| == 1 && |b.exports| == 0 && |b.imports| == 1
    && ExportHolds(a, 0, vaA, size, 0, fd, rightsA)
    && ImportHolds(b, 0, vaB, size, a.view.mapped[vaA].block, rightsB)
  }

  method New(machine: Machine) returns (a: Process, b: Process)
    ensures fresh(a) && fresh(b) && a != b && a.machine == b.machine == machine && a.pid != b.pid
    ensures IsNew(a) && IsNew(b)
  {
    a := new Process(machine, 1);
    b := new Process(machine, 2);
  }

  lemma {:induction false} PairHealthy(a: Snapshot, b: Snapshot, blocks: Blocks, size: nat, vaA: nat, vaB: nat, fd: nat,
                                       rightsA: AccessLog.Rights, rightsB: AccessLog.Rights,
                                       contents: seq<seq<seq<byte>>>)
    requires Paired(a, b, blocks, size, vaA, vaB, fd, rightsA, rightsB)
    requires contents == [[BytesAt(a.view, blocks, vaA, size)], []]
    ensures Healthy([a, b], blocks, contents)
  {
    var both := [a, b];
    assert Counts(both)[0] == 1 && Counts(both)[1] == 0;
    assert PeersOf(both, 1) == [Origin(0, 0)] by {
      assert Origins(Counts(both), 1, 0) == [] && OriginsOf(0, 1) == [Origin(0, 0)];
      assert Origins(Counts(both), 1, 1) == [Origin(0, 0)];
    }
    assert UpOne(a.exports[0], a.view, blocks, contents[0][0]);
    assert IsUp(a, blocks, contents[0]) && IsUp(b, blocks, contents[1]);
    assert Shares(both, 1, 0, PeersOf(both, 1)[0]);
    assert SharesPrefix(both, 0) && SharesPrefix(both, 1);
  }
}

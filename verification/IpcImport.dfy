/** ipc_import_from_shm_block (src/ipc_hooks.cpp): fetch duplicates of the peers' descriptors, match
    them by position with the torn-down imports, and map those again. */
module IpcImport {
  import opened Layout
  import opened Ordered
  import opened Grouping
  import opened Fabric
  import opened ExportLayout
  import opened IpcProcess
  import opened IpcExport
  import opened Exchange
  import AccessLog

  /** The descriptors the fd servers of the other processes can hand out: by owner, then by number,
      the block each leads to. */
  type Servers = map<nat, map<nat, nat>>

  ghost predicate Served(remote: Servers, e: Entry) {
    e.pid in remote && e.fd in remote[e.pid]
  }

  ghost function BlockOf(remote: Servers, e: Entry): nat
    requires Served(remote, e)
  {
    remote[e.pid][e.fd]
  }

  ghost predicate ServersValid(remote: Servers, blocks: Blocks) {
    forall pid, fd | pid in remote && fd in remote[pid] :: remote[pid][fd] in blocks
  }

  /** peer_requests groups the valid entries by owner. */
  function Owners(block: Block): (keys: seq<Key>)
    ensures |keys| == |block|
  {
    seq(|block|, i requires 0 <= i < |block| => if block[i].valid then InGroup(block[i].pid) else Skipped)
  }

  // ----- one peer -----

  /** One request: `fds` are descriptors of the first |fds| of the members, in request order, not used
      before and all different. */
  ghost predicate Received(block: Block, members: seq<nat>, remote: Servers, fds: seq<nat>, view: View, was: View) {
    && |fds| <= |members| && view == was.(fds := view.fds)
    && (forall j | 0 <= j < |fds| :: ReceivedOne(block, members[j], remote, fds[j], view, was))
    && (forall i, j | 0 <= i < j < |fds| :: fds[i] != fds[j])
    && (forall f | f in view.fds && f !in was.fds :: f in fds)
    && SubMap(was.fds, view.fds)
  }

  /** Descriptor f is a duplicate of entry i's own descriptor. */
  ghost predicate ReceivedOne(block: Block, i: nat, remote: Servers, f: nat, view: View, was: View) {
    && i < |block| && block[i].valid && Served(remote, block[i])
    && f !in was.fds && f in view.fds && view.fds[f] == BlockOf(remote, block[i])
  }

  lemma {:induction false} ReceiveNext(block: Block, members: seq<nat>, remote: Servers, fds: seq<nat>, mid: View,
                                       was: View, f: nat)
    requires Received(block, members, remote, fds, mid, was) && |fds| < |members| && f !in mid.fds
    requires members[|fds|] < |block| && block[members[|fds|]].valid && Served(remote, block[members[|fds|]])
    ensures Received(block, members, remote, fds + [f], mid.Open(f, BlockOf(remote, block[members[|fds|]])), was)
  {
    var view := mid.Open(f, BlockOf(remote, block[members[|fds|]]));
    var more := fds + [f];
    forall j | 0 <= j < |more|
      ensures ReceivedOne(block, members[j], remote, more[j], view, was)
    {
      if j < |fds| {
        assert ReceivedOne(block, members[j], remote, fds[j], mid, was);
      }
    }
    forall i, j | 0 <= i < j < |more|
      ensures more[i] != more[j]
    {
      assert ReceivedOne(block, members[i], remote, fds[i], mid, was);
    }
    assert more[|fds|] == f;
  }

  /** The entries `members` are the valid ones of one owner. */
  ghost predicate RequestOf(block: Block, members: seq<nat>, pid: nat) {
    && (forall j | 0 <= j < |members| ::
       members[j] < |block| && block[members[j]].valid && block[members[j]].pid == pid)
    && (forall i, j | 0 <= i < j < |members| :: members[i] != members[j])
  }

  /** uds_receive_fds: duplicates in request order, perhaps fewer than asked for; nothing when the
      owner's server is not there or does not have one of them open. */
  method Fetch(p: Process, block: Block, members: seq<nat>, pid: nat, remote: Servers) returns (fds: seq<nat>)
    requires RequestOf(block, members, pid)
    modifies p`view
    ensures Received(block, members, remote, fds, p.view, old(p.view))
    ensures p.machine.obliging && (forall j | 0 <= j < |members| :: Served(remote, block[members[j]])) ==>
              |fds| == |members|
  {
    fds := [];
    if pid !in remote || exists j | 0 <= j < |members| :: block[members[j]].fd !in remote[pid] {
      assert members != [] && pid !in remote ==> !Served(remote, block[members[0]]);
      return;
    }
    for j := 0 to |members|
      invariant |fds| == j && Received(block, members, remote, fds, p.view, old(p.view))
    {
      var yes := p.machine.Accepts();
      if !yes {
        return;
      }
      var f := p.machine.NewFd(p.view);
      ReceiveNext(block, members, remote, fds, p.view, old(p.view), f);
      p.view := p.view.Open(f, remote[pid][block[members[j]].fd]);
      fds := fds + [f];
    }
  }

  // ----- all peers -----

  /** entry_to_local_fd: what has been fetched for the entries of the owners `done`. */
  ghost predicate Fetched(block: Block, remote: Servers, done: seq<nat>, local: map<nat, nat>, view: View, was: View,
                          obliging: bool) {
    && view == was.(fds := view.fds)
    && (forall i | i in local :: ReceivedOne(block, i, remote, local[i], view, was) && block[i].pid in done)
    && (forall i, j | i in local && j in local && i != j :: local[i] != local[j])
    && (forall f | f in view.fds && f !in was.fds :: f in local.Values)
    && SubMap(was.fds, view.fds)
    && (obliging && AllServed(block, remote) ==>
         forall i: nat | i < |block| && block[i].valid && block[i].pid in done :: i in local)
  }

  ghost predicate AllServed(block: Block, remote: Servers) {
    forall i | 0 <= i < |block| && block[i].valid :: Served(remote, block[i])
  }

  /** Give the descriptors received to the entries they were requested for. */
  function Scatter(local: map<nat, nat>, members: seq<nat>, fds: seq<nat>, n: nat): map<nat, nat>
    requires n <= |fds| <= |members|
  {
    if n == 0 then local else Scatter(local, members, fds, n - 1)[members[n - 1] := fds[n - 1]]
  }

  lemma {:induction false} ScatterAt(local: map<nat, nat>, members: seq<nat>, fds: seq<nat>, n: nat, i: nat)
    requires n <= |fds| <= |members|
    requires forall a, b | 0 <= a < b < |members| :: members[a] != members[b]
    ensures i in Scatter(local, members, fds, n) <==> i in local || i in members[..n]
    ensures i !in members[..n] && i in local ==> Scatter(local, members, fds, n)[i] == local[i]
    ensures forall j | 0 <= j < n && members[j] == i :: Scatter(local, members, fds, n)[i] == fds[j]
  {
    if n > 0 {
      ScatterAt(local, members, fds, n - 1, i);
      assert members[..n] == members[..n - 1] + [members[n - 1]];
    }
  }

  method ScatterInto(local: map<nat, nat>, members: seq<nat>, fds: seq<nat>) returns (local': map<nat, nat>)
    requires |fds| <= |members|
    ensures local' == Scatter(local, members, fds, |fds|)
  {
    local' := local;
    for j := 0 to |fds|
      invariant local' == Scatter(local, members, fds, j)
    {
      local' := local'[members[j] := fds[j]];
    }
  }

  /** Entry i got the descriptor received for it. */
  ghost predicate Got(i: nat, f: nat, members: seq<nat>, fds: seq<nat>) {
    exists j :: 0 <= j < |fds| && j < |members| && members[j] == i && fds[j] == f
  }

  /** Either an entry got its descriptor now, or it has the one it had. */
  ghost predicate Scattered(local: map<nat, nat>, after: map<nat, nat>, members: seq<nat>, fds: seq<nat>) {
    && (forall i | i in local :: i in after && after[i] == local[i])
    && (forall i | i in after && i !in local :: Got(i, after[i], members, fds))
    && (forall j | 0 <= j < |fds| && j < |members| :: members[j] in after && after[members[j]] == fds[j])
  }

  lemma {:induction false} ScatterApart(local: map<nat, nat>, members: seq<nat>, fds: seq<nat>)
    requires |fds| <= |members| && forall a, b | 0 <= a < b < |members| :: members[a] != members[b]
    requires forall j | 0 <= j < |members| :: members[j] !in local
    ensures Scattered(local, Scatter(local, members, fds, |fds|), members, fds)
  {
    var after := Scatter(local, members, fds, |fds|);
    forall i | i in local
      ensures i in after && after[i] == local[i]
    {
      ScatterAt(local, members, fds, |fds|, i);
    }
    forall i | i in after && i !in local
      ensures Got(i, after[i], members, fds)
    {
      ScatterAt(local, members, fds, |fds|, i);
      var j :| 0 <= j < |fds| && members[j] == i;
    }
    forall j | 0 <= j < |fds|
      ensures members[j] in after && after[members[j]] == fds[j]
    {
      ScatterAt(local, members, fds, |fds|, members[j]);
    }
  }

  /** Entries of one owner never disturb those of another. */
  lemma {:induction false} FetchedMore(block: Block, remote: Servers, done: seq<nat>, local: map<nat, nat>, mid: View,
                                       was: View, obliging: bool, pid: nat, members: seq<nat>, fds: seq<nat>,
                                       view: View)
    requires Fetched(block, remote, done, local, mid, was, obliging) && pid !in done
    requires RequestOf(block, members, pid) && Received(block, members, remote, fds, view, mid)
    requires forall i: nat | i < |block| && block[i].valid && block[i].pid == pid :: i in members
    requires obliging && AllServed(block, remote) ==> |fds| == |members|
    ensures Fetched(block, remote, done + [pid], Scatter(local, members, fds, |fds|), view, was, obliging)
  {
    var after := Scatter(local, members, fds, |fds|);
    ScatterApart(local, members, fds);
    NewOnes(block, remote, done, local, mid, was, obliging, pid, members, fds, view, after);
    Injective(block, remote, local, mid, members, fds, view, after);
    forall f | f in view.fds && f !in was.fds
      ensures f in after.Values
    {
      if f in mid.fds {
        var i :| i in local && local[i] == f;
        assert after[i] == f;
      } else {
        var j :| 0 <= j < |fds| && fds[j] == f;
        assert after[members[j]] == f;
      }
    }
    if obliging && AllServed(block, remote) {
      forall i: nat | i < |block| && block[i].valid && block[i].pid in done + [pid]
        ensures i in after
      {
        if block[i].pid == pid {
          var j :| 0 <= j < |members| && members[j] == i;
          assert after[members[j]] == fds[j];
        }
      }
    }
  }

  lemma {:induction false} NewOnes(block: Block, remote: Servers, done: seq<nat>, local: map<nat, nat>, mid: View,
                                   was: View, obliging: bool, pid: nat, members: seq<nat>, fds: seq<nat>, view: View,
                                   after: map<nat, nat>)
    requires Fetched(block, remote, done, local, mid, was, obliging)
    requires RequestOf(block, members, pid) && Received(block, members, remote, fds, view, mid)
    requires Scattered(local, after, members, fds)
    ensures forall i | i in after :: ReceivedOne(block, i, remote, after[i], view, was) && block[i].pid in done + [pid]
  {
  }

  lemma {:induction false} Injective(block: Block, remote: Servers, local: map<nat, nat>, mid: View, members: seq<nat>,
                                     fds: seq<nat>, view: View, after: map<nat, nat>)
    requires forall i, j | i in local && j in local && i != j :: local[i] != local[j]
    requires forall i | i in local :: local[i] in mid.fds
    requires Received(block, members, remote, fds, view, mid)
    requires forall i | i in local :: i in after && after[i] == local[i]
    requires forall i | i in after && i !in local :: Got(i, after[i], members, fds)
    ensures forall a, b | a in after && b in after && a != b :: after[a] != after[b]
  {
  }

  method FetchPeer(p: Process, block: Block, remote: Servers, gs: seq<nat>, k: nat, local: map<nat, nat>,
                   ghost was: View) returns (local': map<nat, nat>)
    requires StrictlyAscending(gs) && k < |gs|
    requires Fetched(block, remote, gs[..k], local, p.view, was, p.machine.obliging)
    modifies p`view
    ensures Fetched(block, remote, gs[..k + 1], local', p.view, was, p.machine.obliging)
  {
    var members := Members(Owners(block), gs[k], |block|);
    ghost var mid := p.view;
    var fds := Fetch(p, block, members, gs[k], remote);
    local' := ScatterInto(local, members, fds);
    FetchedMore(block, remote, gs[..k], local, mid, was, p.machine.obliging, gs[k], members, fds, p.view);
    assert gs[..k + 1] == gs[..k] + [gs[k]];
  }

  /** Each entry gets a duplicate of its own owner's descriptor or none; without refusals and with all
      servers up, every valid entry gets one. */
  method FetchAll(p: Process, block: Block, remote: Servers) returns (local: map<nat, nat>)
    modifies p`view
    ensures Fetched(block, remote, Ascending(Groups(Owners(block))), local, p.view, old(p.view), p.machine.obliging)
  {
    var gs := Ascending(Groups(Owners(block)));
    local := map[];
    assert gs[..0] == [];
    for k := 0 to |gs|
      invariant Fetched(block, remote, gs[..k], local, p.view, old(p.view), p.machine.obliging)
    {
      local := FetchPeer(p, block, remote, gs, k, local, old(p.view));
    }
    assert gs[..|gs|] == gs;
  }

  // ----- positional matching -----

  /** torn_imports: in creation order. */
  function TornList(imports: seq<Import>, n: nat): seq<nat>
    requires n <= |imports|
  {
    if n == 0 then [] else TornList(imports, n - 1) + (if imports[n - 1].tornDown then [n - 1] else [])
  }

  lemma {:induction false} TornListIs(imports: seq<Import>, n: nat)
    requires n <= |imports|
    ensures forall j | 0 <= j < |TornList(imports, n)| ::
            TornList(imports, n)[j] < n && imports[TornList(imports, n)[j]].tornDown
    ensures forall i, j | 0 <= i < j < |TornList(imports, n)| :: TornList(imports, n)[i] < TornList(imports, n)[j]
    ensures (forall k | 0 <= k < n :: imports[k].tornDown) ==>
              |TornList(imports, n)| == n && forall j | 0 <= j < n :: TornList(imports, n)[j] == j
  {
    if n > 0 {
      TornListIs(imports, n - 1);
    }
  }

  /** valid_exports: the entries a descriptor was fetched for, in block order. */
  function ValidList(local: map<nat, nat>, n: nat): seq<nat> {
    if n == 0 then [] else ValidList(local, n - 1) + (if n - 1 in local then [n - 1] else [])
  }

  lemma {:induction false} ValidListIs(local: map<nat, nat>, n: nat)
    ensures forall j | 0 <= j < |ValidList(local, n)| :: ValidList(local, n)[j] < n && ValidList(local, n)[j] in local
    ensures forall i, j | 0 <= i < j < |ValidList(local, n)| :: ValidList(local, n)[i] < ValidList(local, n)[j]
  {
    if n > 0 {
      ValidListIs(local, n - 1);
    }
  }

  lemma {:induction false} ValidListHas(local: map<nat, nat>, n: nat, i: nat) returns (j: nat)
    requires i < n && i in local
    ensures j < |ValidList(local, n)| && ValidList(local, n)[j] == i
  {
    if i == n - 1 {
      j := |ValidList(local, n - 1)|;
    } else {
      j := ValidListHas(local, n - 1, i);
    }
  }

  lemma {:induction false} ValidListAll(local: map<nat, nat>, n: nat)
    requires forall i: nat | i < n :: i in local
    ensures |ValidList(local, n)| == n && forall j | 0 <= j < n :: ValidList(local, n)[j] == j
  {
    if n > 0 {
      ValidListAll(local, n - 1);
    }
  }

  method ListTorn(imports: seq<Import>) returns (torn: seq<nat>)
    ensures torn == TornList(imports, |imports|)
  {
    torn := [];
    for k := 0 to |imports|
      invariant torn == TornList(imports, k)
    {
      if imports[k].tornDown {
        torn := torn + [k];
      }
    }
  }

  method ListValid(block: Block, local: map<nat, nat>) returns (valid: seq<nat>)
    requires forall i | i in local :: i < |block| && block[i].valid
    ensures valid == ValidList(local, |block|)
  {
    valid := [];
    for i := 0 to |block|
      invariant valid == ValidList(local, i)
    {
      if block[i].valid && i in local {
        valid := valid + [i];
      }
    }
  }

  /** The entries a descriptor was fetched for, in block order, their descriptors, and the imports
      they are matched with. */
  datatype Matching = Matching(block: Block, valid: seq<nat>, fds: seq<nat>, torn: seq<nat>) {
    ghost predicate Valid(remote: Servers) {
      && |fds| == |valid|
      && (forall j | 0 <= j < |valid| :: valid[j] < |block| && Served(remote, block[valid[j]]))
      && (forall i, j | 0 <= i < j < |fds| :: fds[i] != fds[j])
      && (forall i, j | 0 <= i < j < |torn| :: torn[i] < torn[j])
    }

    function Count(): nat {
      Min(|valid|, |torn|)
    }

    /** The block import torn[j] is to be mapped to. */
    ghost function Target(remote: Servers, j: nat): nat
      requires Valid(remote) && j < |valid|
    {
      BlockOf(remote, block[valid[j]])
    }
  }

  /** The descriptors from position m on are still to be closed, and no others. */
  ghost predicate StillOpen(ma: Matching, remote: Servers, m: nat, view: View, was: View) {
    && ma.Valid(remote) && m <= |ma.fds| && SubMap(was.fds, view.fds)
    && (forall j | m <= j < |ma.fds| ::
       ma.fds[j] in view.fds && ma.fds[j] !in was.fds && view.fds[ma.fds[j]] == ma.Target(remote, j))
    && (forall f | f in view.fds && f !in was.fds :: exists j :: m <= j < |ma.fds| && ma.fds[j] == f)
  }

  lemma {:induction false} ClosedOne(ma: Matching, remote: Servers, m: nat, view: View, was: View, after: View)
    requires StillOpen(ma, remote, m, view, was) && m < |ma.fds| && after.fds == view.fds - {ma.fds[m]}
    ensures StillOpen(ma, remote, m + 1, after, was)
  {
  }

  lemma {:induction false} AllClosed(ma: Matching, remote: Servers, view: View, was: View)
    requires StillOpen(ma, remote, |ma.fds|, view, was)
    ensures view.fds == was.fds
  {
  }

  /** The import is mapped again, to block b, with its recorded rights. */
  ghost predicate LinkedTo(before: Import, after: Import, b: nat, view: View) {
    && after == before.(handle := after.handle, tornDown := false)
    && after.handle in view.handles && view.handles[after.handle] == b
    && before.va in view.mapped
       && view.mapped[before.va] == Window(b, before.size, AccessLog.SetAccess(map[], before.access))
  }

  /** Every torn import that has a match can be mapped: its address is free, no other import has it,
      and the block is large enough. */
  ghost predicate Linkable(ma: Matching, remote: Servers, before: seq<Import>, view: View, blocks: Blocks) {
    && ma.Valid(remote) && (forall j | 0 <= j < |ma.torn| :: ma.torn[j] < |before|)
    && (forall i, j | 0 <= i < j < |ma.torn| :: before[ma.torn[i]].va != before[ma.torn[j]].va)
    && forall j | 0 <= j < ma.Count() :: LinkableOne(before[ma.torn[j]], ma.Target(remote, j), view, blocks)
  }

  ghost predicate LinkableOne(r: Import, b: nat, view: View, blocks: Blocks) {
    r.va !in view.mapped && b in blocks && r.size <= |blocks[b]|
  }

  /** The imports after the first m matches. */
  ghost predicate Matched(ma: Matching, remote: Servers, m: nat, before: seq<Import>, imports: seq<Import>, view: View,
                          must: bool) {
    && ma.Valid(remote) && m <= ma.Count() && |imports| == |before|
       && (forall j | 0 <= j < |ma.torn| :: ma.torn[j] < |before|)
    && (forall j | 0 <= j < m :: MatchedOne(ma, remote, j, before, imports, view, must))
    && (forall k | 0 <= k < |before| && k !in ma.torn[..m] :: imports[k] == before[k])
  }

  ghost predicate MatchedOne(ma: Matching, remote: Servers, j: nat, before: seq<Import>, imports: seq<Import>,
                             view: View, must: bool)
    requires ma.Valid(remote) && j < ma.Count() && |imports| == |before| && ma.torn[j] < |before|
  {
    var k := ma.torn[j];
    || LinkedTo(before[k], imports[k], ma.Target(remote, j), view)
    || (!must && imports[k] == before[k])
  }

  lemma {:induction false} MatchNext(ma: Matching, remote: Servers, m: nat, before: seq<Import>, mid: seq<Import>,
                                     midView: View, must: bool, after: Import, view: View)
    requires Matched(ma, remote, m, before, mid, midView, must) && m < ma.Count()
    requires SubMap(midView.handles, view.handles) && SubMap(midView.mapped, view.mapped)
    requires LinkedTo(before[ma.torn[m]], after, ma.Target(remote, m), view) || (!must && after == before[ma.torn[m]])
    ensures Matched(ma, remote, m + 1, before, mid[ma.torn[m] := after], view, must)
  {
    var imports := mid[ma.torn[m] := after];
    assert ma.torn[..m + 1] == ma.torn[..m] + [ma.torn[m]];
    forall j | 0 <= j < m + 1
      ensures MatchedOne(ma, remote, j, before, imports, view, must)
    {
      if j < m {
        assert MatchedOne(ma, remote, j, before, mid, midView, must);
      }
    }
  }

  /** Handles and mappings only come on top, and mappings only at addresses of imports matched so far. */
  ghost predicate OnTop(ma: Matching, m: nat, before: seq<Import>, view: View, was: View) {
    && m <= |ma.torn| && (forall j | 0 <= j < |ma.torn| :: ma.torn[j] < |before|)
    && SubMap(was.handles, view.handles) && SubMap(was.mapped, view.mapped)
    && was.issued <= view.issued && NewHandlesOnly(view, was)
    && (forall va | va in view.mapped && va !in was.mapped :: exists j :: 0 <= j < m && before[ma.torn[j]].va == va)
  }

  /** What one match does to the process. */
  ghost predicate MatchStep(r: Import, after: Import, b: nat, fd: nat, mid: View, view: View, blocks: Blocks,
                            obliging: bool) {
    && view.fds == mid.fds - {fd}
    && SubMap(mid.handles, view.handles) && mid.issued <= view.issued && NewHandlesOnly(view, mid)
    && (if after == r then view.mapped == mid.mapped && view.handles == mid.handles
        else LinkedTo(r, after, b, view) && r.va !in mid.mapped && view.mapped == mid.mapped[r.va := view.mapped[r.va]]
             && view.handles == mid.handles[after.handle := b])
    && (obliging && LinkableOne(r, b, mid, blocks) ==> LinkedTo(r, after, b, view))
  }

  /** close. A descriptor must be open: closing it twice would be an error. */
  method CloseFd(p: Process, fd: nat)
    requires fd in p.view.fds
    modifies p`view
    ensures p.view == old(p.view).Close(fd)
  {
    p.view := p.view.Close(fd);
  }

  /** Import one descriptor and map it where import r was; the descriptor is closed in any case, and a
      refused mapping gives the new handle back. */
  method LinkOne(p: Process, fd: nat, r: Import) returns (after: Import)
    requires p.view.Valid(p.machine.blocks) && fd in p.view.fds && r.tornDown
    modifies p`view
    ensures p.view.Valid(p.machine.blocks)
    ensures MatchStep(r, after, old(p.view).fds[fd], fd, old(p.view), p.view, p.machine.blocks, p.machine.obliging)
  {
    after := r;
    var b := p.view.fds[fd];
    var imported := p.machine.Accepts();
    var h := p.machine.NewHandle(p.view);
    CloseFd(p, fd);
    if !imported {
      return;
    }
    p.view := p.view.Create(h, b);
    var yes := p.machine.Accepts();
    if !yes || r.va in p.view.mapped || r.size > |p.machine.blocks[b]| {
      p.view := p.view.Release(h);
      assert p.view.handles == old(p.view).handles;
      return;
    }
    p.view := p.view.Map(r.va, h, r.size).Grant(r.va, AccessLog.ImportGrant(r.access));
    assert p.view.mapped == old(p.view).mapped[r.va := Window(b, r.size, AccessLog.ImportGrant(r.access))];
    after := r.(handle := h, tornDown := false);
  }

  /** Every handle that is new is that of a linked import: a refused one leaves none behind. */
  ghost predicate NoneStray(before: seq<Import>, imports: seq<Import>, view: View, was: View) {
    && |imports| == |before|
    && forall h | h in view.handles && h !in was.handles :: LinkedBy(before, imports, h)
  }

  ghost predicate LinkedBy(before: seq<Import>, imports: seq<Import>, h: nat) {
    exists i :: 0 <= i < |imports| && i < |before| && imports[i] != before[i] && imports[i].handle == h
  }

  lemma {:induction false} StillNoneStray(before: seq<Import>, mid: seq<Import>, midView: View, was: View, k: nat,
                                          after: Import, view: View)
    requires NoneStray(before, mid, midView, was) && k < |mid| && mid[k] == before[k]
    requires after == before[k] ==> view.handles == midView.handles
    requires after != before[k] ==> view.handles.Keys <= midView.handles.Keys + {after.handle}
    ensures NoneStray(before, mid[k := after], view, was)
  {
    var imports := mid[k := after];
    forall h | h in view.handles && h !in was.handles
      ensures LinkedBy(before, imports, h)
    {
      if h in midView.handles {
        assert LinkedBy(before, mid, h);
        var i :| 0 <= i < |mid| && mid[i] != before[i] && mid[i].handle == h;
        assert imports[i] == mid[i];
      } else {
        assert imports[k].handle == h;
      }
    }
  }

  /** The state between two matches. */
  ghost predicate Midway(ma: Matching, remote: Servers, m: nat, before: seq<Import>, imports: seq<Import>, view: View,
                         was: View, blocks: Blocks, obliging: bool) {
    && view.Valid(blocks) && StillOpen(ma, remote, m, view, was)
    && Matched(ma, remote, m, before, imports, view, obliging && Linkable(ma, remote, before, was, blocks))
    && OnTop(ma, m, before, view, was) && NoneStray(before, imports, view, was)
  }

  lemma {:induction false} MidwayNext(ma: Matching, remote: Servers, m: nat, before: seq<Import>, imports: seq<Import>,
                                      mid: View, was: View, blocks: Blocks, obliging: bool, after: Import, view: View)
    requires Midway(ma, remote, m, before, imports, mid, was, blocks, obliging) && m < ma.Count()
    requires view.Valid(blocks)
    requires MatchStep(imports[ma.torn[m]], after, ma.Target(remote, m), ma.fds[m], mid, view, blocks, obliging)
    ensures Midway(ma, remote, m + 1, before, imports[ma.torn[m] := after], view, was, blocks, obliging)
  {
    var k := ma.torn[m];
    assert imports[k] == before[k];
    ClosedOne(ma, remote, m, mid, was, view);
    OnTopNext(ma, m, before, mid, was, after, ma.Target(remote, m), view, blocks, obliging);
    StillNoneStray(before, imports, mid, was, k, after, view);
    if obliging && Linkable(ma, remote, before, was, blocks) {
      StillLinkable(ma, remote, m, before, mid, was, blocks);
    }
    MatchNext(ma, remote, m, before, imports, mid, obliging && Linkable(ma, remote, before, was, blocks), after, view);
  }

  lemma {:induction false} OnTopNext(ma: Matching, m: nat, before: seq<Import>, mid: View, was: View, after: Import,
                                     b: nat, view: View, blocks: Blocks, obliging: bool)
    requires OnTop(ma, m, before, mid, was) && m < |ma.torn| && m < |ma.fds|
    requires MatchStep(before[ma.torn[m]], after, b, ma.fds[m], mid, view, blocks, obliging)
    ensures OnTop(ma, m + 1, before, view, was)
  {
  }

  lemma {:induction false} StillLinkable(ma: Matching, remote: Servers, m: nat, before: seq<Import>, mid: View,
                                         was: View, blocks: Blocks)
    requires OnTop(ma, m, before, mid, was) && m < ma.Count() && Linkable(ma, remote, before, was, blocks)
    ensures LinkableOne(before[ma.torn[m]], ma.Target(remote, m), mid, blocks)
  {
  }

  method MatchOne(p: Process, ma: Matching, ghost remote: Servers, m: nat, ghost before: seq<Import>, ghost was: View)
    requires m < ma.Count()
             && Midway(ma, remote, m, before, p.imports, p.view, was, p.machine.blocks, p.machine.obliging)
    requires before[ma.torn[m]].tornDown
    modifies p`view, p`imports
    ensures Midway(ma, remote, m + 1, before, p.imports, p.view, was, p.machine.blocks, p.machine.obliging)
  {
    var k := ma.torn[m];
    assert k !in ma.torn[..m];
    ghost var mid := p.view;
    var after := LinkOne(p, ma.fds[m], p.imports[k]);
    MidwayNext(ma, remote, m, before, p.imports, mid, was, p.machine.blocks, p.machine.obliging, after, p.view);
    p.imports := p.imports[k := after];
  }

  /** The matching that follows from what was fetched. */
  ghost predicate IsMatching(ma: Matching, block: Block, local: map<nat, nat>, imports: seq<Import>) {
    && ma.block == block && ma.valid == ValidList(local, |block|) && ma.torn == TornList(imports, |imports|)
    && |ma.fds| == |ma.valid| && forall j | 0 <= j < |ma.fds| :: ma.valid[j] in local && ma.fds[j] == local[ma.valid[j]]
  }

  /** Everything fetched is listed, and nothing else is open. */
  ghost predicate Held(ma: Matching, remote: Servers, view: View, was: View) {
    && |ma.fds| == |ma.valid| && view == was.(fds := view.fds) && SubMap(was.fds, view.fds)
    && (forall i, j | 0 <= i < j < |ma.fds| :: ma.fds[i] != ma.fds[j])
    && (forall j | 0 <= j < |ma.fds| :: ReceivedOne(ma.block, ma.valid[j], remote, ma.fds[j], view, was))
    && (forall f | f in view.fds && f !in was.fds :: HasFd(ma, f))
  }

  lemma {:induction false} AtStart(ma: Matching, remote: Servers, imports: seq<Import>, view: View, was: View,
                                   blocks: Blocks, obliging: bool)
    requires Held(ma, remote, view, was) && ma.torn == TornList(imports, |imports|)
    requires was.Valid(blocks) && ServersValid(remote, blocks)
    ensures Midway(ma, remote, 0, imports, imports, view, was, blocks, obliging)
  {
    TornListIs(imports, |imports|);
    AllStillOpen(ma, remote, view, was, blocks);
  }

  lemma {:induction false} AllReceived(ma: Matching, block: Block, remote: Servers, done: seq<nat>,
                                       local: map<nat, nat>, imports: seq<Import>, view: View, was: View,
                                       obliging: bool)
    requires Fetched(block, remote, done, local, view, was, obliging) && IsMatching(ma, block, local, imports)
    ensures forall j | 0 <= j < |ma.fds| :: ReceivedOne(block, ma.valid[j], remote, ma.fds[j], view, was)
    ensures forall f | f in view.fds && f !in was.fds :: HasFd(ma, f)
  {
    forall f | f in view.fds && f !in was.fds
      ensures HasFd(ma, f)
    {
      Accounted(ma, block, remote, done, local, imports, view, was, obliging, f);
    }
  }

  ghost predicate HasFd(ma: Matching, f: nat) {
    exists j :: 0 <= j < |ma.fds| && ma.fds[j] == f
  }

  lemma {:induction false} AllStillOpen(ma: Matching, remote: Servers, view: View, was: View, blocks: Blocks)
    requires Held(ma, remote, view, was) && forall i, j | 0 <= i < j < |ma.torn| :: ma.torn[i] < ma.torn[j]
    requires was.Valid(blocks) && ServersValid(remote, blocks)
    ensures StillOpen(ma, remote, 0, view, was) && view.Valid(blocks)
  {
    forall j | 0 <= j < |ma.valid|
      ensures ma.valid[j] < |ma.block| && Served(remote, ma.block[ma.valid[j]])
      ensures ma.fds[j] in view.fds && ma.fds[j] !in was.fds
              && view.fds[ma.fds[j]] == BlockOf(remote, ma.block[ma.valid[j]])
      ensures view.fds[ma.fds[j]] in blocks
    {
      assert ReceivedOne(ma.block, ma.valid[j], remote, ma.fds[j], view, was);
    }
    forall f | f in view.fds
      ensures view.fds[f] in blocks
    {
      if f !in was.fds {
        var j :| 0 <= j < |ma.fds| && ma.fds[j] == f;
      }
    }
  }

  lemma {:induction false} Distinct(ma: Matching, block: Block, local: map<nat, nat>, imports: seq<Import>)
    requires IsMatching(ma, block, local, imports) && forall i, j | i in local && j in local && i != j ::
             local[i] != local[j]
    ensures forall i, j | 0 <= i < j < |ma.fds| :: ma.fds[i] != ma.fds[j]
  {
    ValidListIs(local, |block|);
  }

  lemma {:induction false} Accounted(ma: Matching, block: Block, remote: Servers, done: seq<nat>, local: map<nat, nat>,
                                     imports: seq<Import>, view: View, was: View, obliging: bool, f: nat)
    requires Fetched(block, remote, done, local, view, was, obliging) && IsMatching(ma, block, local, imports)
    requires f in view.fds && f !in was.fds
    ensures exists j :: 0 <= j < |ma.fds| && ma.fds[j] == f && ReceivedOne(block, ma.valid[j], remote, f, view, was)
  {
    var i :| i in local && local[i] == f;
    var j := ValidListHas(local, |block|, i);
    assert ma.fds[j] == f;
  }

  lemma {:induction false} EveryOwnerVisited(block: Block)
    requires forall i | 0 <= i < |block| :: block[i].valid
    ensures forall i | 0 <= i < |block| :: block[i].pid in Ascending(Groups(Owners(block)))
  {
    forall i | 0 <= i < |block|
      ensures block[i].pid in Groups(Owners(block))
    {
      assert Owners(block)[i] == InGroup(block[i].pid);
    }
  }

  /** Which entries take part: without refusals and with all servers up, all of them. */
  lemma {:induction false} AllTakePart(ma: Matching, block: Block, remote: Servers, done: seq<nat>,
                                       local: map<nat, nat>, imports: seq<Import>, view: View, was: View)
    requires Fetched(block, remote, done, local, view, was, true) && IsMatching(ma, block, local, imports)
    requires AllServed(block, remote) && forall i | 0 <= i < |block| :: block[i].valid && block[i].pid in done
    ensures |ma.valid| == |block| && forall j | 0 <= j < |block| :: ma.valid[j] == j
  {
    ValidListAll(local, |block|);
  }

  method MatchFetched(p: Process, ma: Matching, ghost remote: Servers, ghost was: View)
    requires Held(ma, remote, p.view, was) && ma.torn == TornList(p.imports, |p.imports|)
    requires was.Valid(p.machine.blocks) && ServersValid(remote, p.machine.blocks)
    modifies p`view, p`imports
    ensures Midway(ma, remote, ma.Count(), old(p.imports), p.imports, p.view, was, p.machine.blocks, p.machine.obliging)
  {
    AtStart(ma, remote, p.imports, p.view, was, p.machine.blocks, p.machine.obliging);
    TornListIs(p.imports, |p.imports|);
    MatchAll(p, ma, remote, was);
  }

  method MatchAll(p: Process, ma: Matching, ghost remote: Servers, ghost was: View)
    requires Midway(ma, remote, 0, p.imports, p.imports, p.view, was, p.machine.blocks, p.machine.obliging)
    requires forall j | 0 <= j < |ma.torn| :: p.imports[ma.torn[j]].tornDown
    modifies p`view, p`imports
    ensures Midway(ma, remote, ma.Count(), old(p.imports), p.imports, p.view, was, p.machine.blocks, p.machine.obliging)
  {
    for m := 0 to ma.Count()
      invariant Midway(ma, remote, m, old(p.imports), p.imports, p.view, was, p.machine.blocks, p.machine.obliging)
    {
      MatchOne(p, ma, remote, m, old(p.imports), was);
    }
  }

  /** Close the descriptors nothing was matched with. */
  method CloseRest(p: Process, ma: Matching, ghost remote: Servers, ghost was: View)
    requires StillOpen(ma, remote, ma.Count(), p.view, was)
    modifies p`view
    ensures p.view == old(p.view).(fds := was.fds)
  {
    for m := ma.Count() to |ma.fds|
      invariant StillOpen(ma, remote, m, p.view, was) && p.view == old(p.view).(fds := p.view.fds)
    {
      ClosedOne(ma, remote, m, p.view, was, p.view.Close(ma.fds[m]));
      CloseFd(p, ma.fds[m]);
    }
    AllClosed(ma, remote, p.view, was);
  }

  /** All entries are valid and served, and there are enough of them for the imports, which are all
      down and can be mapped to the blocks at their positions. */
  ghost predicate Positional(block: Block, remote: Servers, imports: seq<Import>, view: View, blocks: Blocks) {
    && AllServed(block, remote) && (forall i | 0 <= i < |block| :: block[i].valid)
    && |imports| <= |block|
    && (forall i | 0 <= i < |imports| :: imports[i].tornDown)
    && (forall i, j | 0 <= i < j < |imports| :: imports[i].va != imports[j].va)
    && forall m | 0 <= m < |imports| :: LinkableOne(imports[m], BlockOf(remote, block[m]), view, blocks)
  }

  lemma {:induction false} InPosition(ma: Matching, block: Block, remote: Servers, before: seq<Import>,
                                      imports: seq<Import>, view: View, was: View, blocks: Blocks)
    requires Positional(block, remote, before, was, blocks)
    requires ma.block == block && ma.torn == TornList(before, |before|) && ma.Valid(remote)
    requires |ma.valid| == |block| && forall j | 0 <= j < |block| :: ma.valid[j] == j
    requires Matched(ma, remote, ma.Count(), before, imports, view, Linkable(ma, remote, before, was, blocks))
    ensures Relinked(block, remote, before, imports, view)
  {
    TornListIs(before, |before|);
    forall j | 0 <= j < ma.Count()
      ensures LinkableOne(before[ma.torn[j]], ma.Target(remote, j), was, blocks)
    {
      assert ma.torn[j] == j && ma.valid[j] == j;
    }
    assert Linkable(ma, remote, before, was, blocks);
    forall m | 0 <= m < |before|
      ensures LinkedTo(before[m], imports[m], BlockOf(remote, block[m]), view)
    {
      assert MatchedOne(ma, remote, m, before, imports, view, true);
    }
  }

  /** Import m is mapped to the block entry m leads to. */
  ghost predicate Relinked(block: Block, remote: Servers, before: seq<Import>, imports: seq<Import>, view: View) {
    && |imports| == |before| <= |block|
    && forall m | 0 <= m < |before| ::
       Served(remote, block[m]) && LinkedTo(before[m], imports[m], BlockOf(remote, block[m]), view)
  }

  /** For every outcome, short fetches, refused imports and different counts included: each received
      descriptor has been closed exactly once, each import is as it was or mapped to the block of the
      entry matched with it, and nothing that was mapped has changed. */
  method ImportFromBlock(p: Process, block: Block, remote: Servers) returns (ghost ma: Matching)
    requires p.view.Valid(p.machine.blocks) && ServersValid(remote, p.machine.blocks)
    modifies p`view, p`imports
    ensures p.view.Valid(p.machine.blocks) && p.view.fds == old(p.view).fds
    ensures ma.Valid(remote) && ma.block == block && ma.torn == TornList(old(p.imports), |old(p.imports)|)
    ensures StrictlyAscending(ma.valid)
    ensures OnTop(ma, ma.Count(), old(p.imports), p.view, old(p.view))
    ensures NoneStray(old(p.imports), p.imports, p.view, old(p.view))
    ensures Matched(ma, remote, ma.Count(), old(p.imports), p.imports, p.view,
                    p.machine.obliging && Linkable(ma, remote, old(p.imports), old(p.view), p.machine.blocks))
    ensures p.machine.obliging && AllServed(block, remote) && (forall i | 0 <= i < |block| :: block[i].valid) ==>
              |ma.valid| == |block| && forall j | 0 <= j < |block| :: ma.valid[j] == j
    ensures p.machine.obliging && Positional(block, remote, old(p.imports), old(p.view), p.machine.blocks) ==>
              Relinked(block, remote, old(p.imports), p.imports, p.view)
  {
    ghost var was := p.view;
    var matching := FetchAndList(p, block, remote);
    ma := matching;
    MatchAndClose(p, matching, remote, was);
    if p.machine.obliging && Positional(block, remote, old(p.imports), was, p.machine.blocks) {
      InPosition(ma, block, remote, old(p.imports), p.imports, p.view, was, p.machine.blocks);
    }
  }

  method FetchAndList(p: Process, block: Block, remote: Servers) returns (ma: Matching)
    modifies p`view
    ensures Held(ma, remote, p.view, old(p.view)) && ma.block == block && ma.torn == TornList(p.imports, |p.imports|)
    ensures StrictlyAscending(ma.valid)
    ensures p.machine.obliging && AllServed(block, remote) && (forall i | 0 <= i < |block| :: block[i].valid) ==>
              |ma.valid| == |block| && forall j | 0 <= j < |block| :: ma.valid[j] == j
  {
    var local := FetchAll(p, block, remote);
    ma := List(p.imports, block, local, remote, Ascending(Groups(Owners(block))), p.view, old(p.view),
      p.machine.obliging);
    if forall i | 0 <= i < |block| :: block[i].valid {
      EveryOwnerVisited(block);
    }
  }

  method List(imports: seq<Import>, block: Block, local: map<nat, nat>, ghost remote: Servers, ghost done: seq<nat>,
              ghost view: View, ghost was: View, ghost obliging: bool) returns (ma: Matching)
    requires Fetched(block, remote, done, local, view, was, obliging)
    ensures Held(ma, remote, view, was) && ma.block == block && ma.torn == TornList(imports, |imports|)
    ensures StrictlyAscending(ma.valid)
    ensures obliging && AllServed(block, remote)
            && (forall i | 0 <= i < |block| :: block[i].valid && block[i].pid in done) ==>
              |ma.valid| == |block| && forall j | 0 <= j < |block| :: ma.valid[j] == j
  {
    ma := MakeMatching(block, local, imports, remote, done, view, was, obliging);
    AllReceived(ma, block, remote, done, local, imports, view, was, obliging);
    Distinct(ma, block, local, imports);
    if obliging && AllServed(block, remote) && forall i | 0 <= i < |block| :: block[i].valid && block[i].pid in done {
      AllTakePart(ma, block, remote, done, local, imports, view, was);
    }
  }

  method MakeMatching(block: Block, local: map<nat, nat>, imports: seq<Import>, ghost remote: Servers,
                      ghost done: seq<nat>, ghost view: View, ghost was: View, ghost obliging: bool)
    returns (ma: Matching)
    requires Fetched(block, remote, done, local, view, was, obliging)
    ensures IsMatching(ma, block, local, imports) && StrictlyAscending(ma.valid)
  {
    var torn := ListTorn(imports);
    assert forall i | i in local :: ReceivedOne(block, i, remote, local[i], view, was);
    var valid := ListValid(block, local);
    ValidListIs(local, |block|);
    ma := Matching(block, valid, seq(|valid|, j requires 0 <= j < |valid| => local[valid[j]]), torn);
  }

  method MatchAndClose(p: Process, ma: Matching, ghost remote: Servers, ghost was: View)
    requires Held(ma, remote, p.view, was) && ma.torn == TornList(p.imports, |p.imports|)
    requires was.Valid(p.machine.blocks) && ServersValid(remote, p.machine.blocks)
    modifies p`view, p`imports
    ensures p.view.Valid(p.machine.blocks) && p.view.fds == was.fds
    ensures OnTop(ma, ma.Count(), old(p.imports), p.view, was)
    ensures Matched(ma, remote, ma.Count(), old(p.imports), p.imports, p.view,
                    p.machine.obliging && Linkable(ma, remote, old(p.imports), was, p.machine.blocks))
    ensures NoneStray(old(p.imports), p.imports, p.view, was)
  {
    MatchFetched(p, ma, remote, was);
    ghost var mid := p.view;
    CloseRest(p, ma, remote, was);
    SameMatched(ma, remote, ma.Count(), old(p.imports), p.imports, mid, p.view,
                p.machine.obliging && Linkable(ma, remote, old(p.imports), was, p.machine.blocks));
  }

  /** Descriptors play no part in it. */
  lemma {:induction false} SameMatched(ma: Matching, remote: Servers, m: nat, before: seq<Import>, imports: seq<Import>,
                                       mid: View, view: View, must: bool)
    requires Matched(ma, remote, m, before, imports, mid, must) && view == mid.(fds := view.fds)
    ensures Matched(ma, remote, m, before, imports, view, must)
  {
    forall j | 0 <= j < m
      ensures MatchedOne(ma, remote, j, before, imports, view, must)
    {
      assert MatchedOne(ma, remote, j, before, imports, mid, must);
    }
  }

  /** IPC_IMPORT_MSG, when every import can be mapped to the block at its position. */
  method ImportPhase(p: Process, block: Block, remote: Servers, ghost contents: seq<seq<byte>>)
    requires p.machine.obliging && ReadyToImport(p, contents)
    requires ServersValid(remote, p.machine.blocks) && Positional(block, remote, p.imports, p.view, p.machine.blocks)
    modifies p`view, p`imports
    ensures Serving(p, contents) && p.view.fds == old(p.view).fds && SubMap(old(p.view).mapped, p.view.mapped)
    ensures old(p.view).issued <= p.view.issued
    ensures Relinked(block, remote, old(p.imports), p.imports, p.view)
    ensures Owned(p.exports, old(p.view), p.alias) ==> Owned(p.exports, p.view, p.alias)
  {
    var _ := ImportFromBlock(p, block, remote);
    StillServing(p.exports, old(p.imports), p.imports, p.log, p.alias, old(p.view), p.view, p.machine.blocks, contents,
      block, remote);
  }

  lemma {:induction false} StillServing(exports: seq<Export>, before: seq<Import>, imports: seq<Import>,
                                        log: map<nat, seq<AccessLog.Desc>>, alias: map<nat, nat>, was: View, view: View,
                                        blocks: Blocks, contents: seq<seq<byte>>, block: Block, remote: Servers)
    requires Up(exports, was, blocks, contents) && AllShared(exports, was) && RightsOfLog(exports, was, log)
             && DistinctVas(exports, before)
    requires SubMap(was.mapped, view.mapped) && SubMap(was.handles, view.handles) && was.issued <= view.issued
             && NewHandlesOnly(view, was)
    requires view.fds == was.fds && Relinked(block, remote, before, imports, view)
    ensures Up(exports, view, blocks, contents) && AllShared(exports, view) && RightsOfLog(exports, view, log)
            && DistinctVas(exports, imports)
    ensures Owned(exports, was, alias) ==> Owned(exports, view, alias)
  {
    forall i | 0 <= i < |exports|
      ensures UpOne(exports[i], view, blocks, contents[i]) && Shared(exports[i], view)
    {
      assert UpOne(exports[i], was, blocks, contents[i]) && Shared(exports[i], was);
    }
    if Owned(exports, was, alias) {
      forall i | 0 <= i < |exports|
        ensures OwnedOne(exports[i], view, alias)
      {
        assert OwnedOne(exports[i], was, alias);
      }
    }
    forall m | 0 <= m < |imports|
      ensures imports[m].va == before[m].va
    {
      assert LinkedTo(before[m], imports[m], BlockOf(remote, block[m]), view);
    }
  }
}

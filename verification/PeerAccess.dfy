/** Switching peer access off before a freeze and on again afterwards (src/ipc_hooks.cpp), and what the
    sequences of handlers that do so leave of it (src/vGPU.cpp,
    adapters/nccl/runtime/gcr_checkpoint_runtime.cpp). */
module PeerAccess {
  import opened Wrappers
  import opened Ordered

  /** The devices the driver has access enabled to, those the hooks track, and those remembered for
      re-enabling. */
  datatype Peers = Peers(enabled: set<nat>, tracked: set<nat>, saved: set<nat>)

  ghost function Agreed(devices: set<nat>, refused: Refusals): set<nat> {
    set d | d in devices && !refused(d)
  }

  ghost function Disabled(p: Peers, refused: Refusals): Peers {
    Peers(p.enabled - Agreed(p.tracked, refused), {}, p.tracked)
  }

  ghost function Reenabled(p: Peers, refused: Refusals): Peers {
    Peers(p.enabled + Agreed(p.saved, refused), p.tracked + Agreed(p.saved, refused), {})
  }

  ghost function FirstOf(devices: seq<nat>, n: nat): (s: set<nat>)
    requires n <= |devices|
    ensures forall d :: d in s <==> exists k :: 0 <= k < n && devices[k] == d
  {
    set k | 0 <= k < n :: devices[k]
  }

  /** One driver call a device: the devices it worked for. */
  method CallEach(devices: seq<nat>, refused: Refusals) returns (worked: set<nat>)
    ensures worked == Agreed(FirstOf(devices, |devices|), refused)
  {
    worked := {};
    for i := 0 to |devices|
      invariant worked == Agreed(FirstOf(devices, i), refused)
    {
      if !refused(devices[i]) {
        worked := worked + {devices[i]};
      }
    }
  }

  class PeerTable {
    var peers: Peers  // the driver's set, g_peer_access_devices, g_saved_peer_access_devices

    /** ipc_disable_all_peer_access: what was remembered before is forgotten, and a device is no longer
        tracked even if the driver refuses. */
    method DisableAll(refused: Refusals)
      modifies this
      ensures peers == Disabled(old(peers), refused)
      ensures forall d :: d in peers.enabled <==> d in old(peers).enabled && (d in old(peers).tracked ==> refused(d))
      ensures peers.tracked == {} && peers.saved == old(peers).tracked
    {
      var devices := Ascending(peers.tracked);
      var off := CallEach(devices, refused);
      assert FirstOf(devices, |devices|) == peers.tracked;
      peers := Peers(peers.enabled - off, {}, peers.tracked);
    }

    /** ipc_reenable_all_peer_access: a device the driver refuses is neither enabled anew nor tracked, and
        forgotten. */
    method ReenableAll(refused: Refusals)
      modifies this
      ensures peers == Reenabled(old(peers), refused)
      ensures forall d :: d in peers.enabled <==> d in old(peers).enabled || (d in old(peers).saved && !refused(d))
      ensures forall d :: d in peers.tracked <==> d in old(peers).tracked || (d in old(peers).saved && !refused(d))
      ensures peers.saved == {}
    {
      var devices := Ascending(peers.saved);
      var on := CallEach(devices, refused);
      assert FirstOf(devices, |devices|) == peers.saved;
      peers := Peers(peers.enabled + on, peers.tracked + on, {});
    }
  }

  datatype Switch = Off | On

  /** A run of switches, none refused. */
  ghost function After(p: Peers, ops: seq<Switch>): Peers {
    if ops == [] then p else
      var before := After(p, ops[..|ops| - 1]);
      if ops[|ops| - 1].Off? then Disabled(before, Nobody()) else Reenabled(before, Nobody())
  }

  ghost predicate NeverTwiceOff(ops: seq<Switch>) {
    forall i | 0 <= i < |ops| - 1 :: !(ops[i].Off? && ops[i + 1].Off?)
  }

  /** From access to the devices s, an arbitrary run keeps it for good if and only if no two switches off
      come in a row: then it is on after every On and remembered after every Off. Otherwise all of it is
      lost, and no later switch brings anything back. */
  lemma {:induction false} SurvivesExactlyWhen(s: set<nat>, ops: seq<Switch>)
    requires s != {}
    ensures var p := After(Peers(s, s, {}), ops);
            && (NeverTwiceOff(ops) ==>
                 p == if ops != [] && ops[|ops| - 1].Off? then Peers({}, {}, s) else Peers(s, s, {}))
            && (!NeverTwiceOff(ops) ==> p == Peers({}, {}, {}))
            && (p.tracked + p.saved == s <==> NeverTwiceOff(ops))
  {
    if ops != [] {
      var n := |ops| - 1;
      SurvivesExactlyWhen(s, ops[..n]);
      assert Agreed(s, Nobody()) == s && Agreed({}, Nobody()) == {};
      if NeverTwiceOff(ops[..n]) && n > 0 && ops[n].Off? && ops[n - 1].Off? {
        assert !NeverTwiceOff(ops);
      }
      assert NeverTwiceOff(ops) ==> NeverTwiceOff(ops[..n]);
    }
  }

  /** One checkpoint and restore of the coordinator: teardown and dump both switch off, restore and import
      both switch on. With -n only dump and restore do. */
  function CoordinatorCycle(skip: bool): seq<Switch> {
    if skip then [Off, On] else [Off, Off, On, On]
  }

  /** The multi-GPU flow loses peer access for good, the -n flow and the adapter's prepare and
      restore_import do not. */
  lemma {:induction false} CoordinatorLosesPeers(s: set<nat>)
    requires s != {}
    ensures After(Peers(s, s, {}), CoordinatorCycle(false)) == Peers({}, {}, {})
    ensures After(Peers(s, s, {}), CoordinatorCycle(true)) == Peers(s, s, {})
  {
    SurvivesExactlyWhen(s, CoordinatorCycle(false));
    SurvivesExactlyWhen(s, CoordinatorCycle(true));
    assert CoordinatorCycle(false)[0].Off? && CoordinatorCycle(false)[1].Off?;
  }
}

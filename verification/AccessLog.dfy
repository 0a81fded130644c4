/** The access descriptors logged by hook_cuMemSetAccess and replayed on a rebuilt mapping
    (src/ipc_hooks.cpp), and how long the log of an address lives. */
module AccessLog {
  import opened Wrappers

  /** A memory location: its type (device, host NUMA node, ...) and id. Both matter. */
  datatype Location = Location(kind: nat, id: nat)

  datatype Desc = Desc(location: Location, flags: nat)

  const DEVICE: nat := 1      // CU_MEM_LOCATION_TYPE_DEVICE
  const READ_WRITE: nat := 3  // CU_MEM_ACCESS_FLAGS_PROT_READWRITE

  /** Access rights of a mapping, as the driver holds them. */
  type Rights = map<Location, nat>

  /** cuMemSetAccess with a list of descriptors: the last one for a location wins. */
  function SetAccess(rights: Rights, descs: seq<Desc>): Rights {
    if descs == [] then rights else
      var last := descs[|descs| - 1];
      SetAccess(rights, descs[..|descs| - 1])[last.location := last.flags]
  }

  /** Any number of calls, one after another. */
  function SetAccessCalls(rights: Rights, calls: seq<seq<Desc>>): Rights {
    if calls == [] then rights else SetAccess(SetAccessCalls(rights, calls[..|calls| - 1]), calls[|calls| - 1])
  }

  function Singletons(log: seq<Desc>): (calls: seq<seq<Desc>>)
    ensures |calls| == |log|
  {
    seq(|log|, i requires 0 <= i < |log| => [log[i]])
  }

  /** Replay: one call a descriptor, on a mapping without any rights. */
  function Replay(log: seq<Desc>): Rights {
    SetAccessCalls(map[], Singletons(log))
  }

  /** All descriptors of a list of calls, in order. */
  function Flat(calls: seq<seq<Desc>>): seq<Desc> {
    if calls == [] then [] else Flat(calls[..|calls| - 1]) + calls[|calls| - 1]
  }

  lemma {:induction false} SetAccessConcat(rights: Rights, a: seq<Desc>, b: seq<Desc>)
    ensures SetAccess(rights, a + b) == SetAccess(SetAccess(rights, a), b)
  {
    if b == [] {
      assert a + b == a;
    } else {
      var n := |b| - 1;
      assert (a + b)[..|a| + n] == a + b[..n];
      SetAccessConcat(rights, a, b[..n]);
    }
  }

  /** How the descriptors are split over calls does not matter. */
  lemma {:induction false} CallsAreFlat(rights: Rights, calls: seq<seq<Desc>>)
    ensures SetAccessCalls(rights, calls) == SetAccess(rights, Flat(calls))
  {
    if calls != [] {
      var n := |calls| - 1;
      CallsAreFlat(rights, calls[..n]);
      SetAccessConcat(rights, Flat(calls[..n]), calls[n]);
    }
  }

  lemma {:induction false} FlatSingletons(log: seq<Desc>)
    ensures Flat(Singletons(log)) == log
  {
    if log != [] {
      var n := |log| - 1;
      assert Singletons(log)[..n] == Singletons(log[..n]);
      FlatSingletons(log[..n]);
    }
  }

  /** Replaying one descriptor at a time gives what one call with all of them gives. */
  lemma {:induction false} ReplayIsOneCall(log: seq<Desc>)
    ensures Replay(log) == SetAccess(map[], log)
  {
    CallsAreFlat(map[], Singletons(log));
    FlatSingletons(log);
  }

  lemma {:induction false} FlatConcat(a: seq<seq<Desc>>, b: seq<seq<Desc>>)
    ensures Flat(a + b) == Flat(a) + Flat(b)
  {
    if b == [] {
      assert a + b == a;
    } else {
      var n := |b| - 1;
      assert (a + b)[..|a| + n] == a + b[..n];
      FlatConcat(a, b[..n]);
    }
  }

  ghost predicate OnePerLocation(log: seq<Desc>) {
    forall i, j | 0 <= i < j < |log| :: log[i].location != log[j].location
  }

  ghost predicate Names(descs: seq<Desc>, l: Location) {
    exists i :: 0 <= i < |descs| && descs[i].location == l
  }

  /** A location has the right the last descriptor naming it gives; the others keep theirs. */
  lemma {:induction false} SetAccessAt(rights: Rights, descs: seq<Desc>, l: Location)
    ensures l in SetAccess(rights, descs) <==> l in rights || Names(descs, l)
    ensures Names(descs, l) ==>
              l in SetAccess(map[], descs) && l in SetAccess(rights, descs)
              && SetAccess(rights, descs)[l] == SetAccess(map[], descs)[l]
    ensures !Names(descs, l) && l in rights ==>
              l in SetAccess(rights, descs) && SetAccess(rights, descs)[l] == rights[l]
  {
    if descs != [] {
      var n := |descs| - 1;
      var front := descs[..n];
      SetAccessAt(rights, front, l);
      SetAccessAt(map[], front, l);
      assert Names(descs, l) <==> Names(front, l) || descs[n].location == l by {
        assert forall i | 0 <= i < n :: front[i] == descs[i];
      }
    }
  }

  /** Every location named in `a` is named in `b`. */
  ghost predicate Covered(a: seq<Desc>, b: seq<Desc>) {
    forall i | 0 <= i < |a| :: Names(b, a[i].location)
  }

  /** Earlier descriptors make no difference if and only if the later ones name all their
      locations again. */
  lemma {:induction false} PrefixInvisible(a: seq<Desc>, b: seq<Desc>)
    ensures SetAccess(map[], a + b) == SetAccess(map[], b) <==> Covered(a, b)
  {
    SetAccessConcat(map[], a, b);
    var first := SetAccess(map[], a);
    if Covered(a, b) {
      forall l
        ensures l in SetAccess(first, b) <==> l in SetAccess(map[], b)
        ensures l in SetAccess(map[], b) ==> SetAccess(first, b)[l] == SetAccess(map[], b)[l]
      {
        SetAccessAt(first, b, l);
        SetAccessAt(map[], b, l);
        SetAccessAt(map[], a, l);
      }
      assert SetAccess(first, b) == SetAccess(map[], b);
    } else {
      var i :| 0 <= i < |a| && !Names(b, a[i].location);
      var l := a[i].location;
      SetAccessAt(map[], a, l);
      SetAccessAt(first, b, l);
      SetAccessAt(map[], b, l);
    }
  }

  /** All descriptors name one location, and the last one gives it these flags. */
  ghost predicate GivesExactly(descs: seq<Desc>, d: Desc) {
    descs != [] && descs[|descs| - 1].flags == d.flags && forall i | 0 <= i < |descs| :: descs[i].location == d.location
  }

  lemma {:induction false} OneRight(descs: seq<Desc>, d: Desc)
    ensures SetAccess(map[], descs) == map[d.location := d.flags] <==> GivesExactly(descs, d)
  {
    if descs != [] {
      var n := |descs| - 1;
      if forall i | 0 <= i < |descs| :: descs[i].location == d.location {
        forall l
          ensures l in SetAccess(map[], descs[..n]) ==> l == d.location
        {
          SetAccessAt(map[], descs[..n], l);
        }
        assert SetAccess(map[], descs) == map[d.location := descs[n].flags];
        assert d.location in SetAccess(map[], descs);
      } else {
        var i :| 0 <= i < |descs| && descs[i].location != d.location;
        SetAccessAt(map[], descs, descs[i].location);
      }
    } else {
      assert d.location !in SetAccess(map[], descs);
    }
  }

  /** Appending to the log is one more SetAccess. */
  lemma {:induction false} ReplayPush(log: seq<Desc>, d: Desc)
    ensures Replay(log + [d]) == Replay(log)[d.location := d.flags]
  {
    assert Singletons(log + [d])[..|log|] == Singletons(log);
    assert SetAccess(Replay(log), [d]) == SetAccess(Replay(log), [])[d.location := d.flags];
  }

  /** Changing the flags of a logged location in place is one more SetAccess too. */
  lemma {:induction false} ReplayUpdate(log: seq<Desc>, i: nat, d: Desc)
    requires OnePerLocation(log) && i < |log| && log[i].location == d.location
    ensures Replay(log[i := d]) == Replay(log)[d.location := d.flags]
  {
    var n := |log| - 1;
    assert log == log[..n] + [log[n]];
    ReplayPush(log[..n], log[n]);
    if i == n {
      assert log[i := d] == log[..n] + [d];
      ReplayPush(log[..n], d);
    } else {
      ReplayUpdate(log[..n], i, d);
      assert log[i := d] == log[..n][i := d] + [log[n]];
      ReplayPush(log[..n][i := d], log[n]);
      assert log[n].location != d.location;
    }
  }

  /** The inner loop of hook_cuMemSetAccess: find the location and update it, or append. */
  method Record(log: seq<Desc>, d: Desc) returns (log': seq<Desc>)
    requires OnePerLocation(log)
    ensures OnePerLocation(log') && log' != []
    ensures Replay(log') == Replay(log)[d.location := d.flags]
  {
    for i := 0 to |log|
      invariant forall k | 0 <= k < i :: log[k].location != d.location
    {
      if log[i].location == d.location {
        ReplayUpdate(log, i, d);
        return log[i := d];
      }
    }
    ReplayPush(log, d);
    return log + [d];
  }

  /** One hooked call. */
  method RecordCall(log: seq<Desc>, descs: seq<Desc>) returns (log': seq<Desc>)
    requires OnePerLocation(log)
    ensures OnePerLocation(log')
    ensures log' == [] <==> log == [] && descs == []
    ensures Replay(log') == SetAccess(Replay(log), descs)
  {
    log' := log;
    assert descs[..0] == [];
    for k := 0 to |descs|
      invariant OnePerLocation(log')
      invariant log' == [] <==> log == [] && k == 0
      invariant Replay(log') == SetAccess(Replay(log), descs[..k])
    {
      log' := Record(log', descs[k]);
      assert descs[..k + 1][..k] == descs[..k];
    }
    assert descs[..|descs|] == descs;
  }

  /** Keying by id alone would lose rights: a device and a host node may share an id. */
  lemma {:induction false} KindMatters(id: nat, f: nat, g: nat)
    ensures var log := [Desc(Location(0, id), f), Desc(Location(1, id), g)];
            Replay(log) == map[Location(0, id) := f, Location(1, id) := g]
  {
    var log := [Desc(Location(0, id), f), Desc(Location(1, id), g)];
    assert log == ([] + [log[0]]) + [log[1]];
    ReplayPush([], log[0]);
    ReplayPush([] + [log[0]], log[1]);
  }

  /** The rights a list of calls gives from scratch. */
  ghost function GivenBy(calls: seq<seq<Desc>>, from: nat): Rights
    requires from <= |calls|
  {
    SetAccess(map[], Flat(calls[from..]))
  }

  /** The log records the calls from position `from` on. */
  ghost predicate LogOf(log: seq<Desc>, calls: seq<seq<Desc>>, from: nat)
  {
    && from <= |calls| && OnePerLocation(log) && Replay(log) == GivenBy(calls, from)
    && (log == [] <==> Flat(calls[from..]) == [])
  }

  lemma {:induction false} CallAdded(calls: seq<seq<Desc>>, from: nat, descs: seq<Desc>)
    requires from <= |calls|
    ensures GivenBy(calls + [descs], from) == SetAccess(GivenBy(calls, from), descs)
  {
    FlatAdded(calls, from, descs);
    SetAccessConcat(map[], Flat(calls[from..]), descs);
  }

  lemma {:induction false} FlatAdded(calls: seq<seq<Desc>>, from: nat, descs: seq<Desc>)
    requires from <= |calls|
    ensures Flat((calls + [descs])[from..]) == Flat(calls[from..]) + descs
  {
    assert (calls + [descs])[from..] == calls[from..] + [descs];
    assert (calls[from..] + [descs])[..|calls[from..]|] == calls[from..];
  }

  lemma {:induction false} LogStarts(calls: seq<seq<Desc>>)
    ensures LogOf([], calls, |calls|) && GivenBy(calls, |calls|) == map[]
  {
  }

  /** hook_cuMemSetAccess keeps a log that is up to date up to date. */
  method RecordNext(log: seq<Desc>, descs: seq<Desc>, ghost calls: seq<seq<Desc>>, ghost from: nat)
    returns (log': seq<Desc>)
    requires LogOf(log, calls, from)
    ensures LogOf(log', calls + [descs], from) && Replay(log') == SetAccess(Replay(log), descs)
    ensures descs != [] ==> log' != []
  {
    log' := RecordCall(log, descs);
    CallAdded(calls, from, descs);
    FlatAdded(calls, from, descs);
  }

  // ----- what the three rebuilds grant -----

  function Default(device: nat): Desc {
    Desc(Location(DEVICE, device), READ_WRITE)
  }

  /** What a rebuild is to grant: all that was logged, at one go; without a log, the fallback alone. */
  ghost predicate GivenBack(log: seq<Desc>, fallback: Desc, rights: Rights) {
    rights == if log != [] then SetAccess(map[], log) else map[fallback.location := fallback.flags]
  }

  /** ipc_rebuild_local_allocs: the logged descriptors, or read-write for the own device when there
      are none. */
  function LocalGrant(log: seq<Desc>, device: nat): (rights: Rights)
    ensures GivenBack(log, Desc(Location(DEVICE, device), READ_WRITE), rights)
  {
    ReplayIsOneCall(log);
    OneDesc(Default(device));
    if log != [] then Replay(log) else SetAccess(map[], [Default(device)])
  }

  /** ipc_rebuild_and_restore_all_exports: the same, but an export record that saw a call itself
      falls back on that. */
  function ExportGrant(log: seq<Desc>, seen: Option<Desc>, device: nat): (rights: Rights)
    ensures seen.Some? ==> GivenBack(log, seen.value, rights)
    ensures seen.None? ==> GivenBack(log, Desc(Location(DEVICE, device), READ_WRITE), rights)
  {
    ReplayIsOneCall(log);
    OneDesc(if seen.Some? then seen.value else Default(device));
    if log != [] then Replay(log) else SetAccess(map[], [if seen.Some? then seen.value else Default(device)])
  }

  /** ipc_import_from_shm_block: the record's own descriptors and nothing else. */
  function ImportGrant(access: seq<Desc>): (rights: Rights)
    ensures rights == SetAccess(map[], access)
  {
    ReplayIsOneCall(access);
    Replay(access)
  }

  // ----- the log of one address over the life of its mappings -----

  /** What the tables and the driver hold for one virtual address. `calls` is every hooked SetAccess
      call on the address so far. */
  class Address {
    const device: nat               // location of the allocation behind it
    var mapped: bool
    var rights: Rights              // the driver's
    var log: seq<Desc>              // g_va_access_descs
    var access: seq<Desc>           // all_access of the newest import record of the address
    var imported: bool              // the current mapping is that import
    var exported: bool              // the address is in g_vaddr_to_export_idx
    var seen: Option<Desc>          // has_access and access_desc of its export record
    ghost var calls: seq<seq<Desc>>
    ghost var mapAt: nat            // calls made before the current mapping
    ghost var eraseAt: nat          // calls made before the log was last erased

    constructor (device: nat)
      ensures Valid() && !mapped && calls == [] && this.device == device && log == []
    {
      this.device := device;
      mapped, rights, log, access, imported, exported, seen := false, map[], [], [], false, false, None;
      calls, mapAt, eraseAt := [], 0, 0;
      new;
      LogStarts(calls);
    }

    /** The calls made on the current mapping, flattened. */
    ghost function Granted(): seq<Desc>
      requires mapAt <= |calls|
      reads this
    {
      Flat(calls[mapAt..])
    }

    /** The calls recorded since the log was last erased, flattened. */
    ghost function Logged(): seq<Desc>
      requires eraseAt <= |calls|
      reads this
    {
      Flat(calls[eraseAt..])
    }

    ghost predicate Valid()
      reads this
    {
      && mapAt <= |calls| && eraseAt <= |calls|
      && LogOf(log, calls, eraseAt)
      && (imported ==> mapped && LogOf(access, calls, mapAt))
    }

    /** The mapping has the rights the application's calls gave it. */
    ghost predicate Faithful()
      requires Valid()
      reads this
    {
      mapped && rights == GivenBy(calls, mapAt)
    }

    /** hook_cuMemMap. The log is not touched. */
    method Map(viaImport: bool)
      requires Valid() && !mapped
      modifies this
      ensures Valid() && Faithful() && imported == viaImport && mapAt == |calls|
      ensures log == old(log) && calls == old(calls) && eraseAt == old(eraseAt) && exported == old(exported)
              && seen == old(seen)
    {
      mapped, rights, mapAt := true, map[], |calls|;
      imported := viaImport;
      if viaImport {
        access := [];
      }
      LogStarts(calls);
    }

    /** hook_cuMemUnmap. The log is not touched. */
    method Unmap()
      requires Valid() && mapped
      modifies this`mapped, this`imported
      ensures Valid() && !mapped
    {
      mapped, imported := false, false;
    }

    /** hook_cuMemExportToShareableHandle. */
    method Export()
      requires Valid() && mapped
      modifies this`exported, this`seen
      ensures Valid() && exported && seen == None
    {
      exported, seen := true, None;
    }

    /** hook_cuMemRelease of the local handle recorded for this address: the log goes, the mapping
        stays. */
    method ReleaseHandle()
      requires Valid()
      modifies this`log, this`exported, this`eraseAt
      ensures Valid() && log == [] && eraseAt == |calls| && !exported
    {
      log, exported, eraseAt := [], false, |calls|;
      LogStarts(calls);
    }

    /** hook_cuMemSetAccess, on the whole mapping. */
    method Grant(descs: seq<Desc>)
      requires Valid() && mapped && descs != []
      modifies this
      ensures Valid() && calls == old(calls) + [descs] && mapAt == old(mapAt) && eraseAt == old(eraseAt)
      ensures mapped && imported == old(imported) && exported == old(exported)
      ensures rights == SetAccess(old(rights), descs)
      ensures old(Faithful()) ==> Faithful()
      ensures log != [] && Replay(log) == SetAccess(Replay(old(log)), descs)
      ensures seen == if exported then Some(descs[0]) else old(seen)
    {
      var newLog := RecordNext(log, descs, calls, eraseAt);
      var newAccess := access;
      if imported {
        newAccess := RecordNext(access, descs, calls, mapAt);
      }
      CallAdded(calls, mapAt, descs);
      rights, log, access, calls := SetAccess(rights, descs), newLog, newAccess, calls + [descs];
      if exported {
        seen := Some(descs[0]);
      }
    }

    /** The stretch of calls only one of the log and the mapping knows, and the stretch both know. */
    ghost function Between(): seq<Desc>
      requires Valid()
      reads this
    {
      if eraseAt <= mapAt then Flat(calls[eraseAt..mapAt]) else Flat(calls[mapAt..eraseAt])
    }

    ghost function Common(): seq<Desc>
      requires Valid()
      reads this
    {
      if eraseAt <= mapAt then Granted() else Logged()
    }

    /** A replay of a nonempty log is right if and only if every location named while only one of
        log and mapping was listening was named again while both were. */
    lemma {:induction false} ReplayExactlyWhen()
      requires Valid() && log != []
      ensures Replay(log) == SetAccess(map[], Granted()) <==> Covered(Between(), Common())
    {
      var lo, hi := if eraseAt <= mapAt then eraseAt else mapAt, if eraseAt <= mapAt then mapAt else eraseAt;
      assert calls[lo..] == calls[lo..hi] + calls[hi..];
      FlatConcat(calls[lo..hi], calls[hi..]);
      PrefixInvisible(Between(), Common());
    }

    /** A teardown: the memory goes, and with it what was granted. */
    method TakeDown()
      requires Valid() && mapped
      modifies this`rights
      ensures Valid() && rights == map[]
    {
      rights := map[];
    }

    /** Teardown and ipc_rebuild_local_allocs. The rights come back if and only if: with a nonempty
        log, nothing was named outside the calls common to log and mapping that was not named in
        them; with an empty log, the calls gave read-write to the own device and nothing else. */
    method RebuildLocal()
      requires Valid() && mapped
      modifies this`rights
      ensures Valid() && mapped && GivenBack(log, Desc(Location(DEVICE, device), READ_WRITE), rights)
      ensures Faithful() <==>
                if log != [] then Covered(Between(), Common())
                else GivesExactly(Granted(), Desc(Location(DEVICE, device), READ_WRITE))
    {
      rights := LocalGrant(log, device);
      if log != [] {
        ReplayExactlyWhen();
      } else {
        OneRight(Granted(), Default(device));
        OneDesc(Default(device));
      }
    }

    /** Teardown and ipc_rebuild_and_restore_all_exports. */
    method RebuildExport()
      requires Valid() && mapped
      modifies this`rights
      ensures Valid() && mapped
      ensures GivenBack(log, if seen.Some? then seen.value else Desc(Location(DEVICE, device), READ_WRITE), rights)
      ensures Faithful() <==>
                if log != [] then Covered(Between(), Common())
                else GivesExactly(Granted(), if seen.Some? then seen.value
                                             else Desc(Location(DEVICE, device), READ_WRITE))
    {
      rights := ExportGrant(log, seen, device);
      if log != [] {
        ReplayExactlyWhen();
      } else {
        var d := if seen.Some? then seen.value else Default(device);
        OneRight(Granted(), d);
        OneDesc(d);
      }
    }

    /** Teardown and ipc_import_from_shm_block: the rights always come back, because an import record
        starts with its mapping. */
    method RebuildImport()
      requires Valid() && imported
      modifies this`rights
      ensures Valid() && Faithful() && rights == SetAccess(map[], access)
    {
      rights := ImportGrant(access);
    }
  }

  lemma {:induction false} OneDesc(d: Desc)
    ensures SetAccess(map[], [d]) == map[d.location := d.flags]
  {
  }

  /** In the plain life of an address, any sequence of calls on its only mapping, the rights are those the
      calls gave over any number of rebuilds, by whichever of the three functions rebuilds the address: its
      own memory as a local allocation or as an export, an imported one as an import. */
  method PlainLife(calls: seq<seq<Desc>>, cycles: nat, device: nat, viaImport: bool) returns (a: Address)
    requires calls != [] && forall i | 0 <= i < |calls| :: calls[i] != []
    ensures a.Valid() && a.Faithful() && a.rights == SetAccessCalls(map[], calls)
  {
    a := new Address(device);
    a.Map(viaImport);
    for k := 0 to |calls|
      invariant a.Valid() && a.Faithful() && fresh(a) && a.mapAt == a.eraseAt == 0 && a.calls == calls[..k]
      invariant a.imported == viaImport && (k > 0 ==> a.log != [])
    {
      a.Grant(calls[k]);
    }
    assert calls[..|calls|] == calls;
    for k := 0 to cycles
      invariant a.Valid() && a.Faithful() && fresh(a) && a.mapAt == a.eraseAt == 0 && a.calls == calls && a.log != []
      invariant a.imported == viaImport
    {
      a.TakeDown();
      if viaImport {
        a.RebuildImport();
      } else {
        RebuildEither(a);
      }
    }
    CallsAreFlat(map[], calls);
    assert calls[0..] == calls;
  }

  /** A local allocation is rebuilt as one, an exported one as an export. */
  method RebuildEither(a: Address)
    requires a.Valid() && a.mapped && a.mapAt == a.eraseAt == 0 && a.log != []
    modifies a`rights
    ensures a.Valid() && a.Faithful()
  {
    assert a.calls[0..0] == [];
    var exported: bool := *;
    if exported {
      a.RebuildExport();
    } else {
      a.RebuildLocal();
    }
  }

  /** Failing input 1: a mapping on which no rights were ever set comes back readable and writable. */
  method RightsFromNowhere(device: nat) returns (a: Address)
    ensures a.Valid() && a.mapped && a.Granted() == [] && !a.Faithful()
    ensures a.rights == map[Location(DEVICE, device) := READ_WRITE]
  {
    a := new Address(device);
    a.Map(false);
    assert a.calls[0..] == [];
    a.RebuildLocal();
    OneDesc(Default(device));
  }

  /** Two allocations mapped at one address, one after the other. */
  method MapTwice(device: nat, one: Desc, two: Desc) returns (a: Address)
    ensures fresh(a) && a.Valid() && a.mapped && a.log != [] && a.device == device
    ensures a.calls == ([] + [[one]]) + [[two]] && a.mapAt == 1 && a.eraseAt == 0
  {
    a := new Address(device);
    a.Map(false);
    a.Grant([one]);
    a.Unmap();
    a.Map(false);
    a.Grant([two]);
  }

  /** Failing input 2: a second allocation mapped at the address gets the first one's rights. */
  method RightsOfTheFirst(device: nat, one: Desc, two: Desc) returns (a: Address)
    requires one.location != two.location
    ensures a.Valid() && a.mapped && a.Granted() == [two] && !a.Faithful()
  {
    a := MapTwice(device, one, two);
    TwoCalls(one, two);
    a.RebuildLocal();
  }

  lemma {:induction false} TwoCalls(one: Desc, two: Desc)
    requires one.location != two.location
    ensures var calls := ([] + [[one]]) + [[two]];
            Flat(calls[0..1]) == [one] && Flat(calls[1..]) == [two] && !Covered(Flat(calls[0..1]), Flat(calls[1..]))
  {
    var calls := ([] + [[one]]) + [[two]];
    assert calls[0..1] == [[one]] && calls[1..] == [[two]];
    assert [[two]][..0] == [] && [[one]][..0] == [];
    assert Flat([[two]]) == [two] && Flat([[one]]) == [one];
    assert !Names([two], [one][0].location);
  }

  /** Failing input 3: releasing the handle of a mapped allocation erases its log, so a right given
      to another device is replaced by the default. */
  method RightsForgotten(device: nat, peer: Desc) returns (a: Address)
    requires peer.location != Location(DEVICE, device)
    ensures a.Valid() && a.mapped && a.Granted() == [peer] && !a.Faithful()
    ensures a.rights == map[Location(DEVICE, device) := READ_WRITE]
  {
    a := new Address(device);
    a.Map(false);
    a.Grant([peer]);
    a.ReleaseHandle();
    assert a.calls == [[peer]] && a.calls[0..] == [[peer]] && [[peer]][..0] == [];
    assert Flat([[peer]]) == [peer];
    a.RebuildLocal();
    OneDesc(Default(device));
  }
}

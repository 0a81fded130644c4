/** Freezing and thawing all workers in action mode (coordinator/multi_cr_client.cpp), over any sequence
    of attempts. */
module Freeze {

  /** CUDA state of a worker process, as cuda-checkpoint keeps it. */
  datatype Cuda = Running | Locked | Checkpointed

  datatype CudaAction = Lock | Checkpoint | Restore | Unlock

  /** An action works only in its own start state; it may also fail for reasons of its own, a glitch. A
      failing action changes nothing. */
  predicate Succeeds(c: Cuda, a: CudaAction, glitch: bool) {
    !glitch && (match a case Lock => c == Running case Checkpoint => c == Locked
                        case Restore => c == Checkpointed case Unlock => c == Locked)
  }

  function EndState(a: CudaAction): Cuda {
    match a case Lock => Locked case Checkpoint => Checkpointed case Restore => Locked case Unlock => Running
  }

  function Perform(c: Cuda, a: CudaAction, glitch: bool): Cuda {
    if Succeeds(c, a, glitch) then EndState(a) else c
  }

  /** Which workers' calls of one round fail for reasons of their own. */
  type Glitches = nat -> bool

  function PerformAll(cs: seq<Cuda>, a: CudaAction, g: Glitches): (r: seq<Cuda>)
    ensures |r| == |cs| && forall i | 0 <= i < |cs| :: r[i] == Perform(cs[i], a, g(i))
  {
    seq(|cs|, i requires 0 <= i < |cs| => Perform(cs[i], a, g(i)))
  }

  /** Number of failures among the first n calls. */
  function Failures(cs: seq<Cuda>, a: CudaAction, g: Glitches, n: nat): (f: nat)
    requires n <= |cs|
    ensures f == 0 <==> forall i | 0 <= i < n :: Succeeds(cs[i], a, g(i))
    ensures f == n <==> forall i | 0 <= i < n :: !Succeeds(cs[i], a, g(i))
    ensures f <= n
  {
    if n == 0 then 0 else Failures(cs, a, g, n - 1) + (if Succeeds(cs[n - 1], a, g(n - 1)) then 0 else 1)
  }

  /** cuda_ckpt_all_parallel: run one action on every worker; the runs do not interact. */
  method RunAll(cs: seq<Cuda>, a: CudaAction, g: Glitches) returns (cs': seq<Cuda>, failures: nat)
    ensures cs' == PerformAll(cs, a, g) && failures == Failures(cs, a, g, |cs|)
  {
    cs', failures := [], 0;
    for i := 0 to |cs|
      invariant |cs'| == i && forall k | 0 <= k < i :: cs'[k] == Perform(cs[k], a, g(k))
      invariant failures == Failures(cs, a, g, i)
    {
      if !Succeeds(cs[i], a, g(i)) {
        failures := failures + 1;
      }
      cs' := cs' + [Perform(cs[i], a, g(i))];
    }
  }

  /** The glitches of the three rounds of a freeze, or of the two of a restore. `found` is whether the
      cuda-checkpoint binary is there. */
  datatype Attempt =
    | Freeze(bufferOnly: bool, found: bool, lock: Glitches, ckpt: Glitches, back: Glitches)
    | Thaw(bufferOnly: bool, found: bool, restore: Glitches, unlock: Glitches)

  /** What an attempt leaves behind and how many failures it reports. */
  datatype Report = Report(cs: seq<Cuda>, failures: nat)

  /** cuda_checkpoint_freeze_action and cuda_checkpoint_restore_action. */
  function Try(cs: seq<Cuda>, t: Attempt): (r: Report)
    ensures |r.cs| == |cs|
  {
    var n := |cs|;
    if t.bufferOnly then Report(cs, 0)
    else if !t.found then Report(cs, n)
    else match t
      case Freeze(_, _, lock, ckpt, back) =>
        var locked := PerformAll(cs, Lock, lock);
        var failed := Failures(cs, Lock, lock, n);
        if failed > 0 then Report(PerformAll(locked, Unlock, back), failed) else
          var frozen := PerformAll(locked, Checkpoint, ckpt);
          var stuck := Failures(locked, Checkpoint, ckpt, n);
          Report(if stuck > 0 then PerformAll(frozen, Unlock, back) else frozen, stuck)
      case Thaw(_, _, restore, unlock) =>
        var thawed := PerformAll(cs, Restore, restore);
        Report(PerformAll(thawed, Unlock, unlock),
          Failures(cs, Restore, restore, n) + Failures(thawed, Unlock, unlock, n))
  }

  method FreezeAction(cs: seq<Cuda>, bufferOnly: bool, found: bool, lock: Glitches, ckpt: Glitches, back: Glitches)
    returns (cs': seq<Cuda>, failures: nat)
    ensures Report(cs', failures) == Try(cs, Freeze(bufferOnly, found, lock, ckpt, back))
  {
    if bufferOnly {
      return cs, 0;
    }
    if !found {
      return cs, |cs|;
    }
    var locked, failed := RunAll(cs, Lock, lock);
    var ignored;
    if failed > 0 {
      cs', ignored := RunAll(locked, Unlock, back);
      return cs', failed;
    }
    cs', failures := RunAll(locked, Checkpoint, ckpt);
    if failures > 0 {
      cs', ignored := RunAll(cs', Unlock, back);
    }
  }

  /** Everybody is unlocked, whatever happened before. */
  method RestoreAction(cs: seq<Cuda>, bufferOnly: bool, found: bool, restore: Glitches, unlock: Glitches)
    returns (cs': seq<Cuda>, failures: nat)
    ensures Report(cs', failures) == Try(cs, Thaw(bufferOnly, found, restore, unlock))
  {
    if bufferOnly {
      return cs, 0;
    }
    if !found {
      return cs, |cs|;
    }
    var thawed, r := RunAll(cs, Restore, restore);
    var u;
    cs', u := RunAll(thawed, Unlock, unlock);
    failures := r + u;
  }

  /** do_restore up to its first broadcast: the coordinator exits on an unfreeze failure. */
  method StartDataRestore(cs: seq<Cuda>, bufferOnly: bool, found: bool, restore: Glitches, unlock: Glitches)
    returns (cs': seq<Cuda>, started: bool)
    ensures cs' == Try(cs, Thaw(bufferOnly, found, restore, unlock)).cs
    ensures started <==> Starts(cs, Thaw(bufferOnly, found, restore, unlock))
  {
    var failures;
    cs', failures := RestoreAction(cs, bufferOnly, found, restore, unlock);
    started := !(failures > 0 && !bufferOnly);
  }

  predicate Starts(cs: seq<Cuda>, t: Attempt) {
    t.Thaw? && (t.bufferOnly || Try(cs, t).failures == 0)
  }

  ghost predicate All(cs: seq<Cuda>, c: Cuda) {
    forall i | 0 <= i < |cs| :: cs[i] == c
  }

  /** No call of the attempt has a glitch. */
  ghost predicate Smooth(t: Attempt) {
    && t.found && !t.bufferOnly
    && match t
       case Freeze(_, _, lock, ckpt, back) => forall i :: !lock(i) && !ckpt(i) && !back(i)
       case Thaw(_, _, restore, unlock) => forall i :: !restore(i) && !unlock(i)
  }

  // ----- one attempt, from any state -----

  /** In buffer-only mode nothing is tried and nothing fails; without the binary nothing is tried either, and
      everybody counts as a failure. */
  lemma {:induction false} NothingTried(cs: seq<Cuda>, t: Attempt)
    requires t.bufferOnly || !t.found
    ensures Try(cs, t).cs == cs && Try(cs, t).failures == if t.bufferOnly then 0 else |cs|
  {
  }

  ghost function FailedOnes(cs: seq<Cuda>, a: CudaAction, g: Glitches, n: nat): (s: set<nat>)
    requires n <= |cs|
  {
    set i: nat | i < n && !Succeeds(cs[i], a, g(i))
  }

  /** The number reported is the number of workers whose call failed. */
  lemma {:induction false} FailuresCount(cs: seq<Cuda>, a: CudaAction, g: Glitches, n: nat)
    requires n <= |cs|
    ensures Failures(cs, a, g, n) == |FailedOnes(cs, a, g, n)|
  {
    if n == 0 {
      assert FailedOnes(cs, a, g, 0) == {};
    } else {
      FailuresCount(cs, a, g, n - 1);
      if Succeeds(cs[n - 1], a, g(n - 1)) {
        assert FailedOnes(cs, a, g, n) == FailedOnes(cs, a, g, n - 1);
      } else {
        assert FailedOnes(cs, a, g, n) == FailedOnes(cs, a, g, n - 1) + {n - 1};
      }
    }
  }

  /** A freeze checkpoints nobody unless everybody was running and could be locked: one worker that is
      not running, or one lock glitch, and nobody is checkpointed who was not before. */
  lemma {:induction false} AllLockedOrNone(cs: seq<Cuda>, t: Attempt, i: nat)
    requires t.Freeze? && i < |cs|
    requires Try(cs, t).cs[i] == Checkpointed && cs[i] != Checkpointed
    ensures All(cs, Running) && forall k | 0 <= k < |cs| :: !t.lock(k)
  {
    BackedOut(cs, t, i);
    assert forall k | 0 <= k < |cs| :: Succeeds(cs[k], Lock, t.lock(k));
  }

  /** After a failed lock nobody is checkpointed who was not before. */
  lemma {:induction false} BackedOut(cs: seq<Cuda>, t: Attempt, i: nat)
    requires t.Freeze? && i < |cs|
    ensures Failures(cs, Lock, t.lock, |cs|) > 0 && Try(cs, t).cs[i] == Checkpointed ==> cs[i] == Checkpointed
  {
  }

  /** A freeze of running workers reports no failures exactly when it leaves all of them checkpointed;
      after a failed lock everybody runs whose unlock has no glitch; after a failed checkpoint those
      that succeeded stay frozen and the others run. */
  lemma {:induction false} FreezeOutcome(cs: seq<Cuda>, t: Attempt)
    requires t.Freeze? && t.found && !t.bufferOnly && All(cs, Running) && cs != []
    ensures Try(cs, t).failures == 0 <==> All(Try(cs, t).cs, Checkpointed)
    ensures Try(cs, t).failures == 0 <==> forall i | 0 <= i < |cs| :: !t.lock(i) && !t.ckpt(i)
    ensures (exists k :: 0 <= k < |cs| && t.lock(k)) ==>
              forall i | 0 <= i < |cs| :: Try(cs, t).cs[i] == if !t.lock(i) && t.back(i) then Locked else Running
    ensures (forall k | 0 <= k < |cs| :: !t.lock(k)) && Try(cs, t).failures > 0 ==>
              forall i | 0 <= i < |cs| ::
                Try(cs, t).cs[i] == if !t.ckpt(i) then Checkpointed else if t.back(i) then Locked else Running
  {
    if Failures(cs, Lock, t.lock, |cs|) > 0 {
      FailedLock(cs, t);
      assert Try(cs, t).cs[0] != Checkpointed;
    } else {
      AllLocked(cs, t);
    }
  }

  lemma {:induction false} FailedLock(cs: seq<Cuda>, t: Attempt)
    requires t.Freeze? && t.found && !t.bufferOnly && All(cs, Running) && Failures(cs, Lock, t.lock, |cs|) > 0
    ensures exists k :: 0 <= k < |cs| && t.lock(k)
    ensures forall i | 0 <= i < |cs| :: Try(cs, t).cs[i] == if !t.lock(i) && t.back(i) then Locked else Running
  {
  }

  lemma {:induction false} AllLocked(cs: seq<Cuda>, t: Attempt)
    requires t.Freeze? && t.found && !t.bufferOnly && All(cs, Running) && Failures(cs, Lock, t.lock, |cs|) == 0
    ensures forall k | 0 <= k < |cs| :: !t.lock(k)
    ensures forall i | 0 <= i < |cs| ::
              Try(cs, t).cs[i] == if !t.ckpt(i) then Checkpointed else if t.back(i) then Locked else Running
    ensures Try(cs, t).failures == 0 <==> forall i | 0 <= i < |cs| :: !t.ckpt(i)
  {
    var locked := PerformAll(cs, Lock, t.lock);
    var frozen := PerformAll(locked, Checkpoint, t.ckpt);
    assert All(locked, Locked);
    if Failures(locked, Checkpoint, t.ckpt, |cs|) > 0 {
      assert Try(cs, t).cs == PerformAll(frozen, Unlock, t.back);
    } else {
      assert Try(cs, t).cs == frozen;
    }
  }

  /** A restore reports no failures exactly when everybody was checkpointed and no call has a glitch. */
  lemma {:induction false} ThawReports(cs: seq<Cuda>, t: Attempt)
    requires t.Thaw? && t.found && !t.bufferOnly
    ensures Try(cs, t).failures == 0 <==>
            All(cs, Checkpointed) && forall i | 0 <= i < |cs| :: !t.restore(i) && !t.unlock(i)
    ensures Try(cs, t).failures == 0 ==> All(Try(cs, t).cs, Running)
  {
  }

  /** From any mix of states one restore without glitches leaves everybody running, though it reports
      failures unless everybody was checkpointed. */
  lemma {:induction false} SmoothThawHeals(cs: seq<Cuda>, t: Attempt)
    requires t.Thaw? && Smooth(t)
    ensures All(Try(cs, t).cs, Running)
    ensures Try(cs, t).failures == 0 <==> All(cs, Checkpointed)
  {
  }

  // ----- any run of attempts -----

  /** The state after a run of attempts. */
  function After(cs: seq<Cuda>, ts: seq<Attempt>): (r: seq<Cuda>)
    ensures |r| == |cs|
  {
    if ts == [] then cs else Try(After(cs, ts[..|ts| - 1]), ts[|ts| - 1]).cs
  }

  ghost predicate AllSmooth(ts: seq<Attempt>) {
    forall k | 0 <= k < |ts| :: Smooth(ts[k])
  }

  lemma {:induction false} SmoothFreeze(cs: seq<Cuda>, t: Attempt)
    requires t.Freeze? && Smooth(t) && (All(cs, Running) || All(cs, Checkpointed))
    ensures All(Try(cs, t).cs, Checkpointed)
  {
  }

  /** A run without glitches never leaves the two states all running and all checkpointed: it is in the
      second after a freeze, in the first after a restore. */
  lemma {:induction false} SmoothRuns(cs: seq<Cuda>, ts: seq<Attempt>)
    requires All(cs, Running) && AllSmooth(ts) && ts != []
    ensures All(After(cs, ts), if ts[|ts| - 1].Freeze? then Checkpointed else Running)
  {
    var n := |ts| - 1;
    if n > 0 {
      SmoothRuns(cs, ts[..n]);
    }
    var before := After(cs, ts[..n]);
    if ts[n].Freeze? {
      SmoothFreeze(before, ts[n]);
    } else {
      SmoothThawHeals(before, ts[n]);
    }
  }

  /** Whatever went wrong in any run of attempts, one restore without glitches followed by one freeze
      without glitches reports no failure in the freeze and leaves everybody checkpointed. */
  lemma {:induction false} AlwaysRecovers(cs: seq<Cuda>, ts: seq<Attempt>, thaw: Attempt, freeze: Attempt)
    requires thaw.Thaw? && Smooth(thaw) && freeze.Freeze? && Smooth(freeze) && cs != []
    ensures var healed := Try(After(cs, ts), thaw).cs;
            All(healed, Running) && Try(healed, freeze).failures == 0 && All(Try(healed, freeze).cs, Checkpointed)
  {
    SmoothThawHeals(After(cs, ts), thaw);
    FreezeOutcome(Try(After(cs, ts), thaw).cs, freeze);
  }

  /** In any run, data restore starts only when everybody was checkpointed and is running again; the
      exception is buffer-only mode, where nobody is touched. */
  lemma {:induction false} DataRestoreFindsAllRunning(cs: seq<Cuda>, ts: seq<Attempt>, t: Attempt)
    requires !t.bufferOnly && Starts(After(cs, ts), t) && cs != []
    ensures All(After(cs, ts), Checkpointed) && All(Try(After(cs, ts), t).cs, Running)
  {
    ThawReports(After(cs, ts), t);
  }

  /** No worker is checkpointed by a restore. */
  lemma {:induction false} ThawsStay(cs: seq<Cuda>, ts: seq<Attempt>, i: nat)
    requires i < |cs| && cs[i] != Checkpointed && forall k | 0 <= k < |ts| :: ts[k].Thaw?
    ensures After(cs, ts)[i] != Checkpointed
  {
    if ts != [] {
      ThawsStay(cs, ts[..|ts| - 1], i);
    }
  }

  /** A partly failed freeze cannot be undone by restoring alone: as long as some worker is not
      checkpointed, no number of restores, smooth or not, ever starts data restore. A smooth freeze has
      to come first. */
  lemma {:induction false} RestoringAloneNeverStarts(cs: seq<Cuda>, ts: seq<Attempt>, t: Attempt, i: nat)
    requires i < |cs| && cs[i] != Checkpointed && forall k | 0 <= k < |ts| :: ts[k].Thaw?
    requires t.Thaw? && !t.bufferOnly
    ensures !Starts(After(cs, ts), t)
  {
    ThawsStay(cs, ts, i);
    if t.found {
      ThawReports(After(cs, ts), t);
    }
  }
}
